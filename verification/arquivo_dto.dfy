/** The API payload for files (ArquivoDto): the nine attributes, all nullable,
    under their legacy lower-case names. */
module ArquivoDtos {
  import opened JavaLang
  import opened ArquivoEntity

  /** A DTO built with the no-argument constructor: no field has an initialiser,
      so all nine are null. */
  const EmptyDto: ArquivoFields := ArquivoFields(None, None, None, None, None, None, None, None, None)

  /** The DTO: one mutable field per attribute. */
  class ArquivoDto {
    var codigoarquivo: Option<int32>
    var quantidaderegistro: Option<int32>
    var aptos: Option<int32>
    var semdocumento: Option<int32>
    var comcodigosetps: Option<int32>
    var comerro: Option<int32>
    var nomearquivo: Option<string>
    var anovigencia: Option<string>
    var codigoescola: Option<string>

    function Fields(): ArquivoFields
      reads this
    {
      ArquivoFields(codigoarquivo, quantidaderegistro, aptos, semdocumento, comcodigosetps, comerro,
        nomearquivo, anovigencia, codigoescola)
    }

    constructor ()
      ensures Fields() == EmptyDto
    {
      codigoarquivo, quantidaderegistro, aptos, semdocumento, comcodigosetps, comerro := None, None, None, None, None, None;
      nomearquivo, anovigencia, codigoescola := None, None, None;
    }

    /** `ArquivoDto(codigoarquivo)`: the id as given, the other eight null. */
    constructor WithId(id: Option<int32>)
      ensures Fields() == EmptyDto.WithNumber(CodigoArquivo, id)
    {
      codigoarquivo, quantidaderegistro, aptos, semdocumento, comcodigosetps, comerro := id, None, None, None, None, None;
      nomearquivo, anovigencia, codigoescola := None, None, None;
    }

    /** `ArquivoDto(codigoarquivo, nomearquivo)`: the id and the name as given, the other seven null. */
    constructor WithIdAndName(id: Option<int32>, name: Option<string>)
      ensures Fields() == EmptyDto.WithNumber(CodigoArquivo, id).WithText(NomeArquivo, name)
    {
      codigoarquivo, quantidaderegistro, aptos, semdocumento, comcodigosetps, comerro := id, None, None, None, None, None;
      nomearquivo, anovigencia, codigoescola := name, None, None;
    }

    /** The six Integer setters. */
    method SetNumber(n: NumericField, v: Option<int32>)
      modifies this
      ensures Fields() == old(Fields()).WithNumber(n, v)
      ensures Fields().Number(n) == v
    {
      match n
      case CodigoArquivo => codigoarquivo := v;
      case QuantidadeRegistro => quantidaderegistro := v;
      case Aptos => aptos := v;
      case SemDocumento => semdocumento := v;
      case ComCodigoSetps => comcodigosetps := v;
      case ComErro => comerro := v;
    }

    /** The three String setters. */
    method SetText(t: TextField, v: Option<string>)
      modifies this
      ensures Fields() == old(Fields()).WithText(t, v)
      ensures Fields().Text(t) == v
    {
      match t
      case NomeArquivo => nomearquivo := v;
      case AnoVigencia => anovigencia := v;
      case CodigoEscola => codigoescola := v;
    }

    /** `toEntity()`, which the service calls but the DTO does not define:
        taken here to be a new entity with the nine values copied, nulls included. */
    method ToEntity() returns (e: Arquivo)
      ensures fresh(e)
      ensures e.Fields() == Fields()
    {
      e := new Arquivo.WithIdAndName(codigoarquivo, nomearquivo);
      e.SetBoxed(QuantidadeRegistro, quantidaderegistro);
      e.SetBoxed(Aptos, aptos);
      e.SetBoxed(SemDocumento, semdocumento);
      e.SetBoxed(ComCodigoSetps, comcodigosetps);
      e.SetBoxed(ComErro, comerro);
      e.SetText(AnoVigencia, anovigencia);
      e.SetText(CodigoEscola, codigoescola);
      assert e.Fields() == ArquivoFields(codigoarquivo, quantidaderegistro, aptos, semdocumento, comcodigosetps, comerro,
        nomearquivo, anovigencia, codigoescola);
    }

    /** `fromEntity(arquivo)`: null for null; otherwise a new DTO holding the
        entity's boxed views and its three strings, so an unset counter stays null. */
    static method FromEntity(arquivo: Arquivo?) returns (dto: ArquivoDto?)
      ensures arquivo == null <==> dto == null
      ensures dto != null ==> fresh(dto) && dto.Fields() == arquivo.Fields()
      ensures dto != null ==> forall n :: dto.Fields().Number(n) == arquivo.Boxed(n)
    {
      if arquivo == null {
        return null;
      }
      dto := new ArquivoDto.WithId(arquivo.Boxed(CodigoArquivo));
      dto.SetText(NomeArquivo, arquivo.Text(NomeArquivo));
      dto.SetNumber(QuantidadeRegistro, arquivo.Boxed(QuantidadeRegistro));
      dto.SetNumber(Aptos, arquivo.Boxed(Aptos));
      dto.SetNumber(SemDocumento, arquivo.Boxed(SemDocumento));
      dto.SetNumber(ComCodigoSetps, arquivo.Boxed(ComCodigoSetps));
      dto.SetNumber(ComErro, arquivo.Boxed(ComErro));
      dto.SetText(AnoVigencia, arquivo.Text(AnoVigencia));
      dto.SetText(CodigoEscola, arquivo.Text(CodigoEscola));
      assert dto.Fields() == arquivo.Fields();
    }
  }
}
