/** The API payload for state re-registration records
    (ArquivoRecadastramentoEstadoDto): the same seven text attributes as the
    entity, its validation annotations, and the mappings to and from the entity. */
module RecadastramentoEstadoDtos {
  import opened JavaLang
  import opened RecadastramentoEstadoEntity

  /** The annotations on the DTO's fields. None of them names a group. */
  function DtoConstraints(f: EstadoField): set<Constraint>
  {
    match f
    case Codigo => {NotBlank, SizeMax(50)}
    case CodigoSec => {SizeMax(50)}
    case DataMovimentacao => {SizeMax(50)}
    case AnoBase => {SizeMax(10)}
    case Nome => {SizeMax(255)}
    case Cnpj => {SizeMax(20)}
    case Bairro => {SizeMax(100)}
  }

  /** The declared limits, written out: a non-blank codigo of at most 50 chars,
      and each other attribute null or within its maximum length. */
  predicate WithinDeclaredLimits(d: EstadoFields)
  {
    && !IsBlank(d.codigo) && |d.codigo.value| <= 50
    && (d.codigoSec.None? || |d.codigoSec.value| <= 50)
    && (d.dataMovimentacao.None? || |d.dataMovimentacao.value| <= 50)
    && (d.anoBase.None? || |d.anoBase.value| <= 10)
    && (d.nome.None? || |d.nome.value| <= 255)
    && (d.cnpj.None? || |d.cnpj.value| <= 20)
    && (d.bairro.None? || |d.bairro.value| <= 100)
  }

  /** Within the declared limits, Default-group validation reports nothing. */
  lemma {:induction false} WithinLimitsValid(d: EstadoFields)
    requires WithinDeclaredLimits(d)
    ensures Validate(d, DtoConstraints, Default) == {}
  {
    forall f, c | c in DtoConstraints(f) ensures Holds(c, d.Get(f)) {
      match f
      case Codigo =>
      case CodigoSec =>
      case DataMovimentacao =>
      case AnoBase =>
      case Nome =>
      case Cnpj =>
      case Bairro =>
    }
    ValidateEmptyIff(d, DtoConstraints, Default);
  }

  /** When every declared constraint holds, the declared limits hold. */
  lemma {:induction false} DeclaredHoldWithinLimits(d: EstadoFields)
    requires forall f, c :: c in DtoConstraints(f) ==> Holds(c, d.Get(f))
    ensures WithinDeclaredLimits(d)
  {
    assert Holds(NotBlank, d.Get(Codigo)) && Holds(SizeMax(50), d.Get(Codigo));
    assert Holds(SizeMax(50), d.Get(CodigoSec)) && Holds(SizeMax(50), d.Get(DataMovimentacao));
    assert Holds(SizeMax(10), d.Get(AnoBase)) && Holds(SizeMax(255), d.Get(Nome));
    assert Holds(SizeMax(20), d.Get(Cnpj)) && Holds(SizeMax(100), d.Get(Bairro));
  }

  /** When Default-group validation reports nothing, the declared limits hold. */
  lemma {:induction false} ValidWithinLimits(d: EstadoFields)
    requires Validate(d, DtoConstraints, Default) == {}
    ensures WithinDeclaredLimits(d)
  {
    ValidateEmptyIff(d, DtoConstraints, Default);
    DeclaredHoldWithinLimits(d);
  }

  /** Default-group validation of the DTO passes exactly when the declared limits hold. */
  lemma DtoValidIff(d: EstadoFields)
    ensures Validate(d, DtoConstraints, Default) == {} <==> WithinDeclaredLimits(d)
  {
    if WithinDeclaredLimits(d) {
      WithinLimitsValid(d);
    } else {
      if Validate(d, DtoConstraints, Default) == {} {
        ValidWithinLimits(d);
      }
    }
  }

  /** The services validate with the Create and Update groups, which no
      annotation names: those validations never report anything. */
  lemma GroupValidationFindsNothing(d: EstadoFields, group: Group)
    requires group != Default
    ensures Validate(d, DtoConstraints, group) == {}
  {
    ValidateEmptyIff(d, DtoConstraints, group);
  }

  /** The entity declares the same constraints as the DTO. */
  lemma EntityDeclaresSameConstraints(f: EstadoField)
    ensures EntityConstraints(f) == DtoConstraints(f)
  {
  }

  /** Since the entity repeats the DTO's annotations, Default-group validation
      of an entity passes exactly when the declared limits hold. */
  lemma {:induction false} EntityValidIff(e: EstadoFields)
    ensures Validate(e, EntityConstraints, Default) == {} <==> WithinDeclaredLimits(e)
  {
    ValidateEmptyIff(e, EntityConstraints, Default);
    ValidateEmptyIff(e, DtoConstraints, Default);
    forall f ensures EntityConstraints(f) == DtoConstraints(f) {
      EntityDeclaresSameConstraints(f);
    }
    DtoValidIff(e);
  }

  /** `toEntity()` on the DTO's values: each attribute copied, null replaced by "". */
  function ToEntityFields(d: EstadoFields): (e: EstadoFields)
    ensures e.NoNulls()
    ensures forall f :: e.Get(f) == (if d.Get(f).Some? then d.Get(f) else Some(""))
  {
    EstadoFields(
      OrElse(d.codigo, Some("")), OrElse(d.codigoSec, Some("")), OrElse(d.dataMovimentacao, Some("")),
      OrElse(d.anoBase, Some("")), OrElse(d.nome, Some("")), OrElse(d.cnpj, Some("")), OrElse(d.bairro, Some("")))
  }

  /** DTO to entity and back (`fromEntity` copies all seven values) gives the
      same values exactly when the DTO has no null attribute; this also covers
      entity to DTO and back, which copies the same seven values. */
  lemma {:induction false} DtoEntityDto(d: EstadoFields)
    ensures ToEntityFields(d) == d <==> d.NoNulls()
  {
    if d.NoNulls() {
      FieldsExtensional(ToEntityFields(d), d);
    }
  }

  /** The DTO: one mutable field per attribute. */
  class ArquivoRecadastramentoEstadoDto {
    var codigo: Option<string>
    var codigoSec: Option<string>
    var dataMovimentacao: Option<string>
    var anoBase: Option<string>
    var nome: Option<string>
    var cnpj: Option<string>
    var bairro: Option<string>

    function Fields(): EstadoFields
      reads this
    {
      EstadoFields(codigo, codigoSec, dataMovimentacao, anoBase, nome, cnpj, bairro)
    }

    /** The no-argument constructor: every attribute starts as "". */
    constructor ()
      ensures Fields() == LegacyDefaults && Fields().NoNulls()
    {
      codigo, codigoSec, dataMovimentacao, anoBase := Some(""), Some(""), Some(""), Some("");
      nome, cnpj, bairro := Some(""), Some(""), Some("");
    }

    /** The all-arguments constructor: each argument is stored as given, null included. */
    constructor Of(codigo: Option<string>, codigoSec: Option<string>, dataMovimentacao: Option<string>,
                   anoBase: Option<string>, nome: Option<string>, cnpj: Option<string>, bairro: Option<string>)
      ensures Fields() == EstadoFields(codigo, codigoSec, dataMovimentacao, anoBase, nome, cnpj, bairro)
    {
      this.codigo, this.codigoSec, this.dataMovimentacao := codigo, codigoSec, dataMovimentacao;
      this.anoBase, this.nome, this.cnpj, this.bairro := anoBase, nome, cnpj, bairro;
    }

    /** The seven setters: `Set(f, v)` is `set<F>(v)`. */
    method Set(f: EstadoField, v: Option<string>)
      modifies this
      ensures Fields() == old(Fields()).With(f, v)
      ensures Fields().Get(f) == v
      ensures forall g :: g != f ==> Fields().Get(g) == old(Fields()).Get(g)
    {
      match f
      case Codigo => codigo := v;
      case CodigoSec => codigoSec := v;
      case DataMovimentacao => dataMovimentacao := v;
      case AnoBase => anoBase := v;
      case Nome => nome := v;
      case Cnpj => cnpj := v;
      case Bairro => bairro := v;
    }

    /** `toEntity()`: a new entity whose attributes are this DTO's, null read as "". */
    method ToEntity() returns (e: ArquivoRecadastramentoEstado)
      ensures fresh(e)
      ensures e.Fields() == ToEntityFields(Fields())
    {
      e := new ArquivoRecadastramentoEstado();
      e.Set(Codigo, OrElse(codigo, Some("")));
      e.Set(CodigoSec, OrElse(codigoSec, Some("")));
      e.Set(DataMovimentacao, OrElse(dataMovimentacao, Some("")));
      e.Set(AnoBase, OrElse(anoBase, Some("")));
      e.Set(Nome, OrElse(nome, Some("")));
      e.Set(Cnpj, OrElse(cnpj, Some("")));
      e.Set(Bairro, OrElse(bairro, Some("")));
      assert e.Fields() == EstadoFields(OrElse(codigo, Some("")), OrElse(codigoSec, Some("")),
        OrElse(dataMovimentacao, Some("")), OrElse(anoBase, Some("")), OrElse(nome, Some("")),
        OrElse(cnpj, Some("")), OrElse(bairro, Some("")));
    }

    /** `fromEntity(entity)`: null for null, otherwise a new DTO with the entity's seven values. */
    static method FromEntity(entity: ArquivoRecadastramentoEstado?) returns (d: ArquivoRecadastramentoEstadoDto?)
      ensures entity == null <==> d == null
      ensures d != null ==> fresh(d) && d.Fields() == entity.Fields()
    {
      if entity == null {
        return null;
      }
      d := new ArquivoRecadastramentoEstadoDto.Of(entity.codigo, entity.codigoSec, entity.dataMovimentacao,
        entity.anoBase, entity.nome, entity.cnpj, entity.bairro);
    }
  }
}
