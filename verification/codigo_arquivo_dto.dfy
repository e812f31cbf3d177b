/** The API payload that carries only a file's id (CodigoArquivoDto). */
module CodigoArquivoDtos {
  import opened JavaLang
  import opened ArquivoEntity

  /** An immutable holder of one Integer; the constructor takes null as well. */
  datatype CodigoArquivoDto = CodigoArquivoDto(codigoarquivo: Option<int32>)

  /** `fromEntity(arquivo)`: null for null; otherwise the id read through the
      legacy primitive getter, so an entity without an id yields 0, never null. */
  function FromEntity(arquivo: Arquivo?): (r: Option<CodigoArquivoDto>)
    reads arquivo
    ensures arquivo == null <==> r.None?
    ensures r.Some? ==> r.value.codigoarquivo.Some?
    ensures r.Some? && arquivo.codigoArquivo.Some? ==> r.value.codigoarquivo == arquivo.codigoArquivo
    ensures r.Some? && arquivo.codigoArquivo.None? ==> r.value.codigoarquivo == Some(0)
  {
    if arquivo == null then None else Some(CodigoArquivoDto(Some(arquivo.Primitive(CodigoArquivo))))
  }

  /** An entity without an id and one whose id is 0 give the same DTO. */
  lemma UnsetIdLooksLikeZero(a: Arquivo, b: Arquivo)
    requires a.codigoArquivo.None? && b.codigoArquivo == Some(0)
    ensures FromEntity(a) == FromEntity(b)
  {
  }

  const RenderHead: string := "CodigoArquivoDto{codigoarquivo="

  /** `toString()`: the id in decimal, or `null`, between the class name and a brace. */
  function ToString(d: CodigoArquivoDto): (s: string)
    ensures |s| > |RenderHead| + 1 && s[..|RenderHead|] == RenderHead && s[|s| - 1] == '}'
    ensures d.codigoarquivo.None? ==> s == RenderHead + "null}"
    ensures d.codigoarquivo.Some? ==> Denotes(s[|RenderHead|..|s| - 1], d.codigoarquivo.value as int)
  {
    var text := IntegerText(d.codigoarquivo);
    assert (RenderHead + text + "}")[|RenderHead|..|RenderHead| + |text|] == text;
    RenderHead + text + "}"
  }

  /** Different DTOs, the null id included, print differently. */
  lemma ToStringInjective(a: CodigoArquivoDto, b: CodigoArquivoDto)
    requires ToString(a) == ToString(b)
    ensures a == b
  {
    var s := ToString(a);
    assert s[|RenderHead|..|s| - 1] == IntegerText(a.codigoarquivo);
    assert s[|RenderHead|..|s| - 1] == IntegerText(b.codigoarquivo);
    IntegerTextInjective(a.codigoarquivo, b.codigoarquivo);
  }
}
