/** The File entity (Arquivo): a surrogate integer id, five numeric counters and
    three text attributes. Every numeric attribute has two views: the nullable
    (boxed) one and the legacy primitive one, which reads null as 0. */
module ArquivoEntity {
  import opened JavaLang

  /** The six Integer attributes, the id first. */
  datatype NumericField = CodigoArquivo | QuantidadeRegistro | Aptos | SemDocumento | ComCodigoSetps | ComErro

  /** The three String attributes. */
  datatype TextField = NomeArquivo | AnoVigencia | CodigoEscola

  /** The values of the nine attributes. The entity and its DTO carry exactly
      these, and a stored row is one of these. */
  datatype ArquivoFields = ArquivoFields(
    codigoArquivo: Option<int32>,
    quantidadeRegistro: Option<int32>,
    aptos: Option<int32>,
    semDocumento: Option<int32>,
    comCodigoSetps: Option<int32>,
    comErro: Option<int32>,
    nomeArquivo: Option<string>,
    anoVigencia: Option<string>,
    codigoEscola: Option<string>)
  {
    /** The boxed getter of numeric attribute `n`. */
    function Number(n: NumericField): Option<int32>
    {
      match n
      case CodigoArquivo => codigoArquivo
      case QuantidadeRegistro => quantidadeRegistro
      case Aptos => aptos
      case SemDocumento => semDocumento
      case ComCodigoSetps => comCodigoSetps
      case ComErro => comErro
    }

    /** The getter of text attribute `t`. */
    function Text(t: TextField): Option<string>
    {
      match t
      case NomeArquivo => nomeArquivo
      case AnoVigencia => anoVigencia
      case CodigoEscola => codigoEscola
    }

    /** The record after numeric attribute `n` was set to `v`. */
    function WithNumber(n: NumericField, v: Option<int32>): (r: ArquivoFields)
      ensures r.Number(n) == v
      ensures forall m :: m != n ==> r.Number(m) == Number(m)
      ensures forall t :: r.Text(t) == Text(t)
    {
      match n
      case CodigoArquivo => this.(codigoArquivo := v)
      case QuantidadeRegistro => this.(quantidadeRegistro := v)
      case Aptos => this.(aptos := v)
      case SemDocumento => this.(semDocumento := v)
      case ComCodigoSetps => this.(comCodigoSetps := v)
      case ComErro => this.(comErro := v)
    }

    /** The record after text attribute `t` was set to `v`. */
    function WithText(t: TextField, v: Option<string>): (r: ArquivoFields)
      ensures r.Text(t) == v
      ensures forall u :: u != t ==> r.Text(u) == Text(u)
      ensures forall n :: r.Number(n) == Number(n)
    {
      match t
      case NomeArquivo => this.(nomeArquivo := v)
      case AnoVigencia => this.(anoVigencia := v)
      case CodigoEscola => this.(codigoEscola := v)
    }
  }

  /** A new entity: every number and the file name null, the two legacy strings "". */
  const Defaults: ArquivoFields :=
    ArquivoFields(None, None, None, None, None, None, None, Some(""), Some(""))

  /** Two records with the same getters are the same record. */
  lemma {:induction false} FieldsExtensional(a: ArquivoFields, b: ArquivoFields)
    requires forall n :: a.Number(n) == b.Number(n)
    requires forall t :: a.Text(t) == b.Text(t)
    ensures a == b
  {
    assert a.Number(CodigoArquivo) == b.Number(CodigoArquivo) && a.Number(QuantidadeRegistro) == b.Number(QuantidadeRegistro);
    assert a.Number(Aptos) == b.Number(Aptos) && a.Number(SemDocumento) == b.Number(SemDocumento);
    assert a.Number(ComCodigoSetps) == b.Number(ComCodigoSetps) && a.Number(ComErro) == b.Number(ComErro);
    assert a.Text(NomeArquivo) == b.Text(NomeArquivo) && a.Text(AnoVigencia) == b.Text(AnoVigencia);
    assert a.Text(CodigoEscola) == b.Text(CodigoEscola);
  }

  // ---------------------------------------------------------------------------
  // The accessor names: legacy lower-case and camelCase spellings of one attribute.

  /** What a getter returns: the boxed view, the primitive view, or a text attribute. */
  datatype Getter = BoxedGetter(n: NumericField) | PrimitiveGetter(n: NumericField) | TextGetter(t: TextField)

  /** What a setter writes: a numeric or a text attribute. */
  datatype Setter = NumberSetter(n: NumericField) | TextSetter(t: TextField)

  /** The getters by their Java names. */
  function GetterNamed(name: string): Option<Getter>
  {
    match name
    case "getCodigoArquivo" => Some(BoxedGetter(CodigoArquivo))
    case "getCodigoarquivo" => Some(PrimitiveGetter(CodigoArquivo))
    case "getQuantidadeRegistro" => Some(BoxedGetter(QuantidadeRegistro))
    case "getQuantidaderegistro" => Some(PrimitiveGetter(QuantidadeRegistro))
    case "getAptosValue" => Some(BoxedGetter(Aptos))
    case "getAptos" => Some(PrimitiveGetter(Aptos))
    case "getSemDocumento" => Some(BoxedGetter(SemDocumento))
    case "getSemdocumento" => Some(PrimitiveGetter(SemDocumento))
    case "getComCodigoSetps" => Some(BoxedGetter(ComCodigoSetps))
    case "getComcodigosetps" => Some(PrimitiveGetter(ComCodigoSetps))
    case "getComErro" => Some(BoxedGetter(ComErro))
    case "getComerro" => Some(PrimitiveGetter(ComErro))
    case "getNomeArquivo" => Some(TextGetter(NomeArquivo))
    case "getNomearquivo" => Some(TextGetter(NomeArquivo))
    case "getAnoVigencia" => Some(TextGetter(AnoVigencia))
    case "getAnovigencia" => Some(TextGetter(AnoVigencia))
    case "getCodigoEscola" => Some(TextGetter(CodigoEscola))
    case "getCodigoescola" => Some(TextGetter(CodigoEscola))
    case _ => None
  }

  /** The setters by their Java names; the numeric ones take an int or an Integer. */
  function SetterNamed(name: string): Option<Setter>
  {
    match name
    case "setCodigoarquivo" => Some(NumberSetter(CodigoArquivo))
    case "setQuantidaderegistro" => Some(NumberSetter(QuantidadeRegistro))
    case "setAptos" => Some(NumberSetter(Aptos))
    case "setSemdocumento" => Some(NumberSetter(SemDocumento))
    case "setComcodigosetps" => Some(NumberSetter(ComCodigoSetps))
    case "setComerro" => Some(NumberSetter(ComErro))
    case "setNomeArquivo" => Some(TextSetter(NomeArquivo))
    case "setNomearquivo" => Some(TextSetter(NomeArquivo))
    case "setAnoVigencia" => Some(TextSetter(AnoVigencia))
    case "setAnovigencia" => Some(TextSetter(AnoVigencia))
    case "setCodigoEscola" => Some(TextSetter(CodigoEscola))
    case "setCodigoescola" => Some(TextSetter(CodigoEscola))
    case _ => None
  }

  /** The name of the boxed (Integer) getter of a numeric attribute. */
  function BoxedGetterName(n: NumericField): (name: string)
    ensures GetterNamed(name) == Some(BoxedGetter(n))
  {
    match n
    case CodigoArquivo => "getCodigoArquivo"
    case QuantidadeRegistro => "getQuantidadeRegistro"
    case Aptos => "getAptosValue"
    case SemDocumento => "getSemDocumento"
    case ComCodigoSetps => "getComCodigoSetps"
    case ComErro => "getComErro"
  }

  /** The name of the legacy primitive (int) getter of a numeric attribute. */
  function PrimitiveGetterName(n: NumericField): (name: string)
    ensures GetterNamed(name) == Some(PrimitiveGetter(n))
  {
    match n
    case CodigoArquivo => "getCodigoarquivo"
    case QuantidadeRegistro => "getQuantidaderegistro"
    case Aptos => "getAptos"
    case SemDocumento => "getSemdocumento"
    case ComCodigoSetps => "getComcodigosetps"
    case ComErro => "getComerro"
  }

  /** The name shared by the int and the Integer setter of a numeric attribute. */
  function NumberSetterName(n: NumericField): (name: string)
    ensures SetterNamed(name) == Some(NumberSetter(n))
  {
    match n
    case CodigoArquivo => "setCodigoarquivo"
    case QuantidadeRegistro => "setQuantidaderegistro"
    case Aptos => "setAptos"
    case SemDocumento => "setSemdocumento"
    case ComCodigoSetps => "setComcodigosetps"
    case ComErro => "setComerro"
  }

  /** The camelCase and the legacy lower-case getter names of a text attribute. */
  function TextGetterNames(t: TextField): (names: seq<string>)
    ensures |names| == 2 && names[0] != names[1]
    ensures forall g :: g in names ==> GetterNamed(g) == Some(TextGetter(t))
  {
    match t
    case NomeArquivo => ["getNomeArquivo", "getNomearquivo"]
    case AnoVigencia => ["getAnoVigencia", "getAnovigencia"]
    case CodigoEscola => ["getCodigoEscola", "getCodigoescola"]
  }

  /** The camelCase and the legacy lower-case setter names of a text attribute. */
  function TextSetterNames(t: TextField): (names: seq<string>)
    ensures |names| == 2 && names[0] != names[1]
    ensures forall s :: s in names ==> SetterNamed(s) == Some(TextSetter(t))
  {
    match t
    case NomeArquivo => ["setNomeArquivo", "setNomearquivo"]
    case AnoVigencia => ["setAnoVigencia", "setAnovigencia"]
    case CodigoEscola => ["setCodigoEscola", "setCodigoescola"]
  }

  /** What a getter returns, or a setter takes: an Integer, an int or a String. */
  datatype Value = IntegerValue(boxed: Option<int32>) | IntValue(primitive: int32) | StringValue(text: Option<string>)

  /** What getter `g` returns on a record. */
  function Read(g: Getter, r: ArquivoFields): Value
  {
    match g
    case BoxedGetter(n) => IntegerValue(r.Number(n))
    case PrimitiveGetter(n) => IntValue(Unbox(r.Number(n)))
    case TextGetter(t) => StringValue(r.Text(t))
  }

  /** The Java types a setter takes: an int or an Integer for a number, a String for text. */
  predicate Accepts(s: Setter, v: Value)
  {
    match s
    case NumberSetter(_) => !v.StringValue?
    case TextSetter(_) => v.StringValue?
  }

  /** The record after setter `s` was called with `v`; the int overload stores the boxed value. */
  function Write(s: Setter, r: ArquivoFields, v: Value): ArquivoFields
    requires Accepts(s, v)
  {
    match s
    case NumberSetter(n) => r.WithNumber(n, if v.IntValue? then Some(v.primitive) else v.boxed)
    case TextSetter(t) => r.WithText(t, v.text)
  }

  /** Whichever of its two names a text attribute is written under, both of its
      getter names read the value back, and no other attribute changes. */
  lemma TextNamesReadBackWhatEitherWrites(t: TextField, r: ArquivoFields, v: Option<string>, g: string, s: string)
    requires g in TextGetterNames(t) && s in TextSetterNames(t)
    ensures Write(SetterNamed(s).value, r, StringValue(v)) == r.WithText(t, v)
    ensures Read(GetterNamed(g).value, Write(SetterNamed(s).value, r, StringValue(v))) == StringValue(v)
  {
  }

  /** The numeric accessors: the primitive getter reads the boxed value with
      null as 0; the int and the Integer setter store the same thing; the
      boxed getter reads back what was set, null included. */
  lemma NumericNamesAgree(n: NumericField, r: ArquivoFields, k: int32, v: Option<int32>)
    ensures var boxed := Read(GetterNamed(BoxedGetterName(n)).value, r);
      Read(GetterNamed(PrimitiveGetterName(n)).value, r) == IntValue(Unbox(boxed.boxed))
    ensures var setter := SetterNamed(NumberSetterName(n)).value;
      Write(setter, r, IntValue(k)) == Write(setter, r, IntegerValue(Some(k)))
    ensures var setter := SetterNamed(NumberSetterName(n)).value;
      && Read(GetterNamed(BoxedGetterName(n)).value, Write(setter, r, IntegerValue(v))) == IntegerValue(v)
      && Read(GetterNamed(PrimitiveGetterName(n)).value, Write(setter, r, IntValue(k))) == IntValue(k)
  {
  }

  const RenderHead: string := "Arquivo{id="

  /** `toString()` over the id and the file name. */
  function Render(e: ArquivoFields): (s: string)
    ensures |s| > |RenderHead| + |IntegerText(e.codigoArquivo)|
    ensures s[..|RenderHead|] == RenderHead
    ensures s[|RenderHead|..|RenderHead| + |IntegerText(e.codigoArquivo)|] == IntegerText(e.codigoArquivo)
    ensures s[|RenderHead| + |IntegerText(e.codigoArquivo)|..] == NameEntry + StringText(e.nomeArquivo) + "'}"
  {
    var id := IntegerText(e.codigoArquivo);
    var rest := NameEntry + StringText(e.nomeArquivo) + "'}";
    assert (RenderHead + id + rest)[|RenderHead|..|RenderHead| + |id|] == id;
    assert (RenderHead + id + rest)[|RenderHead| + |id|..] == rest;
    RenderHead + id + rest
  }

  const NameEntry: string := ", nomeArquivo='"

  /** The text determines the id, and the name up to null being written "null". */
  lemma {:induction false} RenderDeterminesIdAndName(a: ArquivoFields, b: ArquivoFields)
    requires Render(a) == Render(b)
    ensures a.codigoArquivo == b.codigoArquivo
    ensures StringText(a.nomeArquivo) == StringText(b.nomeArquivo)
  {
    var s := Render(a);
    var h := |RenderHead|;
    var ia, ib := IntegerText(a.codigoArquivo), IntegerText(b.codigoArquivo);
    assert s[h + |ia|] == ',' by { assert s[h + |ia|..][0] == ','; }
    assert s[h + |ib|] == ',' by { assert s[h + |ib|..][0] == ','; }
    IntegerTextHasNoComma(a.codigoArquivo);
    IntegerTextHasNoComma(b.codigoArquivo);
    assert |ia| == |ib|;
    IntegerTextInjective(a.codigoArquivo, b.codigoArquivo);
    var rest := s[h + |ia|..];
    assert StringText(a.nomeArquivo) == rest[|NameEntry|..|rest| - 2];
    assert StringText(b.nomeArquivo) == rest[|NameEntry|..|rest| - 2];
  }

  /** The JPA entity. */
  class Arquivo {
    var codigoArquivo: Option<int32>
    var quantidadeRegistro: Option<int32>
    var aptos: Option<int32>
    var semDocumento: Option<int32>
    var comCodigoSetps: Option<int32>
    var comErro: Option<int32>
    var nomeArquivo: Option<string>
    var anoVigencia: Option<string>
    var codigoEscola: Option<string>

    function Fields(): ArquivoFields
      reads this
    {
      ArquivoFields(codigoArquivo, quantidadeRegistro, aptos, semDocumento, comCodigoSetps, comErro,
        nomeArquivo, anoVigencia, codigoEscola)
    }

    /** The JPA constructor. */
    constructor ()
      ensures Fields() == Defaults
    {
      codigoArquivo, quantidadeRegistro, aptos, semDocumento, comCodigoSetps, comErro := None, None, None, None, None, None;
      nomeArquivo, anoVigencia, codigoEscola := None, Some(""), Some("");
    }

    /** `Arquivo(id, nomeArquivo)`: the id and the name as given, the rest as a new entity. */
    constructor WithIdAndName(id: Option<int32>, name: Option<string>)
      ensures Fields() == Defaults.WithNumber(CodigoArquivo, id).WithText(NomeArquivo, name)
    {
      codigoArquivo, quantidadeRegistro, aptos, semDocumento, comCodigoSetps, comErro := id, None, None, None, None, None;
      nomeArquivo, anoVigencia, codigoEscola := name, Some(""), Some("");
    }

    /** The boxed getter of a numeric attribute (`getCodigoArquivo`, `getAptosValue`, ...). */
    function Boxed(n: NumericField): (v: Option<int32>)
      reads this
      ensures Read(GetterNamed(BoxedGetterName(n)).value, Fields()) == IntegerValue(v)
    {
      Fields().Number(n)
    }

    /** The legacy primitive getter (`getCodigoarquivo`, `getAptos`, ...): 0 while
        the attribute is unset, its value otherwise. */
    function Primitive(n: NumericField): (v: int32)
      reads this
      ensures Boxed(n).None? ==> v == 0
      ensures Boxed(n).Some? ==> v == Boxed(n).value
    {
      Unbox(Fields().Number(n))
    }

    /** The getter of a text attribute, under either of its names. */
    function Text(t: TextField): (v: Option<string>)
      reads this
      ensures forall g :: g in TextGetterNames(t) ==> Read(GetterNamed(g).value, Fields()) == StringValue(v)
    {
      Fields().Text(t)
    }

    /** The Integer setter of a numeric attribute; null clears it. */
    method SetBoxed(n: NumericField, v: Option<int32>)
      modifies this
      ensures Fields() == old(Fields()).WithNumber(n, v)
      ensures Boxed(n) == v && Primitive(n) == Unbox(v)
    {
      match n
      case CodigoArquivo => codigoArquivo := v;
      case QuantidadeRegistro => quantidadeRegistro := v;
      case Aptos => aptos := v;
      case SemDocumento => semDocumento := v;
      case ComCodigoSetps => comCodigoSetps := v;
      case ComErro => comErro := v;
    }

    /** The int setter of a numeric attribute: it writes the same backing Integer. */
    method SetPrimitive(n: NumericField, v: int32)
      modifies this
      ensures Fields() == old(Fields()).WithNumber(n, Some(v))
      ensures Boxed(n) == Some(v) && Primitive(n) == v
    {
      SetBoxed(n, Some(v));
    }

    /** The setter of a text attribute, under either of its names. */
    method SetText(t: TextField, v: Option<string>)
      modifies this
      ensures Fields() == old(Fields()).WithText(t, v)
      ensures Text(t) == v
    {
      match t
      case NomeArquivo => nomeArquivo := v;
      case AnoVigencia => anoVigencia := v;
      case CodigoEscola => codigoEscola := v;
    }

    /** `setNomeArquivo(name)`. */
    method SetNomeArquivo(name: Option<string>)
      modifies this
      ensures Fields() == old(Fields()).WithText(NomeArquivo, name)
    {
      nomeArquivo := name;
    }

    /** The deprecated `setNomearquivo(name)`, which delegates to `setNomeArquivo`. */
    method SetNomearquivo(name: Option<string>)
      modifies this
      ensures Fields() == old(Fields()).WithText(NomeArquivo, name)
    {
      SetNomeArquivo(name);
    }

    /** `equals(o)`: the same object, or a non-null Arquivo whose id and file
        name are both equal to this one's (null equal to null). */
    function Equals(o: Arquivo?): (b: bool)
      reads this, o
      ensures b <==> o != null && o.codigoArquivo == codigoArquivo && o.nomeArquivo == nomeArquivo
    {
      if this == o then true
      else if o == null then false
      else if (if codigoArquivo.Some? then !(o.codigoArquivo.Some? && codigoArquivo.value == o.codigoArquivo.value) else o.codigoArquivo.Some?) then false
      else if nomeArquivo.Some? then o.nomeArquivo.Some? && nomeArquivo.value == o.nomeArquivo.value
      else o.nomeArquivo.None?
    }

    /** `hashCode()`: 31 times the id's hash plus the name's hash, in 32-bit
        arithmetic, with 0 for null. An Integer's hash is its value; the
        String hash is a parameter. */
    function HashCode(stringHash: string -> int32): (h: int32)
      reads this
      ensures codigoArquivo.None? && nomeArquivo.None? ==> h == 0
      ensures codigoArquivo.None? && nomeArquivo.Some? ==> h == stringHash(nomeArquivo.value)
      ensures nomeArquivo.None? ==> (h as int - 31 * Unbox(codigoArquivo) as int) % 0x1_0000_0000 == 0
      ensures nomeArquivo.Some? ==>
        (h as int - 31 * Unbox(codigoArquivo) as int - stringHash(nomeArquivo.value) as int) % 0x1_0000_0000 == 0
    {
      var result: int := if codigoArquivo.Some? then codigoArquivo.value as int else 0;
      Wrap32(31 * result + (if nomeArquivo.Some? then stringHash(nomeArquivo.value) as int else 0))
    }

    /** `toString()`: the id's text, then the file name quoted. */
    function ToString(): (s: string)
      reads this
      ensures |s| > |RenderHead| + |IntegerText(codigoArquivo)|
      ensures s[..|RenderHead|] == RenderHead
      ensures s[|RenderHead|..|RenderHead| + |IntegerText(codigoArquivo)|] == IntegerText(codigoArquivo)
      ensures s[|RenderHead| + |IntegerText(codigoArquivo)|..] == NameEntry + StringText(nomeArquivo) + "'}"
    {
      Render(Fields())
    }
  }

  /** `equals` is reflexive. */
  lemma EqualsReflexive(a: Arquivo)
    ensures a.Equals(a)
  {
  }

  /** `equals` is symmetric. */
  lemma EqualsSymmetric(a: Arquivo, b: Arquivo)
    ensures a.Equals(b) <==> b.Equals(a)
  {
  }

  /** Equal entities have equal hash codes, whatever the component hashes are. */
  lemma EqualsImpliesEqualHashCode(a: Arquivo, b: Arquivo, stringHash: string -> int32)
    requires a.Equals(b)
    ensures a.HashCode(stringHash) == b.HashCode(stringHash)
  {
  }

  /** Read through the getters named for them, a new entity shows 0 in every
      primitive view, null in every boxed view and in the name, and "" in the
      two legacy strings. */
  lemma NewEntityViews(n: NumericField, g: string)
    ensures Read(GetterNamed(PrimitiveGetterName(n)).value, Defaults) == IntValue(0)
    ensures Read(GetterNamed(BoxedGetterName(n)).value, Defaults) == IntegerValue(None)
    ensures g in TextGetterNames(NomeArquivo) ==> Read(GetterNamed(g).value, Defaults) == StringValue(None)
    ensures g in TextGetterNames(AnoVigencia) + TextGetterNames(CodigoEscola)
      ==> Read(GetterNamed(g).value, Defaults) == StringValue(Some(""))
  {
  }
}
