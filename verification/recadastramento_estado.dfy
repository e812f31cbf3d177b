/** The state re-registration record (ArquivoRecadastramentoEstado): seven text
    columns keyed by the natural key `codigo`, all defaulting to the legacy empty
    string. */
module RecadastramentoEstadoEntity {
  import opened JavaLang

  /** The seven attributes, in declaration order. */
  datatype EstadoField = Codigo | CodigoSec | DataMovimentacao | AnoBase | Nome | Cnpj | Bairro

  /** The values of the seven attributes. Both the entity and its DTO carry
      exactly these, and a stored row is one of these. */
  datatype EstadoFields = EstadoFields(
    codigo: Option<string>,
    codigoSec: Option<string>,
    dataMovimentacao: Option<string>,
    anoBase: Option<string>,
    nome: Option<string>,
    cnpj: Option<string>,
    bairro: Option<string>)
  {
    /** The getter of field `f`. */
    function Get(f: EstadoField): Option<string>
    {
      match f
      case Codigo => codigo
      case CodigoSec => codigoSec
      case DataMovimentacao => dataMovimentacao
      case AnoBase => anoBase
      case Nome => nome
      case Cnpj => cnpj
      case Bairro => bairro
    }

    /** The record after the setter of field `f` stored `v`. */
    function With(f: EstadoField, v: Option<string>): (r: EstadoFields)
      ensures r.Get(f) == v
      ensures forall g :: g != f ==> r.Get(g) == Get(g)
    {
      match f
      case Codigo => this.(codigo := v)
      case CodigoSec => this.(codigoSec := v)
      case DataMovimentacao => this.(dataMovimentacao := v)
      case AnoBase => this.(anoBase := v)
      case Nome => this.(nome := v)
      case Cnpj => this.(cnpj := v)
      case Bairro => this.(bairro := v)
    }

    predicate NoNulls()
    {
      forall f :: Get(f).Some?
    }
  }

  /** Every attribute holds the legacy empty string. */
  const LegacyDefaults: EstadoFields :=
    EstadoFields(Some(""), Some(""), Some(""), Some(""), Some(""), Some(""), Some(""))

  /** Two records with the same getters are the same record. */
  lemma {:induction false} FieldsExtensional(a: EstadoFields, b: EstadoFields)
    requires forall f :: a.Get(f) == b.Get(f)
    ensures a == b
  {
    assert a.Get(Codigo) == b.Get(Codigo) && a.Get(CodigoSec) == b.Get(CodigoSec);
    assert a.Get(DataMovimentacao) == b.Get(DataMovimentacao) && a.Get(AnoBase) == b.Get(AnoBase);
    assert a.Get(Nome) == b.Get(Nome) && a.Get(Cnpj) == b.Get(Cnpj) && a.Get(Bairro) == b.Get(Bairro);
  }

  /** The Java property name of each attribute, as validation reports it. */
  function PropertyName(f: EstadoField): string
  {
    match f
    case Codigo => "codigo"
    case CodigoSec => "codigoSec"
    case DataMovimentacao => "dataMovimentacao"
    case AnoBase => "anoBase"
    case Nome => "nome"
    case Cnpj => "cnpj"
    case Bairro => "bairro"
  }

  const AllFields: set<EstadoField> := {Codigo, CodigoSec, DataMovimentacao, AnoBase, Nome, Cnpj, Bairro}

  /** Different attributes have different property names. */
  lemma PropertyNameInjective(f: EstadoField, g: EstadoField)
    ensures PropertyName(f) == PropertyName(g) ==> f == g
  {
  }

  /** What `validate(record, group)` reports for a record whose constraints, all
      declared without groups, are given per attribute by `declared`: nothing
      unless the group is Default, and then one violation per declared
      constraint that the value of its attribute breaks. */
  function Validate(e: EstadoFields, declared: EstadoField -> set<Constraint>, group: Group): (r: set<Violation>)
    ensures group != Default ==> r == {}
    ensures forall x :: x in r ==>
      exists f :: (f in AllFields && x == Violation(PropertyName(f), x.constraint)
        && x.constraint in declared(f) && !Holds(x.constraint, e.Get(f)))
  {
    if group != Default then {}
    else set f, c | f in AllFields && c in declared(f) && !Holds(c, e.Get(f)) :: Violation(PropertyName(f), c)
  }

  /** Validation reports a violation exactly for each declared constraint that
      the value of its attribute breaks, and only under the Default group. */
  lemma {:induction false} ValidateReports(e: EstadoFields, declared: EstadoField -> set<Constraint>, group: Group, f: EstadoField, c: Constraint)
    ensures Violation(PropertyName(f), c) in Validate(e, declared, group)
      <==> group == Default && c in declared(f) && !Holds(c, e.Get(f))
  {
    assert f in AllFields;
    if Violation(PropertyName(f), c) in Validate(e, declared, group) {
      var g, d :| g in AllFields && d in declared(g) && !Holds(d, e.Get(g))
        && Violation(PropertyName(g), d) == Violation(PropertyName(f), c);
      PropertyNameInjective(f, g);
    }
  }

  /** Validation finds nothing exactly when the group is not Default or every
      declared constraint holds. */
  lemma {:induction false} ValidateEmptyIff(e: EstadoFields, declared: EstadoField -> set<Constraint>, group: Group)
    ensures Validate(e, declared, group) == {}
      <==> group != Default || forall f, c :: c in declared(f) ==> Holds(c, e.Get(f))
  {
    if group == Default && !(forall f, c :: c in declared(f) ==> Holds(c, e.Get(f))) {
      var f, c :| c in declared(f) && !Holds(c, e.Get(f));
      ValidateReports(e, declared, group, f, c);
    }
  }

  /** The annotations on the entity's fields. */
  function EntityConstraints(f: EstadoField): set<Constraint>
  {
    match f
    case Codigo => {NotBlank, SizeMax(50)}
    case CodigoSec => {SizeMax(50)}
    case DataMovimentacao => {SizeMax(50)}
    case AnoBase => {SizeMax(10)}
    case Nome => {SizeMax(255)}
    case Cnpj => {SizeMax(20)}
    case Bairro => {SizeMax(100)}
  }

  /** A freshly constructed entity breaks exactly one constraint: its empty codigo is blank. */
  lemma {:induction false} FreshEntityOnlyViolatesNotBlank()
    ensures Validate(LegacyDefaults, EntityConstraints, Default) == {Violation("codigo", NotBlank)}
  {
    var v := Validate(LegacyDefaults, EntityConstraints, Default);
    assert Trim("") == [];
    ValidateReports(LegacyDefaults, EntityConstraints, Default, Codigo, NotBlank);
    forall x | x in v ensures x == Violation("codigo", NotBlank) {
      var f, c :| f in AllFields && c in EntityConstraints(f) && !Holds(c, LegacyDefaults.Get(f))
        && x == Violation(PropertyName(f), c);
      assert c == NotBlank;
      assert f == Codigo;
    }
  }

  /** One `name='value'` entry of `toString()`, with null rendered as `null`. */
  function Entry(name: string, v: Option<string>): string
  {
    name + "='" + StringText(v) + "'"
  }

  /** The attributes in declaration order. */
  const DeclarationOrder: seq<EstadoField> := [Codigo, CodigoSec, DataMovimentacao, AnoBase, Nome, Cnpj, Bairro]

  /** The declaration order lists every attribute exactly once. */
  lemma DeclarationOrderListsEachOnce()
    ensures |DeclarationOrder| == 7
    ensures forall f :: f in DeclarationOrder
    ensures forall i, j :: 0 <= i < j < |DeclarationOrder| ==> DeclarationOrder[i] != DeclarationOrder[j]
  {
    forall f ensures f in DeclarationOrder {
      match f
      case Codigo => assert DeclarationOrder[0] == f;
      case CodigoSec => assert DeclarationOrder[1] == f;
      case DataMovimentacao => assert DeclarationOrder[2] == f;
      case AnoBase => assert DeclarationOrder[3] == f;
      case Nome => assert DeclarationOrder[4] == f;
      case Cnpj => assert DeclarationOrder[5] == f;
      case Bairro => assert DeclarationOrder[6] == f;
    }
  }

  /** The entries of the attributes `fs`, separated by ", ". */
  function Entries(e: EstadoFields, fs: seq<EstadoField>): string
    decreases |fs|
  {
    if fs == [] then ""
    else if |fs| == 1 then Entry(PropertyName(fs[0]), e.Get(fs[0]))
    else Entry(PropertyName(fs[0]), e.Get(fs[0])) + ", " + Entries(e, fs[1..])
  }

  const RenderHead: string := "ArquivoRecadastramentoEstado{"

  /** `toString()`: the class name, then every attribute in declaration order
      as a quoted entry under its property name, separated by ", ", then a
      closing brace. */
  function Render(e: EstadoFields): (s: string)
    ensures s == RenderHead + Entries(e, DeclarationOrder) + "}"
  {
    var tail6 := Entry("bairro", e.bairro);
    var tail5 := Entry("cnpj", e.cnpj) + ", " + tail6;
    var tail4 := Entry("nome", e.nome) + ", " + tail5;
    var tail3 := Entry("anoBase", e.anoBase) + ", " + tail4;
    var tail2 := Entry("dataMovimentacao", e.dataMovimentacao) + ", " + tail3;
    var tail1 := Entry("codigoSec", e.codigoSec) + ", " + tail2;
    var all := Entry("codigo", e.codigo) + ", " + tail1;
    assert Entries(e, DeclarationOrder[6..]) == tail6;
    assert Entries(e, DeclarationOrder[5..]) == tail5;
    assert Entries(e, DeclarationOrder[4..]) == tail4;
    assert Entries(e, DeclarationOrder[3..]) == tail3;
    assert Entries(e, DeclarationOrder[2..]) == tail2;
    assert Entries(e, DeclarationOrder[1..]) == tail1;
    assert Entries(e, DeclarationOrder) == all;
    RenderHead + all + "}"
  }

  /** The JPA entity: one mutable field per attribute. */
  class ArquivoRecadastramentoEstado {
    var codigo: Option<string>
    var codigoSec: Option<string>
    var dataMovimentacao: Option<string>
    var anoBase: Option<string>
    var nome: Option<string>
    var cnpj: Option<string>
    var bairro: Option<string>

    function Fields(): EstadoFields
      reads this
    {
      EstadoFields(codigo, codigoSec, dataMovimentacao, anoBase, nome, cnpj, bairro)
    }

    /** The JPA constructor: every attribute starts as the legacy empty string. */
    constructor ()
      ensures Fields() == LegacyDefaults && Fields().NoNulls()
    {
      codigo, codigoSec, dataMovimentacao, anoBase := Some(""), Some(""), Some(""), Some("");
      nome, cnpj, bairro := Some(""), Some(""), Some("");
    }

    /** The seven setters: `Set(f, v)` is `set<F>(v)`. */
    method Set(f: EstadoField, v: Option<string>)
      modifies this
      ensures Fields() == old(Fields()).With(f, v)
      ensures Fields().Get(f) == v
      ensures forall g :: g != f ==> Fields().Get(g) == old(Fields()).Get(g)
    {
      match f
      case Codigo => codigo := v;
      case CodigoSec => codigoSec := v;
      case DataMovimentacao => dataMovimentacao := v;
      case AnoBase => anoBase := v;
      case Nome => nome := v;
      case Cnpj => cnpj := v;
      case Bairro => bairro := v;
    }

    /** `toString()` over the current attribute values. */
    function ToString(): (s: string)
      reads this
      ensures s == RenderHead + Entries(Fields(), DeclarationOrder) + "}"
    {
      Render(Fields())
    }
  }
}
