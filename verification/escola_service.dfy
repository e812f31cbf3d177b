/** The school lookup (EscolaService.getCodigoescolaById): a read-only lookup
    of a school's code by its Integer id. */
module EscolaServices {
  import opened JavaLang

  /** A school, as far as the lookup reads it: its legacy code, which may be null. */
  datatype Escola = Escola(codigoescola: Option<string>)

  /** The school table. */
  type Escolas = map<int32, Escola>

  const IdMustNotBeNull: string := "id must not be null"

  function EscolaNotFoundMessage(id: int32): string
  {
    "Escola not found for id: " + Int32ToString(id)
  }

  /** `getCodigoescolaById(id)`: a null id is an argument error before any
      lookup; an unknown id is EscolaNotFoundException; otherwise the school's
      code, unchanged and possibly null. The table is a value, so the lookup
      cannot change it. */
  function GetCodigoescolaById(escolas: Escolas, id: Option<int32>): (r: Result<Option<string>>)
    ensures id.None? ==> r == Err(IllegalArgument(IdMustNotBeNull))
    ensures id.Some? && id.value !in escolas ==> r == Err(EscolaNotFound(EscolaNotFoundMessage(id.value)))
    ensures r.Ok? <==> id.Some? && id.value in escolas
    ensures r.Ok? ==> r.value == escolas[id.value].codigoescola
  {
    if id.None? then Err(IllegalArgument(IdMustNotBeNull))
    else if id.value !in escolas then Err(EscolaNotFound(EscolaNotFoundMessage(id.value)))
    else Ok(escolas[id.value].codigoescola)
  }

  /** A school whose code is null is found, and the answer is null rather than an error. */
  lemma NullCodeIsReturned(escolas: Escolas, id: int32)
    requires id in escolas && escolas[id].codigoescola.None?
    ensures GetCodigoescolaById(escolas, Some(id)) == Ok(None)
  {
  }
}
