/** The application service for files (ArquivoService): create with a
    store-assigned id, partial update, find and delete over a table keyed by
    the surrogate Integer id. */
module ArquivoServices {
  import opened JavaLang
  import opened ArquivoEntity
  import opened ArquivoDtos

  /** The table: each stored row under its id. */
  type Store = map<int32, ArquivoFields>

  /** What the service keeps true of its table: the identity column has handed
      out exactly the ids below `nextId`, and every row sits under its own id. */
  predicate StoreValid(store: Store, nextId: nat)
  {
    && nextId >= 1
    && forall k :: k in store ==> 1 <= k as int < nextId && store[k].codigoArquivo == Some(k)
  }

  const CreateValidationFailed: string := "ArquivoDto validation failed for create"
  const UpdateValidationFailed: string := "ArquivoDto validation failed for update"
  const IdMustBeNullOnCreate: string := "codigoarquivo must be null when creating a new Arquivo"
  const IdRequiredOnUpdate: string := "codigoarquivo must be provided when updating an Arquivo"

  function NotFound(id: int32): string
  {
    "Arquivo not found with id: " + Int32ToString(id)
  }

  /** Whether the identity column can still hand out `nextId`. */
  predicate IdentityAvailable(nextId: nat)
  {
    nextId <= Int32Max
  }

  // ---------------------------------------------------------------------------
  // The operations on the table, as values.

  /** `create(dto)`, given what the validator reported and the identity
      column's next value: reject violations and a client-supplied id;
      otherwise store `dto.toEntity()` under the next id, which becomes its id. */
  function CreateSpec(store: Store, nextId: nat, dto: ArquivoFields, violations: set<Violation>): (r: Result<Store>)
    ensures violations != {} ==> r == Err(ConstraintViolation(CreateValidationFailed, violations))
    ensures violations == {} && dto.codigoArquivo.Some? ==> r == Err(IllegalArgument(IdMustBeNullOnCreate))
    ensures violations == {} && dto.codigoArquivo.None? && !IdentityAvailable(nextId) ==> r == Err(IdentityExhausted)
    ensures r.Ok? <==> violations == {} && dto.codigoArquivo.None? && IdentityAvailable(nextId)
    ensures r.Ok? ==> (r.value.Keys == store.Keys + {nextId as int32}
      && r.value[nextId as int32] == dto.WithNumber(CodigoArquivo, Some(nextId as int32))
      && forall k :: k in store && k != nextId as int32 ==> r.value[k] == store[k])
  {
    if violations != {} then Err(ConstraintViolation(CreateValidationFailed, violations))
    else if dto.codigoArquivo.Some? then Err(IllegalArgument(IdMustBeNullOnCreate))
    else if !IdentityAvailable(nextId) then Err(IdentityExhausted)
    else Ok(store[nextId as int32 := dto.WithNumber(CodigoArquivo, Some(nextId as int32))])
  }

  /** The eight guarded setter calls of `update`: each attribute other than the
      id is replaced exactly when the DTO's value is not null. */
  function Merge(existing: ArquivoFields, dto: ArquivoFields): (r: ArquivoFields)
    ensures r.codigoArquivo == existing.codigoArquivo
    ensures forall n :: n != CodigoArquivo ==> r.Number(n) == (if dto.Number(n).Some? then dto.Number(n) else existing.Number(n))
    ensures forall t :: r.Text(t) == (if dto.Text(t).Some? then dto.Text(t) else existing.Text(t))
  {
    existing.(
      nomeArquivo := OrElse(dto.nomeArquivo, existing.nomeArquivo),
      quantidadeRegistro := OrElse(dto.quantidadeRegistro, existing.quantidadeRegistro),
      aptos := OrElse(dto.aptos, existing.aptos),
      semDocumento := OrElse(dto.semDocumento, existing.semDocumento),
      comCodigoSetps := OrElse(dto.comCodigoSetps, existing.comCodigoSetps),
      comErro := OrElse(dto.comErro, existing.comErro),
      anoVigencia := OrElse(dto.anoVigencia, existing.anoVigencia),
      codigoEscola := OrElse(dto.codigoEscola, existing.codigoEscola))
  }

  /** `update(dto)`, given what the validator reported: reject violations, a
      null id and an id not stored, in that order; otherwise merge the DTO into
      that row and into no other. */
  function UpdateSpec(store: Store, dto: ArquivoFields, violations: set<Violation>): (r: Result<Store>)
    ensures violations != {} ==> r == Err(ConstraintViolation(UpdateValidationFailed, violations))
    ensures violations == {} && dto.codigoArquivo.None? ==> r == Err(IllegalArgument(IdRequiredOnUpdate))
    ensures violations == {} && dto.codigoArquivo.Some? && dto.codigoArquivo.value !in store
      ==> r == Err(NoSuchElement(NotFound(dto.codigoArquivo.value)))
    ensures r.Ok? <==> violations == {} && dto.codigoArquivo.Some? && dto.codigoArquivo.value in store
    ensures r.Ok? ==> (r.value.Keys == store.Keys
      && r.value[dto.codigoArquivo.value] == Merge(store[dto.codigoArquivo.value], dto)
      && forall k :: k in store && k != dto.codigoArquivo.value ==> r.value[k] == store[k])
  {
    if violations != {} then Err(ConstraintViolation(UpdateValidationFailed, violations))
    else if dto.codigoArquivo.None? then Err(IllegalArgument(IdRequiredOnUpdate))
    else if dto.codigoArquivo.value !in store then Err(NoSuchElement(NotFound(dto.codigoArquivo.value)))
    else Ok(store[dto.codigoArquivo.value := Merge(store[dto.codigoArquivo.value], dto)])
  }

  /** `deleteById(id)`: not found, or the table without that id. */
  function DeleteSpec(store: Store, id: int32): (r: Result<Store>)
    ensures r.Ok? <==> id in store
    ensures r.Err? ==> r.error == NoSuchElement(NotFound(id))
    ensures r.Ok? ==> r.value.Keys == store.Keys - {id} && forall k :: k in r.value ==> r.value[k] == store[k]
  {
    if id !in store then Err(NoSuchElement(NotFound(id))) else Ok(store - {id})
  }

  /** `findById(id)`: not found, or the stored row. */
  function FindSpec(store: Store, id: int32): (r: Result<ArquivoFields>)
    ensures r.Ok? <==> id in store
    ensures r.Err? ==> r.error == NoSuchElement(NotFound(id))
    ensures r.Ok? ==> r.value == store[id]
  {
    if id in store then Ok(store[id]) else Err(NoSuchElement(NotFound(id)))
  }

  // ---------------------------------------------------------------------------
  // Laws of the operations.

  /** A successful create uses an id no row had, advances the identity column,
      and keeps the table valid. */
  lemma {:induction false} CreateUsesFreshId(store: Store, nextId: nat, dto: ArquivoFields, violations: set<Violation>)
    requires StoreValid(store, nextId) && CreateSpec(store, nextId, dto, violations).Ok?
    ensures nextId as int32 !in store
    ensures StoreValid(CreateSpec(store, nextId, dto, violations).value, nextId + 1)
  {
    var after := CreateSpec(store, nextId, dto, violations).value;
    forall k | k in after ensures 1 <= k as int < nextId + 1 && after[k].codigoArquivo == Some(k) {
      if k != nextId as int32 {
        assert k in store;
      }
    }
  }

  /** Update keeps every row under its own id. */
  lemma UpdatePreservesStoreValid(store: Store, nextId: nat, dto: ArquivoFields, violations: set<Violation>)
    requires StoreValid(store, nextId) && UpdateSpec(store, dto, violations).Ok?
    ensures StoreValid(UpdateSpec(store, dto, violations).value, nextId)
  {
  }

  /** Delete keeps every remaining row as it was. */
  lemma DeletePreservesStoreValid(store: Store, nextId: nat, id: int32)
    requires StoreValid(store, nextId) && DeleteSpec(store, id).Ok?
    ensures StoreValid(DeleteSpec(store, id).value, nextId)
  {
  }

  /** An update whose eight attributes other than the id are all null leaves the row as it was. */
  lemma {:induction false} NullDtoKeepsRow(existing: ArquivoFields, id: Option<int32>)
    ensures Merge(existing, EmptyDto.WithNumber(CodigoArquivo, id)) == existing
  {
    var m := Merge(existing, EmptyDto.WithNumber(CodigoArquivo, id));
    forall n ensures m.Number(n) == existing.Number(n) {
      if n != CodigoArquivo {
        assert EmptyDto.WithNumber(CodigoArquivo, id).Number(n) == EmptyDto.Number(n);
      }
    }
    forall t ensures m.Text(t) == existing.Text(t) {
      assert EmptyDto.WithNumber(CodigoArquivo, id).Text(t) == EmptyDto.Text(t);
    }
    FieldsExtensional(m, existing);
  }

  /** Merging the same DTO twice is merging it once. */
  lemma {:induction false} MergeIdempotent(existing: ArquivoFields, dto: ArquivoFields)
    ensures Merge(Merge(existing, dto), dto) == Merge(existing, dto)
  {
    var once := Merge(existing, dto);
    var twice := Merge(once, dto);
    forall n ensures twice.Number(n) == once.Number(n) {
    }
    forall t ensures twice.Text(t) == once.Text(t) {
    }
    FieldsExtensional(twice, once);
  }

  /** Applying the same update twice leaves the table as applying it once. */
  lemma {:induction false} UpdateIdempotent(store: Store, dto: ArquivoFields)
    requires UpdateSpec(store, dto, {}).Ok?
    ensures UpdateSpec(UpdateSpec(store, dto, {}).value, dto, {}) == UpdateSpec(store, dto, {})
  {
    var k := dto.codigoArquivo.value;
    var once := UpdateSpec(store, dto, {}).value;
    var twice := UpdateSpec(once, dto, {}).value;
    MergeIdempotent(store[k], dto);
    assert twice.Keys == once.Keys;
    assert twice[k] == Merge(once[k], dto) == once[k];
    assert forall j :: j in twice ==> twice[j] == once[j];
    assert twice == once;
  }

  /** An update carrying only a school code changes that attribute of that row and nothing else. */
  lemma {:induction false} SchoolCodeOnlyUpdate(store: Store, id: int32, codigoescola: string)
    requires id in store
    ensures var dto := EmptyDto.WithNumber(CodigoArquivo, Some(id)).WithText(CodigoEscola, Some(codigoescola));
      UpdateSpec(store, dto, {}) == Ok(store[id := store[id].WithText(CodigoEscola, Some(codigoescola))])
  {
    var dto := EmptyDto.WithNumber(CodigoArquivo, Some(id)).WithText(CodigoEscola, Some(codigoescola));
    var m := Merge(store[id], dto);
    var expected := store[id].WithText(CodigoEscola, Some(codigoescola));
    forall n ensures m.Number(n) == expected.Number(n) {
      if n != CodigoArquivo {
        assert dto.Number(n) == EmptyDto.Number(n);
      }
    }
    forall t ensures m.Text(t) == expected.Text(t) {
      if t != CodigoEscola {
        assert dto.Text(t) == EmptyDto.Text(t);
      }
    }
    FieldsExtensional(m, expected);
  }

  /** Two successive creates store their rows under two different ids. */
  lemma {:induction false} SuccessiveCreatesGetDistinctIds(store: Store, nextId: nat, first: ArquivoFields, second: ArquivoFields)
    requires StoreValid(store, nextId)
    requires CreateSpec(store, nextId, first, {}).Ok?
    requires CreateSpec(CreateSpec(store, nextId, first, {}).value, nextId + 1, second, {}).Ok?
    ensures var after := CreateSpec(CreateSpec(store, nextId, first, {}).value, nextId + 1, second, {}).value;
      && after.Keys == store.Keys + {nextId as int32, (nextId + 1) as int32}
      && nextId as int32 !in store && (nextId + 1) as int32 !in store
      && nextId as int32 != (nextId + 1) as int32
      && after[nextId as int32] == first.WithNumber(CodigoArquivo, Some(nextId as int32))
      && after[(nextId + 1) as int32] == second.WithNumber(CodigoArquivo, Some((nextId + 1) as int32))
  {
    CreateUsesFreshId(store, nextId, first, {});
  }

  /** After a successful create, finding the new id gives the stored DTO values with that id. */
  lemma CreateThenFind(store: Store, nextId: nat, dto: ArquivoFields)
    requires CreateSpec(store, nextId, dto, {}).Ok?
    ensures FindSpec(CreateSpec(store, nextId, dto, {}).value, nextId as int32)
      == Ok(dto.WithNumber(CodigoArquivo, Some(nextId as int32)))
  {
  }

  // ---------------------------------------------------------------------------
  // The service.

  class ArquivoService {
    /** The repository's table. */
    var store: Store
    /** The identity column's next value. */
    var nextId: nat
    /** The injected `Validator.validate(dto, group)`. */
    const validator: (ArquivoFields, Group) -> set<Violation>

    ghost predicate Valid()
      reads this
    {
      StoreValid(store, nextId)
    }

    /** The service over the repository's current table and identity counter,
        with the injected validator. */
    constructor (validator: (ArquivoFields, Group) -> set<Violation>, table: Store, counter: nat)
      requires StoreValid(table, counter)
      ensures store == table && nextId == counter && this.validator == validator
      ensures Valid()
    {
      store := table;
      nextId := counter;
      this.validator := validator;
    }

    /** `repository.findById(id).get()`: a new managed entity holding the stored row. */
    method Load(id: int32) returns (e: Arquivo)
      requires id in store
      ensures fresh(e)
      ensures e.Fields() == store[id]
    {
      var row := store[id];
      e := new Arquivo.WithIdAndName(row.codigoArquivo, row.nomeArquivo);
      e.SetBoxed(QuantidadeRegistro, row.quantidadeRegistro);
      e.SetBoxed(Aptos, row.aptos);
      e.SetBoxed(SemDocumento, row.semDocumento);
      e.SetBoxed(ComCodigoSetps, row.comCodigoSetps);
      e.SetBoxed(ComErro, row.comErro);
      e.SetText(AnoVigencia, row.anoVigencia);
      e.SetText(CodigoEscola, row.codigoEscola);
      assert e.Fields() == ArquivoFields(row.codigoArquivo, row.quantidadeRegistro, row.aptos, row.semDocumento,
        row.comCodigoSetps, row.comErro, row.nomeArquivo, row.anoVigencia, row.codigoEscola);
    }

    /** `repository.save(entity)` for an entity without an id: the identity
        column assigns the next id to the entity and stores it under that id;
        when no id is left, nothing changes. */
    method Persist(e: Arquivo) returns (ok: bool)
      requires e.codigoArquivo.None?
      modifies this, e
      ensures ok <==> IdentityAvailable(old(nextId))
      ensures !ok ==> store == old(store) && nextId == old(nextId) && e.Fields() == old(e.Fields())
      ensures ok ==> (e.Fields() == old(e.Fields()).WithNumber(CodigoArquivo, Some(old(nextId) as int32))
        && store == old(store)[old(nextId) as int32 := e.Fields()]
        && nextId == old(nextId) + 1)
    {
      if !IdentityAvailable(nextId) {
        return false;
      }
      e.SetBoxed(CodigoArquivo, Some(nextId as int32));
      store := store[nextId as int32 := e.Fields()];
      nextId := nextId + 1;
      return true;
    }

    /** `repository.save(entity)` for an entity with an id: its values become the row under that id. */
    method SaveExisting(e: Arquivo)
      requires e.codigoArquivo.Some?
      modifies this
      ensures store == old(store)[e.codigoArquivo.value := e.Fields()] && nextId == old(nextId)
    {
      store := store[e.codigoArquivo.value := e.Fields()];
    }

    /** `create(dto)`: the table becomes CreateSpec's and the identity column
        advances, or the call throws CreateSpec's error and nothing changes; on
        success the returned DTO holds the new row and its id. */
    method Create(dto: ArquivoDto) returns (r: Result<ArquivoDto>)
      requires Valid()
      modifies this
      ensures Valid()
      ensures var spec := CreateSpec(old(store), old(nextId), dto.Fields(), validator(dto.Fields(), OnCreate));
        && (r.Ok? <==> spec.Ok?)
        && (spec.Err? ==> r == Err(spec.error) && store == old(store) && nextId == old(nextId))
        && (spec.Ok? ==> (store == spec.value && nextId == old(nextId) + 1
              && fresh(r.value) && r.value.Fields() == store[old(nextId) as int32]))
    {
      var violations := validator(dto.Fields(), OnCreate);
      if violations != {} {
        return Err(ConstraintViolation(CreateValidationFailed, violations));
      }
      if dto.codigoarquivo != None {
        return Err(IllegalArgument(IdMustBeNullOnCreate));
      }
      var entity := dto.ToEntity();
      entity.SetBoxed(CodigoArquivo, None);
      var ok := Persist(entity);
      if !ok {
        return Err(IdentityExhausted);
      }
      CreateUsesFreshId(old(store), old(nextId), dto.Fields(), violations);
      var saved: ArquivoDto := ArquivoDto.FromEntity(entity);
      return Ok(saved);
    }

    /** The eight guarded setter calls of `update`, applied to the loaded entity. */
    static method ApplyUpdate(existing: Arquivo, dto: ArquivoDto)
      modifies existing
      ensures existing.Fields() == Merge(old(existing.Fields()), dto.Fields())
    {
      ApplyCounterUpdates(existing, dto);
      ApplyTextUpdates(existing, dto);
    }

    /** The guarded setter calls for the five counters. */
    static method ApplyCounterUpdates(existing: Arquivo, dto: ArquivoDto)
      modifies existing
      ensures existing.Fields() == old(existing.Fields()).(
        quantidadeRegistro := OrElse(dto.quantidaderegistro, old(existing.quantidadeRegistro)),
        aptos := OrElse(dto.aptos, old(existing.aptos)),
        semDocumento := OrElse(dto.semdocumento, old(existing.semDocumento)),
        comCodigoSetps := OrElse(dto.comcodigosetps, old(existing.comCodigoSetps)),
        comErro := OrElse(dto.comerro, old(existing.comErro)))
    {
      if dto.quantidaderegistro != None { existing.SetBoxed(QuantidadeRegistro, dto.quantidaderegistro); }
      if dto.aptos != None { existing.SetBoxed(Aptos, dto.aptos); }
      if dto.semdocumento != None { existing.SetBoxed(SemDocumento, dto.semdocumento); }
      if dto.comcodigosetps != None { existing.SetBoxed(ComCodigoSetps, dto.comcodigosetps); }
      if dto.comerro != None { existing.SetBoxed(ComErro, dto.comerro); }
    }

    /** The guarded setter calls for the three strings, the file name through its legacy setter. */
    static method ApplyTextUpdates(existing: Arquivo, dto: ArquivoDto)
      modifies existing
      ensures existing.Fields() == old(existing.Fields()).(
        nomeArquivo := OrElse(dto.nomearquivo, old(existing.nomeArquivo)),
        anoVigencia := OrElse(dto.anovigencia, old(existing.anoVigencia)),
        codigoEscola := OrElse(dto.codigoescola, old(existing.codigoEscola)))
    {
      if dto.nomearquivo != None { existing.SetNomearquivo(dto.nomearquivo); }
      if dto.anovigencia != None { existing.SetText(AnoVigencia, dto.anovigencia); }
      if dto.codigoescola != None { existing.SetText(CodigoEscola, dto.codigoescola); }
    }

    /** The successful path of `update`: load the row, apply the guarded setters, save it. */
    method MergeInto(id: int32, dto: ArquivoDto) returns (saved: ArquivoDto)
      requires id in store && store[id].codigoArquivo == Some(id)
      modifies this
      ensures store == old(store)[id := Merge(old(store)[id], dto.Fields())] && nextId == old(nextId)
      ensures fresh(saved) && saved.Fields() == store[id]
    {
      var existing := Load(id);
      ApplyUpdate(existing, dto);
      SaveExisting(existing);
      saved := ArquivoDto.FromEntity(existing);
    }

    /** `update(dto)`: the table becomes UpdateSpec's, or the call throws
        UpdateSpec's error and the table is unchanged; on success the returned
        DTO holds the merged row. */
    method Update(dto: ArquivoDto) returns (r: Result<ArquivoDto>)
      requires Valid()
      modifies this
      ensures Valid() && nextId == old(nextId)
      ensures var spec := UpdateSpec(old(store), dto.Fields(), validator(dto.Fields(), OnUpdate));
        && (r.Ok? <==> spec.Ok?)
        && (spec.Err? ==> r == Err(spec.error) && store == old(store))
        && (spec.Ok? ==> store == spec.value && fresh(r.value) && r.value.Fields() == store[dto.codigoarquivo.value])
    {
      var violations := validator(dto.Fields(), OnUpdate);
      if violations != {} {
        return Err(ConstraintViolation(UpdateValidationFailed, violations));
      }
      var id := dto.codigoarquivo;
      if id == None {
        return Err(IllegalArgument(IdRequiredOnUpdate));
      }
      if id.value !in store {
        return Err(NoSuchElement(NotFound(id.value)));
      }
      UpdatePreservesStoreValid(store, nextId, dto.Fields(), violations);
      var saved := MergeInto(id.value, dto);
      return Ok(saved);
    }

    /** `findById(id)`: the stored row as a new DTO, or not found. */
    method FindById(id: int32) returns (r: Result<ArquivoDto>)
      ensures r.Ok? <==> FindSpec(store, id).Ok?
      ensures r.Err? ==> r.error == FindSpec(store, id).error
      ensures r.Ok? ==> fresh(r.value) && r.value.Fields() == FindSpec(store, id).value
    {
      if id !in store {
        return Err(NoSuchElement(NotFound(id)));
      }
      var entity := Load(id);
      var found: ArquivoDto := ArquivoDto.FromEntity(entity);
      return Ok(found);
    }

    /** `deleteById(id)`: the table becomes DeleteSpec's, or not found and unchanged. */
    method DeleteById(id: int32) returns (r: Result<()>)
      requires Valid()
      modifies this
      ensures Valid() && nextId == old(nextId)
      ensures var spec := DeleteSpec(old(store), id);
        && (r.Ok? <==> spec.Ok?)
        && (spec.Err? ==> r == Err(spec.error) && store == old(store))
        && (spec.Ok? ==> store == spec.value)
    {
      if id !in store {
        return Err(NoSuchElement(NotFound(id)));
      }
      DeletePreservesStoreValid(store, nextId, id);
      store := store - {id};
      return Ok(());
    }

    /** `findAll()`, and `findByCodigoescola`, `findByAnovigencia` as exact
        matches on one text attribute: the stored rows, as a set. */
    function FindBy(t: Option<TextField>, v: Option<string>): (rows: set<ArquivoFields>)
      reads this
      ensures forall row :: row in rows <==> exists k :: k in store && store[k] == row && (t.Some? ==> row.Text(t.value) == v)
    {
      set k | k in store && (t.Some? ==> store[k].Text(t.value) == v) :: store[k]
    }
  }
}
