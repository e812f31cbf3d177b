/** The application service for state re-registration records
    (ArquivoRecadastramentoEstadoService): create, update, find and delete over
    a store keyed by the natural key `codigo`. */
module RecadastramentoEstadoServices {
  import opened JavaLang
  import opened RecadastramentoEstadoEntity
  import opened RecadastramentoEstadoDtos

  /** The table: each stored row under its primary key `codigo`. */
  type Store = map<string, EstadoFields>

  /** What holds of any table the repository reads: every row sits under its
      own codigo, the primary key column. */
  predicate StoreValid(store: Store)
  {
    forall k :: k in store ==> store[k].codigo == Some(k)
  }

  /** What the service's own writes add: a non-blank key, no null attribute,
      and a row that passes the entity's validation. A table filled by other
      means need not have it. */
  predicate RowsClean(store: Store)
  {
    forall k :: k in store ==> !IsBlank(Some(k)) && store[k].NoNulls() && SaveViolations(store[k]) == {}
  }

  /** The validation `repository.save` runs on the entity before writing it:
      Jakarta Persistence validates entities in the Default group on persist
      and on update when a Bean Validation provider is present, as the
      injected `Validator` shows it is. */
  function SaveViolations(row: EstadoFields): set<Violation>
  {
    Validate(row, EntityConstraints, Default)
  }

  const CreateValidationFailed: string := "ArquivoRecadastramentoEstadoDto validation failed for create"
  const UpdateValidationFailed: string := "ArquivoRecadastramentoEstadoDto validation failed for update"
  const CodigoRequiredForCreate: string := "codigo must be provided when creating ArquivoRecadastramentoEstado"
  const CodigoRequiredForUpdate: string := "codigo must be provided when updating ArquivoRecadastramentoEstado"
  /** Stands for the persistence provider's message for a failed save-time validation. */
  const SaveValidationFailed: string := "Validation failed for classes [ArquivoRecadastramentoEstado]"

  function AlreadyExists(codigo: string): string
  {
    "ArquivoRecadastramentoEstado already exists with codigo: " + codigo
  }

  function NotFound(codigo: string): string
  {
    "ArquivoRecadastramentoEstado not found with codigo: " + codigo
  }

  // ---------------------------------------------------------------------------
  // The operations on the table, as values.

  /** `create(dto)`, given what the validator reported: reject violations, a
      blank codigo and a codigo already stored, in that order; then save
      `dto.toEntity()` under its codigo, which fails, writing nothing, when the
      entity breaks one of its own constraints. */
  function CreateSpec(store: Store, dto: EstadoFields, violations: set<Violation>): (r: Result<Store>)
    ensures violations != {} ==> r == Err(ConstraintViolation(CreateValidationFailed, violations))
    ensures violations == {} && IsBlank(dto.codigo) ==> r == Err(IllegalArgument(CodigoRequiredForCreate))
    ensures violations == {} && !IsBlank(dto.codigo) && dto.codigo.value in store
      ==> r == Err(IllegalArgument(AlreadyExists(dto.codigo.value)))
    ensures violations == {} && !IsBlank(dto.codigo) && dto.codigo.value !in store
      && SaveViolations(ToEntityFields(dto)) != {}
      ==> r == Err(ConstraintViolation(SaveValidationFailed, SaveViolations(ToEntityFields(dto))))
    ensures r.Ok? <==> (violations == {} && !IsBlank(dto.codigo) && dto.codigo.value !in store
      && SaveViolations(ToEntityFields(dto)) == {})
    ensures r.Ok? ==> (r.value.Keys == store.Keys + {dto.codigo.value}
      && r.value[dto.codigo.value] == ToEntityFields(dto)
      && forall k :: k in store ==> r.value[k] == store[k])
  {
    if violations != {} then Err(ConstraintViolation(CreateValidationFailed, violations))
    else if IsBlank(dto.codigo) then Err(IllegalArgument(CodigoRequiredForCreate))
    else if dto.codigo.value in store then Err(IllegalArgument(AlreadyExists(dto.codigo.value)))
    else
      var row := ToEntityFields(dto);
      if SaveViolations(row) != {} then Err(ConstraintViolation(SaveValidationFailed, SaveViolations(row)))
      else Ok(store[dto.codigo.value := row])
  }

  /** The six guarded setter calls of `update`: every non-null DTO attribute
      other than codigo overwrites the stored one, "" included. */
  function Merge(existing: EstadoFields, dto: EstadoFields): (r: EstadoFields)
    ensures r.codigo == existing.codigo
    ensures forall f :: f != Codigo ==> r.Get(f) == (if dto.Get(f).Some? then dto.Get(f) else existing.Get(f))
  {
    existing.(
      codigoSec := OrElse(dto.codigoSec, existing.codigoSec),
      dataMovimentacao := OrElse(dto.dataMovimentacao, existing.dataMovimentacao),
      anoBase := OrElse(dto.anoBase, existing.anoBase),
      nome := OrElse(dto.nome, existing.nome),
      cnpj := OrElse(dto.cnpj, existing.cnpj),
      bairro := OrElse(dto.bairro, existing.bairro))
  }

  /** `update(dto)`, given what the validator reported: reject violations, a
      blank codigo and a codigo not stored, in that order; then merge the DTO
      into that row and into no other. The loaded entity is managed, so it is
      validated, and written, only when the merge changed it: the update then
      fails, writing nothing, when the changed entity breaks one of its own
      constraints. A merge that changes nothing always succeeds. */
  function UpdateSpec(store: Store, dto: EstadoFields, violations: set<Violation>): (r: Result<Store>)
    ensures violations != {} ==> r == Err(ConstraintViolation(UpdateValidationFailed, violations))
    ensures violations == {} && IsBlank(dto.codigo) ==> r == Err(IllegalArgument(CodigoRequiredForUpdate))
    ensures violations == {} && !IsBlank(dto.codigo) && dto.codigo.value !in store
      ==> r == Err(NoSuchElement(NotFound(dto.codigo.value)))
    ensures violations == {} && !IsBlank(dto.codigo) && dto.codigo.value in store
      && Merge(store[dto.codigo.value], dto) != store[dto.codigo.value]
      && SaveViolations(Merge(store[dto.codigo.value], dto)) != {}
      ==> r == Err(ConstraintViolation(SaveValidationFailed, SaveViolations(Merge(store[dto.codigo.value], dto))))
    ensures r.Ok? <==> (violations == {} && !IsBlank(dto.codigo) && dto.codigo.value in store
      && (Merge(store[dto.codigo.value], dto) == store[dto.codigo.value]
        || SaveViolations(Merge(store[dto.codigo.value], dto)) == {}))
    ensures r.Ok? ==> (r.value.Keys == store.Keys
      && r.value[dto.codigo.value] == Merge(store[dto.codigo.value], dto)
      && forall k :: k in store && k != dto.codigo.value ==> r.value[k] == store[k])
  {
    if violations != {} then Err(ConstraintViolation(UpdateValidationFailed, violations))
    else if IsBlank(dto.codigo) then Err(IllegalArgument(CodigoRequiredForUpdate))
    else if dto.codigo.value !in store then Err(NoSuchElement(NotFound(dto.codigo.value)))
    else
      var merged := Merge(store[dto.codigo.value], dto);
      if merged != store[dto.codigo.value] && SaveViolations(merged) != {} then Err(ConstraintViolation(SaveValidationFailed, SaveViolations(merged)))
      else Ok(store[dto.codigo.value := merged])
  }

  /** `deleteById(codigo)`: not found, or the table without that key. */
  function DeleteSpec(store: Store, codigo: string): (r: Result<Store>)
    ensures r.Ok? <==> codigo in store
    ensures r.Err? ==> r.error == NoSuchElement(NotFound(codigo))
    ensures r.Ok? ==> r.value.Keys == store.Keys - {codigo} && forall k :: k in r.value ==> r.value[k] == store[k]
  {
    if codigo !in store then Err(NoSuchElement(NotFound(codigo))) else Ok(store - {codigo})
  }

  /** `findById(codigo)`: not found, or the stored row. */
  function FindSpec(store: Store, codigo: string): (r: Result<EstadoFields>)
    ensures r.Ok? <==> codigo in store
    ensures r.Err? ==> r.error == NoSuchElement(NotFound(codigo))
    ensures r.Ok? ==> r.value == store[codigo]
  {
    if codigo in store then Ok(store[codigo]) else Err(NoSuchElement(NotFound(codigo)))
  }

  // ---------------------------------------------------------------------------
  // Laws of the operations.

  /** Create keeps every row under its own codigo, and adds a clean row. */
  lemma CreatePreservesStoreValid(store: Store, dto: EstadoFields, violations: set<Violation>)
    requires CreateSpec(store, dto, violations).Ok?
    ensures StoreValid(store) ==> StoreValid(CreateSpec(store, dto, violations).value)
    ensures RowsClean(store) ==> RowsClean(CreateSpec(store, dto, violations).value)
  {
    var k := dto.codigo.value;
    var row := ToEntityFields(dto);
    var after := CreateSpec(store, dto, violations).value;
    assert row.codigo == Some(k) by { assert row.Get(Codigo) == dto.Get(Codigo); }
    if StoreValid(store) {
      forall j | j in after ensures after[j].codigo == Some(j) {
        if j != k {
          assert after[j] == store[j];
        }
      }
    }
    if RowsClean(store) {
      forall j | j in after ensures !IsBlank(Some(j)) && after[j].NoNulls() && SaveViolations(after[j]) == {} {
        if j != k {
          assert after[j] == store[j];
        }
      }
    }
  }

  /** A merged row keeps the codigo and, when the stored row has no null, has none either. */
  lemma {:induction false} MergeNoNulls(existing: EstadoFields, dto: EstadoFields)
    requires existing.NoNulls()
    ensures Merge(existing, dto).NoNulls()
  {
    var m := Merge(existing, dto);
    forall f ensures m.Get(f).Some? {
      assert existing.Get(f).Some?;
    }
  }

  /** Update keeps every row under its own codigo, and keeps clean rows clean. */
  lemma {:induction false} UpdatePreservesStoreValid(store: Store, dto: EstadoFields, violations: set<Violation>)
    requires UpdateSpec(store, dto, violations).Ok?
    ensures StoreValid(store) ==> StoreValid(UpdateSpec(store, dto, violations).value)
    ensures RowsClean(store) ==> RowsClean(UpdateSpec(store, dto, violations).value)
  {
    var k := dto.codigo.value;
    var after := UpdateSpec(store, dto, violations).value;
    if StoreValid(store) {
      forall j | j in after ensures after[j].codigo == Some(j) {
        if j == k {
          assert after[j].codigo == store[k].codigo;
        }
      }
    }
    if RowsClean(store) {
      forall j | j in after ensures !IsBlank(Some(j)) && after[j].NoNulls() && SaveViolations(after[j]) == {} {
        if j == k {
          MergeNoNulls(store[k], dto);
          if after[k] == store[k] {
            assert SaveViolations(store[k]) == {};
          }
        } else {
          assert after[j] == store[j];
        }
      }
    }
  }

  /** Delete keeps every remaining row as it was. */
  lemma DeletePreservesStoreValid(store: Store, codigo: string)
    requires DeleteSpec(store, codigo).Ok?
    ensures StoreValid(store) ==> StoreValid(DeleteSpec(store, codigo).value)
    ensures RowsClean(store) ==> RowsClean(DeleteSpec(store, codigo).value)
  {
  }

  /** Merging the same DTO twice is merging it once. */
  lemma {:induction false} MergeIdempotent(existing: EstadoFields, dto: EstadoFields)
    ensures Merge(Merge(existing, dto), dto) == Merge(existing, dto)
  {
    var once := Merge(existing, dto);
    var twice := Merge(once, dto);
    forall f ensures twice.Get(f) == once.Get(f) {
    }
    FieldsExtensional(twice, once);
  }

  /** Applying the same update twice leaves the table as applying it once. */
  lemma UpdateIdempotent(store: Store, dto: EstadoFields)
    requires UpdateSpec(store, dto, {}).Ok?
    ensures UpdateSpec(UpdateSpec(store, dto, {}).value, dto, {}) == UpdateSpec(store, dto, {})
  {
    var k := dto.codigo.value;
    var once := UpdateSpec(store, dto, {}).value;
    var twice := UpdateSpec(once, dto, {}).value;
    MergeIdempotent(store[k], dto);
    assert twice.Keys == once.Keys;
    assert twice[k] == Merge(once[k], dto) == once[k];
    assert forall j :: j in twice ==> twice[j] == once[j];
    assert twice == once;
  }

  /** An empty string in the DTO is a value, not an omission: it blanks the stored attribute. */
  lemma EmptyStringOverwrites(existing: EstadoFields, dto: EstadoFields, f: EstadoField)
    requires f != Codigo && dto.Get(f) == Some("")
    ensures Merge(existing, dto).Get(f) == Some("")
  {
  }

  /** A DTO built with the no-argument constructor and then given only a codigo
      wipes every other attribute of the stored row. */
  lemma {:induction false} DefaultDtoBlanksRow(existing: EstadoFields, codigo: string)
    ensures Merge(existing, LegacyDefaults.With(Codigo, Some(codigo))) == LegacyDefaults.With(Codigo, existing.codigo)
  {
    var dto := LegacyDefaults.With(Codigo, Some(codigo));
    var m := Merge(existing, dto);
    var expected := LegacyDefaults.With(Codigo, existing.codigo);
    forall f ensures m.Get(f) == expected.Get(f) {
      if f != Codigo {
        assert dto.Get(f) == LegacyDefaults.Get(f);
      }
    }
    FieldsExtensional(m, expected);
  }

  /** A DTO with every attribute but codigo null leaves the row as it was. */
  lemma {:induction false} NullDtoKeepsRow(existing: EstadoFields, codigo: Option<string>)
    ensures Merge(existing, EstadoFields(codigo, None, None, None, None, None, None)) == existing
  {
    var m := Merge(existing, EstadoFields(codigo, None, None, None, None, None, None));
    forall f ensures m.Get(f) == existing.Get(f) {
    }
    FieldsExtensional(m, existing);
  }

  /** After a successful create, finding the codigo gives `dto.toEntity()`,
      and creating the same DTO again fails as a duplicate. */
  lemma CreateThenFindAndRecreate(store: Store, dto: EstadoFields)
    requires CreateSpec(store, dto, {}).Ok?
    ensures FindSpec(CreateSpec(store, dto, {}).value, dto.codigo.value) == Ok(ToEntityFields(dto))
    ensures CreateSpec(CreateSpec(store, dto, {}).value, dto, {})
      == Err(IllegalArgument(AlreadyExists(dto.codigo.value)))
  {
  }

  /** Deleting what create inserted gives back the table before the create. */
  lemma {:induction false} CreateThenDelete(store: Store, dto: EstadoFields)
    requires CreateSpec(store, dto, {}).Ok?
    ensures DeleteSpec(CreateSpec(store, dto, {}).value, dto.codigo.value) == Ok(store)
  {
    var after := DeleteSpec(CreateSpec(store, dto, {}).value, dto.codigo.value).value;
    assert after.Keys == store.Keys;
    assert forall k :: k in after ==> after[k] == store[k];
    assert after == store;
  }

  /** With the Jakarta semantics of the DTO's annotations as the validator,
      the service's own check uses the Create group, which no annotation
      names, so it changes nothing; the declared limits are enforced only by
      the entity validation at save. */
  lemma CreateChecksLimitsOnlyAtSave(store: Store, dto: EstadoFields)
    ensures CreateSpec(store, dto, Validate(dto, DtoConstraints, OnCreate)) == CreateSpec(store, dto, {})
    ensures CreateSpec(store, dto, {}).Ok?
      <==> !IsBlank(dto.codigo) && dto.codigo.value !in store && WithinDeclaredLimits(ToEntityFields(dto))
  {
    GroupValidationFindsNothing(dto, OnCreate);
    EntityValidIff(ToEntityFields(dto));
  }

  /** Likewise update, with the Update group: an update that changes the row
      succeeds only when the merged row is within the declared limits, and one
      that changes nothing succeeds whatever the stored row holds. */
  lemma UpdateChecksLimitsOnlyAtSave(store: Store, dto: EstadoFields)
    ensures UpdateSpec(store, dto, Validate(dto, DtoConstraints, OnUpdate)) == UpdateSpec(store, dto, {})
    ensures UpdateSpec(store, dto, {}).Ok?
      <==> && !IsBlank(dto.codigo) && dto.codigo.value in store
           && (|| Merge(store[dto.codigo.value], dto) == store[dto.codigo.value]
               || WithinDeclaredLimits(Merge(store[dto.codigo.value], dto)))
  {
    GroupValidationFindsNothing(dto, OnUpdate);
    if !IsBlank(dto.codigo) && dto.codigo.value in store {
      EntityValidIff(Merge(store[dto.codigo.value], dto));
    }
  }

  /** A stored row over the declared limits, written before the constraints
      existed, survives an update that changes nothing: the managed entity is
      not dirty, so it is neither validated nor written, and the row comes back. */
  lemma {:induction false} UnchangedInvalidRowIsNotRevalidated(store: Store, k: string)
    requires !IsBlank(Some(k)) && k in store
    requires store[k].nome.Some? && |store[k].nome.value| > 255
    ensures SaveViolations(store[k]) != {}
    ensures UpdateSpec(store, EstadoFields(Some(k), None, None, None, None, None, None), {}) == Ok(store)
  {
    var row := store[k];
    ValidateReports(row, EntityConstraints, Default, Nome, SizeMax(255));
    NullDtoKeepsRow(row, Some(k));
    assert store[k := row] == store;
  }

  /** A DTO whose nome has 256 chars passes the service's own check, and create
      then fails at save with the violation of `@Size(max = 255)` on nome. */
  lemma {:induction false} OverlongNomeIsRejectedAtSave(store: Store)
    requires "C1" !in store
    ensures var dto := LegacyDefaults.(codigo := Some("C1"), nome := Some(seq(256, _ => 'x')));
      && Validate(dto, DtoConstraints, OnCreate) == {}
      && CreateSpec(store, dto, {}).Err?
      && CreateSpec(store, dto, {}).error.message == SaveValidationFailed
      && Violation("nome", SizeMax(255)) in CreateSpec(store, dto, {}).error.violations
  {
    var dto := LegacyDefaults.(codigo := Some("C1"), nome := Some(seq(256, _ => 'x')));
    assert Trim("C1") == "C1" by { assert TrimStart("C1") == "C1"; assert TrimEnd("C1") == "C1"; }
    GroupValidationFindsNothing(dto, OnCreate);
    var row := ToEntityFields(dto);
    assert row.Get(Nome) == dto.nome;
    ValidateReports(row, EntityConstraints, Default, Nome, SizeMax(255));
  }

  // ---------------------------------------------------------------------------
  // The service.

  class ArquivoRecadastramentoEstadoService {
    /** The repository's table. */
    var store: Store
    /** The injected `Validator.validate(dto, group)`. */
    const validator: (EstadoFields, Group) -> set<Violation>

    ghost predicate Valid()
      reads this
    {
      StoreValid(store)
    }

    /** The service over the repository's current table, with the injected validator. */
    constructor (validator: (EstadoFields, Group) -> set<Violation>, table: Store)
      requires StoreValid(table)
      ensures store == table && this.validator == validator
      ensures Valid()
    {
      store := table;
      this.validator := validator;
    }

    /** `repository.findById(codigo).get()`: a new managed entity holding the stored row. */
    method Load(codigo: string) returns (e: ArquivoRecadastramentoEstado)
      requires codigo in store
      ensures fresh(e)
      ensures e.Fields() == store[codigo]
    {
      var row := store[codigo];
      e := new ArquivoRecadastramentoEstado();
      e.Set(Codigo, row.codigo);
      e.Set(CodigoSec, row.codigoSec);
      e.Set(DataMovimentacao, row.dataMovimentacao);
      e.Set(AnoBase, row.anoBase);
      e.Set(Nome, row.nome);
      e.Set(Cnpj, row.cnpj);
      e.Set(Bairro, row.bairro);
      assert e.Fields() == EstadoFields(row.codigo, row.codigoSec, row.dataMovimentacao,
        row.anoBase, row.nome, row.cnpj, row.bairro);
    }

    /** `repository.save(entity)` and the flush that follows: an entity whose
        codigo is new, or whose values differ from its stored row, is validated
        in the Default group; a violation throws and writes nothing, otherwise
        the entity's values become the row under its codigo. An entity equal to
        its stored row is not dirty: nothing is validated and the table keeps it. */
    method Save(e: ArquivoRecadastramentoEstado) returns (r: Result<()>)
      requires e.codigo.Some?
      modifies this
      ensures var dirty := e.codigo.value !in old(store) || e.Fields() != old(store)[e.codigo.value];
        && (dirty && SaveViolations(e.Fields()) != {}
          ==> r == Err(ConstraintViolation(SaveValidationFailed, SaveViolations(e.Fields()))) && store == old(store))
        && (!dirty || SaveViolations(e.Fields()) == {}
          ==> r == Ok(()) && store == old(store)[e.codigo.value := e.Fields()])
    {
      var k := e.codigo.value;
      var violations := SaveViolations(e.Fields());
      if (k !in store || e.Fields() != store[k]) && violations != {} {
        return Err(ConstraintViolation(SaveValidationFailed, violations));
      }
      store := store[e.codigo.value := e.Fields()];
      return Ok(());
    }

    /** The six guarded setter calls of `update`, applied to the loaded entity. */
    static method ApplyUpdate(existing: ArquivoRecadastramentoEstado, dto: ArquivoRecadastramentoEstadoDto)
      modifies existing
      ensures existing.Fields() == Merge(old(existing.Fields()), dto.Fields())
    {
      if dto.codigoSec != None { existing.Set(CodigoSec, dto.codigoSec); }
      if dto.dataMovimentacao != None { existing.Set(DataMovimentacao, dto.dataMovimentacao); }
      if dto.anoBase != None { existing.Set(AnoBase, dto.anoBase); }
      if dto.nome != None { existing.Set(Nome, dto.nome); }
      if dto.cnpj != None { existing.Set(Cnpj, dto.cnpj); }
      if dto.bairro != None { existing.Set(Bairro, dto.bairro); }
      assert existing.Fields().codigo == old(existing.Fields()).codigo;
    }

    /** `create(dto)`: the table becomes CreateSpec's, or the call throws CreateSpec's
        error and the table is unchanged; on success the returned DTO holds the new row. */
    method Create(dto: ArquivoRecadastramentoEstadoDto) returns (r: Result<ArquivoRecadastramentoEstadoDto>)
      requires Valid()
      modifies this
      ensures Valid()
      ensures var spec := CreateSpec(old(store), dto.Fields(), validator(dto.Fields(), OnCreate));
        && (r.Ok? <==> spec.Ok?)
        && (spec.Err? ==> r == Err(spec.error) && store == old(store))
        && (spec.Ok? ==> store == spec.value && fresh(r.value) && r.value.Fields() == store[dto.codigo.value])
    {
      var violations := validator(dto.Fields(), OnCreate);
      if violations != {} {
        return Err(ConstraintViolation(CreateValidationFailed, violations));
      }
      var codigo := dto.codigo;
      if IsBlank(codigo) {
        return Err(IllegalArgument(CodigoRequiredForCreate));
      }
      if codigo.value in store {
        return Err(IllegalArgument(AlreadyExists(codigo.value)));
      }
      var entity := dto.ToEntity();
      assert entity.codigo == codigo by { assert entity.Fields().Get(Codigo) == dto.Fields().Get(Codigo); }
      var written := Save(entity);
      if written.Err? {
        return Err(written.error);
      }
      CreatePreservesStoreValid(old(store), dto.Fields(), violations);
      var saved: ArquivoRecadastramentoEstadoDto := ArquivoRecadastramentoEstadoDto.FromEntity(entity);
      return Ok(saved);
    }

    /** `update(dto)`: the table becomes UpdateSpec's, or the call throws UpdateSpec's
        error and the table is unchanged; on success the returned DTO holds the merged row. */
    method Update(dto: ArquivoRecadastramentoEstadoDto) returns (r: Result<ArquivoRecadastramentoEstadoDto>)
      requires Valid()
      modifies this
      ensures Valid()
      ensures var spec := UpdateSpec(old(store), dto.Fields(), validator(dto.Fields(), OnUpdate));
        && (r.Ok? <==> spec.Ok?)
        && (spec.Err? ==> r == Err(spec.error) && store == old(store))
        && (spec.Ok? ==> store == spec.value && fresh(r.value) && r.value.Fields() == store[dto.codigo.value])
    {
      var violations := validator(dto.Fields(), OnUpdate);
      if violations != {} {
        return Err(ConstraintViolation(UpdateValidationFailed, violations));
      }
      var codigo := dto.codigo;
      if IsBlank(codigo) {
        return Err(IllegalArgument(CodigoRequiredForUpdate));
      }
      if codigo.value !in store {
        return Err(NoSuchElement(NotFound(codigo.value)));
      }
      r := MergeInto(codigo.value, dto);
      if r.Ok? {
        UpdatePreservesStoreValid(old(store), dto.Fields(), violations);
      }
    }

    /** The rest of `update`: load the row, apply the guarded setters, save it;
        the save throws, writing nothing, when the merge changed the entity and
        the changed entity is invalid. */
    method MergeInto(codigo: string, dto: ArquivoRecadastramentoEstadoDto) returns (r: Result<ArquivoRecadastramentoEstadoDto>)
      requires codigo in store && store[codigo].codigo == Some(codigo)
      modifies this
      ensures var merged := Merge(old(store)[codigo], dto.Fields());
        && (merged != old(store)[codigo] && SaveViolations(merged) != {}
          ==> r == Err(ConstraintViolation(SaveValidationFailed, SaveViolations(merged))) && store == old(store))
        && (merged == old(store)[codigo] || SaveViolations(merged) == {}
          ==> r.Ok? && store == old(store)[codigo := merged] && fresh(r.value) && r.value.Fields() == merged)
    {
      var existing := Load(codigo);
      ApplyUpdate(existing, dto);
      var written := Save(existing);
      if written.Err? {
        return Err(written.error);
      }
      var saved: ArquivoRecadastramentoEstadoDto := ArquivoRecadastramentoEstadoDto.FromEntity(existing);
      return Ok(saved);
    }

    /** `findById(codigo)`: the stored row as a new DTO, or not found. */
    method FindById(codigo: string) returns (r: Result<ArquivoRecadastramentoEstadoDto>)
      ensures r.Ok? <==> FindSpec(store, codigo).Ok?
      ensures r.Err? ==> r.error == FindSpec(store, codigo).error
      ensures r.Ok? ==> fresh(r.value) && r.value.Fields() == FindSpec(store, codigo).value
    {
      if codigo !in store {
        return Err(NoSuchElement(NotFound(codigo)));
      }
      var entity := Load(codigo);
      var found: ArquivoRecadastramentoEstadoDto := ArquivoRecadastramentoEstadoDto.FromEntity(entity);
      return Ok(found);
    }

    /** `deleteById(codigo)`: the table becomes DeleteSpec's, or not found and unchanged. */
    method DeleteById(codigo: string) returns (r: Result<()>)
      requires Valid()
      modifies this
      ensures Valid()
      ensures var spec := DeleteSpec(old(store), codigo);
        && (r.Ok? <==> spec.Ok?)
        && (spec.Err? ==> r == Err(spec.error) && store == old(store))
        && (spec.Ok? ==> store == spec.value)
    {
      if codigo !in store {
        return Err(NoSuchElement(NotFound(codigo)));
      }
      DeletePreservesStoreValid(store, codigo);
      store := store - {codigo};
      return Ok(());
    }

    /** `findAll()`, and `findByAnoBase`, `findByCnpj`, `findByBairro` as exact
        matches on one attribute: the stored rows, as a set. */
    function FindBy(f: Option<EstadoField>, v: Option<string>): (rows: set<EstadoFields>)
      reads this
      ensures forall row :: row in rows <==> exists k :: k in store && store[k] == row && (f.Some? ==> row.Get(f.value) == v)
    {
      set k | k in store && (f.Some? ==> store[k].Get(f.value) == v) :: store[k]
    }
  }
}
