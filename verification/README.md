# TacomArquivoJava service core, in Dafny

This project models the layer of TacomArquivoJava between the HTTP controllers and
the JPA store. It covers two CRUD services, the records and DTO mappings they use,
and a small school lookup.

- **State re-registration** (`ArquivoRecadastramentoEstado`). A record of seven text
  attributes keyed by the natural key `codigo`. The entity and its DTO both start with
  every attribute "". `toEntity` replaces null with "". The service's `update`
  overwrites every non-null DTO attribute, and "" counts as a value.
- **Files** (`Arquivo`). A record keyed by a surrogate Integer id that the store
  assigns on `create`. It has five Integer counters and three strings. Each numeric
  attribute has a nullable (boxed) view and a legacy primitive view that reads null
  as 0. The service's `update` is a true partial update: only non-null DTO values
  overwrite.
- **DTO mappings.** `ArquivoDto.fromEntity` keeps nulls. `CodigoArquivoDto.fromEntity`
  reads the id through the primitive view, so an unset id becomes 0.
- **School lookup** (`EscolaService.getCodigoescolaById`). A map lookup with a
  null-id error and a not-found error.

How the Java maps to Dafny:

- A Java reference that may be null is an `Option` (`None` is null).
- `Integer` is the `int32` newtype. `String` is `string`.
- `String.trim` removes leading and trailing chars up to U+0020.
- Exceptions are the `Err` side of a `Result`. An error path leaves the table
  unchanged.
- Entities and DTOs are classes with one mutable field per attribute. `Fields()`
  reads all of them as one value, and a field enumeration selects the getter and
  setter of one attribute.
- Each service is a class holding its table as a `map` from key to row value.
- Each service operation is first a pure specification function on the table
  (`CreateSpec`, `UpdateSpec`, `DeleteSpec`, `FindSpec`). The method that performs
  it step by step (load entity, call setters, save) is proved to move the table
  exactly as that function says. The laws (partial update, idempotence,
  invariants, round trips) are lemmas about the functions.
- The Jakarta validator is injected as a function from a DTO and a group to a set
  of violations. Its Jakarta semantics on the annotations is modelled separately
  by `Validate`. Every annotation on the re-registration DTO is declared without a
  group, so it belongs to the Default group. Its service validates with the
  `Create` and `Update` groups, so under that semantics its own check reports
  nothing. The limits are still enforced: the entity repeats the annotations, and
  Jakarta Persistence validates the entity in the Default group before it writes
  it, when a Bean Validation provider is present (the injected `Validator` shows
  one is). A new entity is validated before its insert. An entity loaded by
  `update` is managed, so it is validated only when the merge changed it (it is
  dirty); an update that changes nothing writes and validates nothing, and returns
  the row even when the stored row is already over the limits. A violation aborts
  the call and nothing is written (`SaveViolations`,
  `ArquivoRecadastramentoEstadoService.Save`). `CreateChecksLimitsOnlyAtSave`,
  `UpdateChecksLimitsOnlyAtSave`, `OverlongNomeIsRejectedAtSave` and
  `UnchangedInvalidRowIsNotRevalidated` state this for the standard validator. A different injected validator may report anything, and
  the service then rejects the call before saving.
- The surrogate id comes from an identity counter `nextId` that starts at 1. When
  it would pass `Integer.MAX_VALUE`, `create` fails with `IdentityExhausted`, a
  storage failure.

A client-supplied id on file `create` is rejected with `IllegalArgumentException`
before anything is stored (`ArquivoService.java` lines 68-72,
`ArquivoServices.CreateSpec`).

`Arquivo.java` declares only a `Long id` and `nomeArquivo`. The service,
the DTO and the entity tests use nine attributes with Integer ids and the
boxed/primitive accessor pairs. The model has one File record with those nine
attributes. Its accessor behaviour comes from `ArquivoLegacyFieldsTest.java`.

## Model

| member | source | states |
|---|---|---|
| JavaLang.Wrap32 | src/main/java/br/com/meta3/java/scaffold/domain/entities/Arquivo.java:100-105 | the result is congruent to the exact value modulo 2^32 and equals it when it fits in 32 bits, as Java `int` arithmetic in `hashCode` does |
| JavaLang.TrimStart | src/main/java/br/com/meta3/java/scaffold/application/services/ArquivoRecadastramentoEstadoService.java:68 | the result is a suffix of the input, every removed leading char is at most U+0020, and a non-empty result starts with a char above U+0020 |
| JavaLang.TrimEnd | src/main/java/br/com/meta3/java/scaffold/application/services/ArquivoRecadastramentoEstadoService.java:68 | the result is a prefix of the input, every removed trailing char is at most U+0020, and a non-empty result ends with a char above U+0020 |
| JavaLang.TrimEmptyIffAllSpace | src/main/java/br/com/meta3/java/scaffold/application/services/ArquivoRecadastramentoEstadoService.java:68 | `codigo.trim().isEmpty()` holds exactly when every char of `codigo` is at most U+0020 |
| JavaLang.Trim | src/main/java/br/com/meta3/java/scaffold/application/services/ArquivoRecadastramentoEstadoService.java:68 | `trim` never lengthens a string, and what it leaves is empty or starts and ends with a char above U+0020 |
| JavaLang.TrimIdempotent | src/main/java/br/com/meta3/java/scaffold/application/services/ArquivoRecadastramentoEstadoService.java:107 | trimming a string that already starts and ends above U+0020 leaves it unchanged, and trimming twice is trimming once |
| JavaLang.IsBlankIffAllSpace | src/main/java/br/com/meta3/java/scaffold/application/services/ArquivoRecadastramentoEstadoService.java:107 | `codigo == null || codigo.trim().isEmpty()` holds exactly when the codigo is null or all its chars are at most U+0020 |
| JavaLang.Int32ToString | src/main/java/br/com/meta3/java/scaffold/application/services/ArquivoService.java:108 | the text of an Integer in the not-found message is its decimal numeral: a minus sign exactly when negative, then digits without a leading zero whose decimal value is the magnitude |
| JavaLang.NatToString | src/main/java/br/com/meta3/java/scaffold/application/services/ArquivoService.java:108 | the decimal numeral of a natural number: digits only, no leading zero, and its decimal value is the number |
| JavaLang.DenotesUnique | src/main/java/br/com/meta3/java/scaffold/application/services/ArquivoService.java:108 | a numeral denotes at most one integer |
| JavaLang.Int32ToStringInjective | src/main/java/br/com/meta3/java/scaffold/application/services/ArquivoService.java:108 | different Integers have different texts |
| JavaLang.StringText | src/main/java/br/com/meta3/java/scaffold/domain/entities/Arquivo.java:82-87 | string concatenation writes a null String as `null` and any other String as itself |
| JavaLang.IntegerText | src/main/java/br/com/meta3/java/scaffold/application/services/ArquivoService.java:108 | string concatenation writes a null Integer as `null` and any other Integer as its decimal numeral |
| JavaLang.IntegerTextHasNoComma | src/main/java/br/com/meta3/java/scaffold/domain/entities/Arquivo.java:82-87 | the text of an Integer, null included, holds no comma |
| JavaLang.IntegerTextInjective | src/main/java/br/com/meta3/java/scaffold/domain/entities/Arquivo.java:82-87 | different Integers, null included, have different texts |
| RecadastramentoEstadoEntity.EstadoFields.With | src/main/java/br/com/meta3/java/scaffold/domain/entities/ArquivoRecadastramentoEstado.java:89-143 | after the setter of one attribute, its getter returns the value set and every other getter is unchanged |
| RecadastramentoEstadoEntity.Validate | src/main/java/br/com/meta3/java/scaffold/domain/entities/ArquivoRecadastramentoEstado.java:37-69 | validation under a group other than Default reports nothing; every reported violation names an attribute, a constraint declared on it, and that constraint fails on the attribute's value |
| RecadastramentoEstadoEntity.DeclarationOrderListsEachOnce | src/main/java/br/com/meta3/java/scaffold/domain/entities/ArquivoRecadastramentoEstado.java:148-159 | the order of the entries in `toString` lists each of the seven attributes exactly once |
| RecadastramentoEstadoEntity.ValidateReports | src/main/java/br/com/meta3/java/scaffold/domain/entities/ArquivoRecadastramentoEstado.java:37-69 | validation reports a violation for attribute f and constraint c exactly when the group is Default, c is declared on f and the value of f breaks c |
| RecadastramentoEstadoEntity.ValidateEmptyIff | src/main/java/br/com/meta3/java/scaffold/domain/entities/ArquivoRecadastramentoEstado.java:37-69 | validation reports nothing exactly when the group is not Default or every declared constraint holds |
| RecadastramentoEstadoEntity.FreshEntityOnlyViolatesNotBlank | src/main/java/br/com/meta3/java/scaffold/domain/entities/ArquivoRecadastramentoEstado.java:37-41 | a freshly constructed entity is invalid, and its only violation is NotBlank on `codigo` |
| RecadastramentoEstadoEntity.Render | src/main/java/br/com/meta3/java/scaffold/domain/entities/ArquivoRecadastramentoEstado.java:148-159 | `toString` is `ArquivoRecadastramentoEstado{`, then one quoted `name='value'` entry per attribute in declaration order (codigo, codigoSec, dataMovimentacao, anoBase, nome, cnpj, bairro) separated by `, `, then `}` |
| RecadastramentoEstadoEntity.ArquivoRecadastramentoEstado.constructor | src/main/java/br/com/meta3/java/scaffold/domain/entities/ArquivoRecadastramentoEstado.java:77-85 | a new entity has all seven attributes equal to "" |
| RecadastramentoEstadoEntity.ArquivoRecadastramentoEstado.Set | src/main/java/br/com/meta3/java/scaffold/domain/entities/ArquivoRecadastramentoEstado.java:89-143 | each setter changes only its own attribute, and its getter then returns the value set |
| RecadastramentoEstadoEntity.ArquivoRecadastramentoEstado.ToString | src/main/java/br/com/meta3/java/scaffold/domain/entities/ArquivoRecadastramentoEstado.java:148-159 | `toString` is the class name, the seven current attribute values as quoted entries in declaration order, and `}` |
| RecadastramentoEstadoDtos.WithinLimitsValid | src/main/java/br/com/meta3/java/scaffold/api/dtos/ArquivoRecadastramentoEstadoDto.java:40-62 | a DTO within the declared limits passes Default-group validation |
| RecadastramentoEstadoDtos.ValidWithinLimits | src/main/java/br/com/meta3/java/scaffold/api/dtos/ArquivoRecadastramentoEstadoDto.java:40-62 | a DTO that passes Default-group validation has a non-blank `codigo` of at most 50 chars and every other attribute null or within its limit (50, 50, 10, 255, 20, 100) |
| RecadastramentoEstadoDtos.DtoValidIff | src/main/java/br/com/meta3/java/scaffold/api/dtos/ArquivoRecadastramentoEstadoDto.java:40-62 | Default-group validation passes if and only if the declared limits hold |
| RecadastramentoEstadoDtos.GroupValidationFindsNothing | src/main/java/br/com/meta3/java/scaffold/application/services/ArquivoRecadastramentoEstadoService.java:60-64 | validation with the Create or Update group, which no annotation names, reports nothing for any DTO |
| RecadastramentoEstadoDtos.EntityDeclaresSameConstraints | src/main/java/br/com/meta3/java/scaffold/domain/entities/ArquivoRecadastramentoEstado.java:37-69 | the entity declares on every attribute the same constraints as the DTO |
| RecadastramentoEstadoDtos.EntityValidIff | src/main/java/br/com/meta3/java/scaffold/domain/entities/ArquivoRecadastramentoEstado.java:37-69 | Default-group validation of the entity passes exactly when the declared limits hold |
| RecadastramentoEstadoDtos.ToEntityFields | src/main/java/br/com/meta3/java/scaffold/api/dtos/ArquivoRecadastramentoEstadoDto.java:155-165 | the entity values have no null, and each is the DTO value or "" where that is null |
| RecadastramentoEstadoDtos.DtoEntityDto | src/main/java/br/com/meta3/java/scaffold/api/dtos/ArquivoRecadastramentoEstadoDto.java:155-184 | DTO to entity and back is the identity exactly when the DTO has no null attribute |
| RecadastramentoEstadoDtos.ArquivoRecadastramentoEstadoDto.constructor | src/main/java/br/com/meta3/java/scaffold/api/dtos/ArquivoRecadastramentoEstadoDto.java:64-73 | the no-argument constructor sets all seven attributes to "" |
| RecadastramentoEstadoDtos.ArquivoRecadastramentoEstadoDto.Of | src/main/java/br/com/meta3/java/scaffold/api/dtos/ArquivoRecadastramentoEstadoDto.java:75-89 | the all-arguments constructor stores each argument as given, null included |
| RecadastramentoEstadoDtos.ArquivoRecadastramentoEstadoDto.Set | src/main/java/br/com/meta3/java/scaffold/api/dtos/ArquivoRecadastramentoEstadoDto.java:93-147 | each setter changes only its own attribute, and its getter then returns the value set |
| RecadastramentoEstadoDtos.ArquivoRecadastramentoEstadoDto.ToEntity | src/main/java/br/com/meta3/java/scaffold/api/dtos/ArquivoRecadastramentoEstadoDto.java:155-165 | `toEntity` returns a new entity whose attributes are the DTO values with null replaced by "" |
| RecadastramentoEstadoDtos.ArquivoRecadastramentoEstadoDto.FromEntity | src/main/java/br/com/meta3/java/scaffold/api/dtos/ArquivoRecadastramentoEstadoDto.java:171-184 | `fromEntity(null)` is null; otherwise a new DTO whose seven attributes equal the entity's |
| RecadastramentoEstadoServices.CreateSpec | src/main/java/br/com/meta3/java/scaffold/application/services/ArquivoRecadastramentoEstadoService.java:58-80 | violations, then a blank `codigo`, then a stored `codigo`, then a `toEntity(dto)` that breaks the entity's own constraints at save each give their own error; success happens exactly otherwise and adds only the key `codigo`, bound to `toEntity(dto)`, keeping every other row |
| RecadastramentoEstadoServices.Merge | src/main/java/br/com/meta3/java/scaffold/application/services/ArquivoRecadastramentoEstadoService.java:117-134 | `codigo` is kept, and each other attribute is the DTO value when that is non-null ("" included) and the stored one otherwise |
| RecadastramentoEstadoServices.UpdateSpec | src/main/java/br/com/meta3/java/scaffold/application/services/ArquivoRecadastramentoEstadoService.java:99-138 | violations, then a blank `codigo`, then a missing `codigo`, then a merged row that differs from the stored one and breaks the entity's own constraints at save each give their own error; a merge that changes nothing is never validated; success happens exactly otherwise, merges the DTO into that row and keeps the key set and every other row |
| RecadastramentoEstadoServices.DeleteSpec | src/main/java/br/com/meta3/java/scaffold/application/services/ArquivoRecadastramentoEstadoService.java:173-178 | a missing key gives not-found; otherwise exactly that key is removed and the other rows are kept |
| RecadastramentoEstadoServices.FindSpec | src/main/java/br/com/meta3/java/scaffold/application/services/ArquivoRecadastramentoEstadoService.java:148-152 | a missing key gives not-found; otherwise the stored row |
| RecadastramentoEstadoServices.CreatePreservesStoreValid | src/main/java/br/com/meta3/java/scaffold/application/services/ArquivoRecadastramentoEstadoService.java:66-79 | after create every row still sits under its own `codigo`, and when every stored key was non-blank and every row free of nulls and valid as an entity, that is still so |
| RecadastramentoEstadoServices.MergeNoNulls | src/main/java/br/com/meta3/java/scaffold/application/services/ArquivoRecadastramentoEstadoService.java:117-134 | merging a DTO into a row without nulls gives a row without nulls |
| RecadastramentoEstadoServices.UpdatePreservesStoreValid | src/main/java/br/com/meta3/java/scaffold/application/services/ArquivoRecadastramentoEstadoService.java:99-138 | after update every row still sits under its own `codigo`, and clean rows (non-blank key, no null attribute, valid as an entity) stay clean |
| RecadastramentoEstadoServices.DeletePreservesStoreValid | src/main/java/br/com/meta3/java/scaffold/application/services/ArquivoRecadastramentoEstadoService.java:173-178 | after delete every remaining row still sits under its own `codigo`, and clean rows stay clean |
| RecadastramentoEstadoServices.MergeIdempotent | src/main/java/br/com/meta3/java/scaffold/application/services/ArquivoRecadastramentoEstadoService.java:117-134 | merging the same DTO twice equals merging it once |
| RecadastramentoEstadoServices.UpdateIdempotent | src/main/java/br/com/meta3/java/scaffold/application/services/ArquivoRecadastramentoEstadoService.java:117-136 | applying the same update DTO twice leaves the table as applying it once |
| RecadastramentoEstadoServices.EmptyStringOverwrites | src/main/java/br/com/meta3/java/scaffold/application/services/ArquivoRecadastramentoEstadoService.java:87-90 | an empty string in the DTO overwrites the stored attribute instead of counting as omitted |
| RecadastramentoEstadoServices.DefaultDtoBlanksRow | src/main/java/br/com/meta3/java/scaffold/application/services/ArquivoRecadastramentoEstadoService.java:117-134 | an update DTO built with the no-argument constructor plus a `codigo` resets every other attribute of the row to "" |
| RecadastramentoEstadoServices.NullDtoKeepsRow | src/main/java/br/com/meta3/java/scaffold/application/services/ArquivoRecadastramentoEstadoService.java:117-134 | an update DTO whose attributes other than `codigo` are all null leaves the row unchanged |
| RecadastramentoEstadoServices.CreateThenFindAndRecreate | src/main/java/br/com/meta3/java/scaffold/application/services/ArquivoRecadastramentoEstadoService.java:72-79 | after a successful create, `findById` returns `toEntity(dto)` and creating the same DTO again fails as a duplicate |
| RecadastramentoEstadoServices.CreateThenDelete | src/main/java/br/com/meta3/java/scaffold/application/services/ArquivoRecadastramentoEstadoService.java:173-178 | deleting the `codigo` just created restores the table before the create |
| RecadastramentoEstadoServices.CreateChecksLimitsOnlyAtSave | src/main/java/br/com/meta3/java/scaffold/application/services/ArquivoRecadastramentoEstadoService.java:60-79 | with the Jakarta semantics of the annotations as the validator, the service's Create-group check changes nothing, and create succeeds exactly when the codigo is non-blank and new and `toEntity(dto)` is within the declared limits |
| RecadastramentoEstadoServices.UpdateChecksLimitsOnlyAtSave | src/main/java/br/com/meta3/java/scaffold/application/services/ArquivoRecadastramentoEstadoService.java:101-136 | with the Jakarta semantics of the annotations as the validator, the service's Update-group check changes nothing, and update succeeds exactly when the codigo is non-blank and stored and the merged row either equals the stored row or is within the declared limits |
| RecadastramentoEstadoServices.UnchangedInvalidRowIsNotRevalidated | src/main/java/br/com/meta3/java/scaffold/application/services/ArquivoRecadastramentoEstadoService.java:111-137 | a stored row whose `nome` is over 255 chars breaks the entity's constraints, yet an update carrying only its `codigo` succeeds and leaves the table as it was |
| RecadastramentoEstadoServices.OverlongNomeIsRejectedAtSave | src/main/java/br/com/meta3/java/scaffold/application/services/ArquivoRecadastramentoEstadoService.java:60-79 | a DTO whose `nome` has 256 chars passes the service's own check, and create then fails at save with the `@Size(max = 255)` violation on `nome` |
| RecadastramentoEstadoServices.ArquivoRecadastramentoEstadoService.constructor | src/main/java/br/com/meta3/java/scaffold/application/services/ArquivoRecadastramentoEstadoService.java:41-45 | the service works on the repository's table, which must keep each row under its own codigo, with the injected validator |
| RecadastramentoEstadoServices.ArquivoRecadastramentoEstadoService.Load | src/main/java/br/com/meta3/java/scaffold/application/services/ArquivoRecadastramentoEstadoService.java:111-112 | loading a stored key gives a new entity holding that row |
| RecadastramentoEstadoServices.ArquivoRecadastramentoEstadoService.Save | src/main/java/br/com/meta3/java/scaffold/application/services/ArquivoRecadastramentoEstadoService.java:78 | `save` of an entity whose `codigo` is new, or whose values differ from its stored row, validates it in the Default group: a violation throws with those violations and writes nothing; otherwise, and always for an entity equal to its stored row, the entity's values are bound to its `codigo` and no other row changes |
| RecadastramentoEstadoServices.ArquivoRecadastramentoEstadoService.ApplyUpdate | src/main/java/br/com/meta3/java/scaffold/application/services/ArquivoRecadastramentoEstadoService.java:117-134 | the six guarded setter calls leave the entity equal to the merge of its old values with the DTO |
| RecadastramentoEstadoServices.ArquivoRecadastramentoEstadoService.Create | src/main/java/br/com/meta3/java/scaffold/application/services/ArquivoRecadastramentoEstadoService.java:58-80 | `create` fails exactly when the create specification fails, with the same exception and the table unchanged; otherwise the table becomes the specification's and a new DTO of the stored row is returned; the invariant is kept |
| RecadastramentoEstadoServices.ArquivoRecadastramentoEstadoService.Update | src/main/java/br/com/meta3/java/scaffold/application/services/ArquivoRecadastramentoEstadoService.java:99-138 | `update` fails exactly when the update specification fails, with the same exception and the table unchanged; otherwise the table becomes the specification's and a new DTO of the merged row is returned; the invariant is kept |
| RecadastramentoEstadoServices.ArquivoRecadastramentoEstadoService.MergeInto | src/main/java/br/com/meta3/java/scaffold/application/services/ArquivoRecadastramentoEstadoService.java:111-137 | loading, merging and saving a stored row either fails at save with the merged row's violations, when the merge changed the row, and changes nothing, or changes only that row, to its merge with the DTO, and returns a DTO of it |
| RecadastramentoEstadoServices.ArquivoRecadastramentoEstadoService.FindById | src/main/java/br/com/meta3/java/scaffold/application/services/ArquivoRecadastramentoEstadoService.java:148-152 | `findById` fails with not-found exactly when the key is missing, and otherwise returns a new DTO of the stored row |
| RecadastramentoEstadoServices.ArquivoRecadastramentoEstadoService.DeleteById | src/main/java/br/com/meta3/java/scaffold/application/services/ArquivoRecadastramentoEstadoService.java:173-178 | `deleteById` fails with not-found and changes nothing when the key is missing; otherwise it removes exactly that key |
| RecadastramentoEstadoServices.ArquivoRecadastramentoEstadoService.FindBy | src/main/java/br/com/meta3/java/scaffold/application/services/ArquivoRecadastramentoEstadoService.java:198-228 | `findAll`, `findByAnoBase`, `findByCnpj` and `findByBairro` return exactly the stored rows whose chosen attribute equals the argument (all rows for `findAll`) |
| ArquivoEntity.ArquivoFields.WithNumber | src/test/java/br/com/meta3/java/scaffold/domain/entities/ArquivoLegacyFieldsTest.java:29-129 | after a numeric setter, that attribute has the value set and every other attribute is unchanged |
| ArquivoEntity.ArquivoFields.WithText | src/test/java/br/com/meta3/java/scaffold/domain/entities/ArquivoLegacyFieldsTest.java:131-153 | after a text setter, that attribute has the value set and every other attribute is unchanged |
| ArquivoEntity.BoxedGetterName | src/test/java/br/com/meta3/java/scaffold/domain/entities/ArquivoLegacyFieldsTest.java:29-129 | `getCodigoArquivo`, `getQuantidadeRegistro`, `getAptosValue`, `getSemDocumento`, `getComCodigoSetps` and `getComErro` are the boxed getters of the six numeric attributes |
| ArquivoEntity.PrimitiveGetterName | src/test/java/br/com/meta3/java/scaffold/domain/entities/ArquivoLegacyFieldsTest.java:29-129 | `getCodigoarquivo`, `getQuantidaderegistro`, `getAptos`, `getSemdocumento`, `getComcodigosetps` and `getComerro` are their primitive getters |
| ArquivoEntity.NumberSetterName | src/test/java/br/com/meta3/java/scaffold/domain/entities/ArquivoLegacyFieldsTest.java:29-129 | `setCodigoarquivo`, `setQuantidaderegistro`, `setAptos`, `setSemdocumento`, `setComcodigosetps` and `setComerro` set the six numeric attributes |
| ArquivoEntity.TextGetterNames | src/test/java/br/com/meta3/java/scaffold/domain/entities/ArquivoLegacyFieldsTest.java:131-166 | each text attribute has two distinct getter names, camelCase and legacy lower-case, and both reach that attribute |
| ArquivoEntity.TextSetterNames | src/test/java/br/com/meta3/java/scaffold/domain/entities/ArquivoLegacyFieldsTest.java:131-166 | each text attribute has two distinct setter names, and both reach that attribute |
| ArquivoEntity.TextNamesReadBackWhatEitherWrites | src/test/java/br/com/meta3/java/scaffold/domain/entities/ArquivoLegacyFieldsTest.java:131-166 | a text value written under either setter name is read back under either getter name, and no other attribute changes |
| ArquivoEntity.NumericNamesAgree | src/test/java/br/com/meta3/java/scaffold/domain/entities/ArquivoLegacyFieldsTest.java:29-129 | the primitive getter reads the boxed getter's value with null as 0; the int and the Integer setter store the same value; each getter reads back what was set |
| ArquivoEntity.Render | src/main/java/br/com/meta3/java/scaffold/domain/entities/Arquivo.java:82-87 | `toString` is `Arquivo{id=`, the id as a decimal numeral or `null`, then `, nomeArquivo='`, the name or `null`, and `'}` |
| ArquivoEntity.RenderDeterminesIdAndName | src/main/java/br/com/meta3/java/scaffold/domain/entities/Arquivo.java:82-87 | two records with the same `toString` have the same id and the same name text |
| ArquivoEntity.Arquivo.constructor | src/main/java/br/com/meta3/java/scaffold/domain/entities/Arquivo.java:35-36 | a new entity has a null id, counters and name, and "" in `anoVigencia` and `codigoEscola` |
| ArquivoEntity.Arquivo.WithIdAndName | src/main/java/br/com/meta3/java/scaffold/domain/entities/Arquivo.java:38-41 | the two-argument constructor stores the id and the name as given and leaves the rest as in a new entity |
| ArquivoEntity.Arquivo.Boxed | src/test/java/br/com/meta3/java/scaffold/domain/entities/ArquivoLegacyFieldsTest.java:29-129 | the boxed getter of a numeric attribute is what the Java getter of that name returns, null included |
| ArquivoEntity.Arquivo.Primitive | src/test/java/br/com/meta3/java/scaffold/domain/entities/ArquivoLegacyFieldsTest.java:29-129 | the primitive view of the id and of each counter is 0 while it is unset and its value otherwise |
| ArquivoEntity.Arquivo.Text | src/main/java/br/com/meta3/java/scaffold/domain/entities/Arquivo.java:56-58 | both getter names of a text attribute return its current value, null included |
| ArquivoEntity.Arquivo.SetBoxed | src/test/java/br/com/meta3/java/scaffold/domain/entities/ArquivoLegacyFieldsTest.java:43-46 | the Integer setter changes only its attribute; the boxed view returns the value set and the primitive view its unboxing |
| ArquivoEntity.Arquivo.SetPrimitive | src/test/java/br/com/meta3/java/scaffold/domain/entities/ArquivoLegacyFieldsTest.java:37-41 | the int setter writes the same backing Integer: both views then return the value set |
| ArquivoEntity.Arquivo.SetText | src/test/java/br/com/meta3/java/scaffold/domain/entities/ArquivoLegacyFieldsTest.java:140-152 | a text setter, under either name, changes only its attribute, and the getter returns the value set |
| ArquivoEntity.Arquivo.SetNomeArquivo | src/main/java/br/com/meta3/java/scaffold/domain/entities/Arquivo.java:65-67 | `setNomeArquivo` changes only the file name |
| ArquivoEntity.Arquivo.SetNomearquivo | src/main/java/br/com/meta3/java/scaffold/domain/entities/Arquivo.java:75-79 | the deprecated `setNomearquivo` has exactly the effect of `setNomeArquivo` |
| ArquivoEntity.Arquivo.Equals | src/main/java/br/com/meta3/java/scaffold/domain/entities/Arquivo.java:89-98 | `equals` holds exactly for a non-null Arquivo whose id and file name are both equal to this one's, null equal to null |
| ArquivoEntity.Arquivo.HashCode | src/main/java/br/com/meta3/java/scaffold/domain/entities/Arquivo.java:100-105 | the hash is 0 when id and name are both null, the name's hash when only the id is null, and otherwise congruent modulo 2^32 to 31 times the id plus the name's hash (0 for null) |
| ArquivoEntity.Arquivo.ToString | src/main/java/br/com/meta3/java/scaffold/domain/entities/Arquivo.java:82-87 | `toString` is `Arquivo{id=`, the current id's text, `, nomeArquivo='`, the current name's text, and `'}` |
| ArquivoEntity.EqualsReflexive | src/main/java/br/com/meta3/java/scaffold/domain/entities/Arquivo.java:89-98 | `equals` is reflexive |
| ArquivoEntity.EqualsSymmetric | src/main/java/br/com/meta3/java/scaffold/domain/entities/Arquivo.java:89-98 | `equals` is symmetric |
| ArquivoEntity.EqualsImpliesEqualHashCode | src/main/java/br/com/meta3/java/scaffold/domain/entities/Arquivo.java:89-105 | equal entities have equal `hashCode`, whatever the String hash function is |
| ArquivoEntity.NewEntityViews | src/test/java/br/com/meta3/java/scaffold/domain/entities/ArquivoLegacyFieldsTest.java:29-161 | on a new entity each primitive getter reads 0, each boxed getter reads null, both names of the file name read null, and both names of the two legacy strings read "" |
| ArquivoDtos.ArquivoDto.constructor | src/main/java/br/com/meta3/java/scaffold/api/dtos/ArquivoDto.java:74-76 | the no-argument constructor leaves all nine attributes null |
| ArquivoDtos.ArquivoDto.WithId | src/main/java/br/com/meta3/java/scaffold/api/dtos/ArquivoDto.java:78-80 | the one-argument constructor sets the id and leaves the other eight null |
| ArquivoDtos.ArquivoDto.WithIdAndName | src/main/java/br/com/meta3/java/scaffold/api/dtos/ArquivoDto.java:88-91 | the two-argument constructor sets the id and the name and leaves the other seven null |
| ArquivoDtos.ArquivoDto.SetNumber | src/main/java/br/com/meta3/java/scaffold/api/dtos/ArquivoDto.java:97-166 | each Integer setter changes only its own attribute, and its getter returns the value set |
| ArquivoDtos.ArquivoDto.SetText | src/main/java/br/com/meta3/java/scaffold/api/dtos/ArquivoDto.java:113-182 | each String setter changes only its own attribute, and its getter returns the value set |
| ArquivoDtos.ArquivoDto.ToEntity | src/main/java/br/com/meta3/java/scaffold/application/services/ArquivoService.java:74 | `toEntity` (assumed) returns a new entity with the nine DTO values, nulls included |
| ArquivoDtos.ArquivoDto.FromEntity | src/main/java/br/com/meta3/java/scaffold/api/dtos/ArquivoDto.java:199-229 | `fromEntity(null)` is null; otherwise a new DTO with the entity's nine values, each counter taken from its nullable view, so an unset counter stays null |
| CodigoArquivoDtos.FromEntity | src/main/java/br/com/meta3/java/scaffold/api/dtos/CodigoArquivoDto.java:33-39 | `fromEntity(null)` is null; otherwise the DTO always holds a number: the id, or 0 when the entity has no id |
| CodigoArquivoDtos.UnsetIdLooksLikeZero | src/main/java/br/com/meta3/java/scaffold/api/dtos/CodigoArquivoDto.java:37-38 | an entity without an id and one with id 0 give the same DTO |
| CodigoArquivoDtos.ToString | src/main/java/br/com/meta3/java/scaffold/api/dtos/CodigoArquivoDto.java:41-44 | `toString` is `CodigoArquivoDto{codigoarquivo=`, then `null` for a null id or the decimal numeral of the id, then `}` |
| CodigoArquivoDtos.ToStringInjective | src/main/java/br/com/meta3/java/scaffold/api/dtos/CodigoArquivoDto.java:41-44 | two DTOs with the same `toString` are equal |
| ArquivoServices.CreateSpec | src/main/java/br/com/meta3/java/scaffold/application/services/ArquivoService.java:61-80 | violations, then a client-supplied id, then an exhausted identity column each give their own error; success happens exactly otherwise and stores the DTO under the next id, which becomes its id, keeping every other row |
| ArquivoServices.Merge | src/main/java/br/com/meta3/java/scaffold/application/services/ArquivoService.java:113-136 | the partial-update law: the id is kept and each of the eight other attributes is replaced exactly when the DTO value is non-null |
| ArquivoServices.UpdateSpec | src/main/java/br/com/meta3/java/scaffold/application/services/ArquivoService.java:95-140 | violations, then a null id, then a missing id each give their own error; success happens exactly otherwise, merges the DTO into that row and keeps the key set and every other row |
| ArquivoServices.DeleteSpec | src/main/java/br/com/meta3/java/scaffold/application/services/ArquivoService.java:175-180 | a missing id gives not-found; otherwise exactly that id is removed and the other rows are kept |
| ArquivoServices.FindSpec | src/main/java/br/com/meta3/java/scaffold/application/services/ArquivoService.java:150-154 | a missing id gives not-found; otherwise the stored row |
| ArquivoServices.CreateUsesFreshId | src/main/java/br/com/meta3/java/scaffold/application/services/ArquivoService.java:74-79 | a successful create stores under an id no row had, and the table stays valid with the identity column advanced |
| ArquivoServices.UpdatePreservesStoreValid | src/main/java/br/com/meta3/java/scaffold/application/services/ArquivoService.java:95-140 | after update, every row still sits under its own id, below the identity column |
| ArquivoServices.DeletePreservesStoreValid | src/main/java/br/com/meta3/java/scaffold/application/services/ArquivoService.java:175-180 | after delete, the remaining rows still satisfy the table invariant |
| ArquivoServices.NullDtoKeepsRow | src/main/java/br/com/meta3/java/scaffold/application/services/ArquivoService.java:113-138 | an update DTO whose eight attributes other than the id are all null leaves the row unchanged |
| ArquivoServices.MergeIdempotent | src/main/java/br/com/meta3/java/scaffold/application/services/ArquivoService.java:113-136 | merging the same DTO twice equals merging it once |
| ArquivoServices.UpdateIdempotent | src/main/java/br/com/meta3/java/scaffold/application/services/ArquivoService.java:113-138 | applying the same update DTO twice leaves the table as applying it once |
| ArquivoServices.SchoolCodeOnlyUpdate | src/main/java/br/com/meta3/java/scaffold/application/services/ArquivoService.java:134-136 | an update carrying only a school code changes that attribute of that row and nothing else |
| ArquivoServices.SuccessiveCreatesGetDistinctIds | src/main/java/br/com/meta3/java/scaffold/application/services/ArquivoService.java:74-79 | two successive creates use two different ids not in the table and store each DTO, with its id, under its own id |
| ArquivoServices.CreateThenFind | src/main/java/br/com/meta3/java/scaffold/application/services/ArquivoService.java:74-79 | after a successful create, `findById` of the new id returns the DTO values with that id |
| ArquivoServices.ArquivoService.constructor | src/main/java/br/com/meta3/java/scaffold/application/services/ArquivoService.java:45-48 | the service works on the repository's table and identity counter, which must keep each row under its own id below the counter, with the injected validator |
| ArquivoServices.ArquivoService.Load | src/main/java/br/com/meta3/java/scaffold/application/services/ArquivoService.java:107-108 | loading a stored id gives a new entity holding that row |
| ArquivoServices.ArquivoService.Persist | src/main/java/br/com/meta3/java/scaffold/application/services/ArquivoService.java:78 | saving an entity without an id assigns it the next id and stores it under that id, or changes nothing when the identity column is exhausted |
| ArquivoServices.ArquivoService.SaveExisting | src/main/java/br/com/meta3/java/scaffold/application/services/ArquivoService.java:138 | saving an entity with an id binds its values to that id and changes no other row |
| ArquivoServices.ArquivoService.Create | src/main/java/br/com/meta3/java/scaffold/application/services/ArquivoService.java:61-80 | `create` fails exactly when the create specification fails, with the same exception and nothing changed; otherwise the table becomes the specification's, the identity column advances and a new DTO of the stored row is returned; the invariant is kept |
| ArquivoServices.ArquivoService.ApplyUpdate | src/main/java/br/com/meta3/java/scaffold/application/services/ArquivoService.java:113-136 | the eight guarded setter calls leave the entity equal to the merge of its old values with the DTO |
| ArquivoServices.ArquivoService.ApplyCounterUpdates | src/main/java/br/com/meta3/java/scaffold/application/services/ArquivoService.java:116-130 | each counter is overwritten exactly when the DTO value is non-null; everything else is unchanged |
| ArquivoServices.ArquivoService.ApplyTextUpdates | src/main/java/br/com/meta3/java/scaffold/application/services/ArquivoService.java:113-136 | each text attribute is overwritten exactly when the DTO value is non-null, the name through the legacy setter |
| ArquivoServices.ArquivoService.MergeInto | src/main/java/br/com/meta3/java/scaffold/application/services/ArquivoService.java:107-139 | loading, merging and saving a stored row changes only that row, to its merge with the DTO, and returns a DTO of it |
| ArquivoServices.ArquivoService.Update | src/main/java/br/com/meta3/java/scaffold/application/services/ArquivoService.java:95-140 | `update` fails exactly when the update specification fails, with the same exception and the table unchanged; otherwise the table becomes the specification's and a new DTO of the merged row is returned; the identity column and the invariant are kept |
| ArquivoServices.ArquivoService.FindById | src/main/java/br/com/meta3/java/scaffold/application/services/ArquivoService.java:150-154 | `findById` fails with not-found exactly when the id is missing, and otherwise returns a new DTO of the stored row |
| ArquivoServices.ArquivoService.DeleteById | src/main/java/br/com/meta3/java/scaffold/application/services/ArquivoService.java:175-180 | `deleteById` fails with not-found and changes nothing when the id is missing; otherwise it removes exactly that id |
| ArquivoServices.ArquivoService.FindBy | src/main/java/br/com/meta3/java/scaffold/application/services/ArquivoService.java:162-217 | `findAll`, `findByCodigoescola` and `findByAnovigencia` return exactly the stored rows whose chosen attribute equals the argument (all rows for `findAll`) |
| EscolaServices.GetCodigoescolaById | src/main/java/br/com/meta3/java/scaffold/application/services/EscolaService.java:46-57 | a null id gives an argument error, an unknown id gives EscolaNotFoundException, and otherwise the school's code is returned unchanged, possibly null |
| EscolaServices.NullCodeIsReturned | src/main/java/br/com/meta3/java/scaffold/application/services/EscolaService.java:54-56 | a school whose code is null is found, and the answer is null rather than an error |

## Left out

- Controllers and their HTTP routing, status mapping and Location URIs: transport glue outside the services.
- `existsById` and `count` on both services: pass-throughs to the repository with no logic of their own.
- Result order of `findAll` and the attribute finders: the model returns a set of rows, because the repository promises no order.
- A null key passed to `findById` or `deleteById`: the repository rejects it, so the model takes a non-null key.
- `@Transactional`, concurrent requests and persistence failures other than identity exhaustion and save-time entity validation: outside a sequential model.
- RecadastramentoEstadoServices.SaveViolations: the save-time validation runs when the transaction of `@Transactional` flushes at commit, so the caller receives Spring's `TransactionSystemException` with the `ConstraintViolationException` as its root cause; the model reports the `ConstraintViolationException` itself, with a fixed message (`SaveValidationFailed`) in place of the persistence provider's, and keeps the violations.
- `ArquivoService.java` validates with `ArquivoDto.Create` (line 63) and `ArquivoDto.Update` (line 97), but `ArquivoDto.java` declares no such group interfaces. The model keeps the two groups as `OnCreate` and `OnUpdate` of the injected validator.
- The Jakarta validator is a parameter of each service. Only its semantics for the annotations on the re-registration DTO and entity are modelled, by `Validate`. `ArquivoDto` carries no annotations.
- The reflection helpers of `ArquivoTest.java`: runtime reflection. The legacy and camelCase names are fixed accessor tables instead (`GetterNamed`, `SetterNamed`).
- ArquivoEntity.Arquivo.Equals: does not model the `getClass()` comparison, because the model has no subclasses of Arquivo.
- ArquivoEntity.Arquivo.HashCode: takes `String.hashCode` as a parameter, so the name's part of the hash is not computed; the id's part is the Integer's own value.
- `Long id` in `Arquivo.java` is modelled as the Integer id that its callers use.
- String lengths count Dafny chars, not UTF-16 code units. The two counts differ only outside the Basic Multilingual Plane.
- ArquivoDtos.ArquivoDto.ToEntity: `ArquivoDto` does not define `toEntity`, although `ArquivoService.create` calls it. The model assumes a plain copy of all nine attributes, nulls included.
- The Escola entity is not part of this model. A school is reduced to its possibly-null `codigoescola`.
- `codigoescola` on a new Arquivo defaults to "", as `ArquivoLegacyFieldsTest.java` asserts. `ArquivoTest.java` also tolerates null there.
- The services start from whatever table the repository holds (a constructor parameter). Only the key fact is required of it: each row sits under its own key, and each file id is below the identity counter. Non-blank keys, rows without nulls and rows that pass the entity's validation are proved preserved (`RowsClean`), not assumed.
- `create` on the file service stops with `IdentityExhausted` when the identity counter is past `Integer.MAX_VALUE`. This stands in for the database's own failure, which the source does not handle.
