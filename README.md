# ORM storage descriptions and relational compilers, in Dafny

This project models the core of the Swift ORM library `ORM`. That core has five parts:

- **Type descriptions.** A type that adopts `StoredType` is described as a primitive, an optional, a multi-value collection (array, set or dictionary) or a composite, a struct with stored fields. A composite rejects classes, empty types, badly formed identifiers and illegal field shapes. `StorageError` and the older `Schema.Error` are the errors, each with its own custom `==`.
- **The schema builder.** `Schema(types:)` classifies the root types. It then drains a first-in first-out worklist of descriptions, keeps one description per base type and derives `compositeTypes`, `baseTypes` and a lookup by type.
- **The SQLite compiler.** `SQLiteSchema` and `SQLiteTable.buildTables` turn every composite into a base table plus one join table per multi-value field. Each table gets a `CREATE TABLE` description and a prepared `INSERT … RETURNING` template.
- **The Core Data compiler.** `CoreDataEngine` turns every composite into an entity with one attribute per primitive or optional-primitive field, unique on `id` when the type is `Identifiable`.
- **Small internals.** `Bimap` is a two-way dictionary. `ArrayBuilder` is a result builder. `String(indent:)` and the line-joined `description` belong to `_HierarchicalStringConvertible`.

The host language's types and their runtime reflection are modelled by a finite `TypeTerm` datatype:

- the seventeen registered primitives;
- `Optional`, `Array`, `Set` and `Dictionary`, with their conditional `StoredType` conformance;
- user types, which carry their conformances, an optional raw value and their reflected fields.

Every field has an opaque key-path identity. Type identity (`ObjectIdentifier(baseType)`) is structural equality of `TypeTerm`s.

Value-typed structures (`Schema`, `SQLiteTable`, `SQLiteSchema`) are datatypes. Their mutating loops are methods proved equal to specification functions, and the properties are lemmas about those functions. `Bimap`'s subscript setters update the structure in place, so `Bimap` is a class.

Where the library's documentation and its code differ, the model follows the code:

- `baseTypes` is the base types of every stored description, not only of the composites.
- A reference to an identifiable composite cascades on delete (`onDelete: .cascade`).
- The Core Data engine uses the primitive table as written, including the `UInt16` and `UInt32` rows that overflow (see "## Findings"). The corrected table is stated beside it and is not used by the engine.
- There is one deliberate exception to following the code. `SQLite+Schema.swift` carries a second, older copy of `buildTables`. Only the revision in `SQLiteTable.swift` is modelled.

## Model

| member | source | states |
|---|---|---|
| Wrappers.FirstIndex | Sources/ORM/StoredTypes/TypeDescriptions/CompositeTypeDescription.swift:39 | the index found is the first element satisfying the predicate; None exactly when none does |
| TypeTerms.Fields | Sources/ORM/StoredTypes/StoredType.swift:18-20 | the reflected (name, key path) pairs, one per declared field, in declaration order |
| TypeDescriptions.FieldDescriptions | Sources/ORM/StoredTypes/TypeDescriptions/CompositeTypeDescription.swift:17-19 | a composite's children are its fields' descriptions, one per field, in field order |
| TypeDescriptions.FlagsDependOnlyOnBaseType | Sources/ORM/StoredTypes/TypeDescriptions/StoredTypeDescription.swift:16-21 | `isIdentifiable` and `isOptional` are the same for any two descriptions of the same base type |
| TypeDescriptions.OptionalFlagMatchesKind | Sources/ORM/StoredTypes/TypeDescriptions/StoredTypeDescription.swift:19 | on well-formed descriptions `isOptional` holds exactly of optional descriptions |
| TypeDescriptions.CollectionIdentityDiffersFromElements | Sources/ORM/StoredTypes/TypeDescriptions/MultiValueTypeDescription.swift:20-49 | a collection's base type is never its element's or its key's, so the worklist never confuses the two |
| TypeDescriptions.OnlyCompositesAreIdentifiable | Sources/ORM/StoredTypes/TypeDescriptions/CompositeTypeDescription.swift:15 | among well-formed descriptions only composites are identifiable |
| TypeDescriptions.Size | Sources/ORM/StoredTypes/TypeDescriptions/StoredTypeDescription.swift:13 | every description counts at least one node; the measure the worklist decreases |
| TypeDescriptions.SizeAllAppend | Sources/ORM/Schema/Schema.swift:38-47 | the size of a worklist is additive over concatenation |
| TypeDescriptions.FieldsSizeIsSizeOfChildren | Sources/ORM/StoredTypes/TypeDescriptions/CompositeTypeDescription.swift:17-19 | a composite's fields weigh as much as its children |
| TypeDescriptions.ChildrenAreSmaller | Sources/ORM/StoredTypes/TypeDescriptions/StoredTypeDescription.swift:13 | a description is exactly one node more than all of its `transitiveTypeDescriptions` |
| StorageErrors.LowerChar | Sources/ORM/Engines/StorageError.swift:26 | ASCII upper-case letters map to lower case; every other character is unchanged |
| StorageErrors.Lowercased | Sources/ORM/Engines/StorageError.swift:26 | `lowercased()` keeps the length and lowers each character |
| StorageErrors.DifferentCasesAreUnequal | Sources/ORM/Engines/StorageError.swift:48-49 | errors of different cases are never equal |
| StorageErrors.TypeOnlyEquality | Sources/ORM/Engines/StorageError.swift:11-23 | the six type-only cases are equal iff same case and same type |
| StorageErrors.InvalidFieldNameEquality | Sources/ORM/Engines/StorageError.swift:25-26 | `invalidFieldName` is equal iff same type and case-insensitively equal names, ignoring the key path |
| StorageErrors.UnknownFieldTypeEquality | Sources/ORM/Engines/StorageError.swift:27-28 | `unknownFieldType` is equal iff same type and same name, ignoring key path and field type |
| StorageErrors.FieldCarryingEquality | Sources/ORM/Engines/StorageError.swift:30-46 | the six field-carrying cases are equal iff same case, same type and same field name |
| StorageErrors.ReflexiveExactlyOffOpaqueCases | Sources/ORM/Engines/StorageError.swift:48-49 | `e == e` holds for every case except `unknownStoredType` and `unknown` |
| StorageErrors.EqualIsSymmetric | Sources/ORM/Engines/StorageError.swift:9-51 | the custom `==` is symmetric |
| StorageErrors.EqualIsTransitive | Sources/ORM/Engines/StorageError.swift:9-51 | the custom `==` is transitive |
| StorageErrors.IdenticalErrorsAreEqual | Sources/ORM/Engines/StorageError.swift:9-51 | identical payloads compare equal, except on the two opaque cases |
| StorageErrors.InvalidFieldNameIgnoresCase | Sources/ORM/Engines/StorageError.swift:25-26 | names differing only in letter case give equal `invalidFieldName` errors, whatever the key paths |
| StorageErrors.LowerCharIdempotent | Sources/ORM/Engines/StorageError.swift:26 | lower-casing twice is lower-casing once |
| SchemaErrors.TypeOnlyEquality | Sources/ORM/Schema/SchemaError.swift:15-27 | the six type-only cases are equal iff same case and same type |
| SchemaErrors.UnknownFieldTypeEquality | Sources/ORM/Schema/SchemaError.swift:29-30 | `unknownFieldType` is equal iff same type and same name |
| SchemaErrors.DifferentCasesAreUnequal | Sources/ORM/Schema/SchemaError.swift:32-33 | errors of different cases are never equal |
| SchemaErrors.EqualIsEquivalence | Sources/ORM/Schema/SchemaError.swift:13-35 | this `==` is reflexive, symmetric and transitive |
| SchemaErrors.FromStorageError | Sources/ORM/Schema/SchemaError.swift:37-45 | exactly the six type-only cases and `unknownFieldType` have a `Schema.Error` counterpart, with the same type |
| SchemaErrors.EqualityAgreesOnSharedCases | Sources/ORM/Schema/SchemaError.swift:13-35 | on the shared cases the two enums' `==` agree |
| SchemaErrors.FromStorageErrorPreservesCases | Sources/ORM/Schema/SchemaError.swift:37-45 | the case correspondence between the two enums is one-to-one |
| Validation.FirstFieldNamed | Sources/ORM/StoredTypes/TypeDescriptions/CompositeTypeDescription.swift:39 | the first field with the name, or None exactly when no field has it |
| Validation.ValidateFields | Sources/ORM/StoredTypes/TypeDescriptions/CompositeTypeDescription.swift:32-34 | passes iff every field validates; a failure is the error of one of the fields |
| Validation.IdentityRulesAreComplete | Sources/ORM/StoredTypes/TypeDescriptions/CompositeTypeDescription.swift:37-51 | `validateIdentifiable` passes iff an `id` field exists exactly on identifiable types and is a non-optional primitive |
| Validation.FieldRulesAreComplete | Sources/ORM/StoredTypes/TypeDescriptions/CompositeTypeDescription.swift:56-90 | `validate(on:)` passes iff no optional wraps a collection or an optional, and no collection nests a collection or an optional or has a non-primitive or optional key |
| Validation.IdentifierChecksInOrder | Sources/ORM/StoredTypes/TypeDescriptions/CompositeTypeDescription.swift:39-46 | the errors for a present `id`: not identifiable, then optional, then non-primitive |
| Validation.MissingIdentifier | Sources/ORM/StoredTypes/TypeDescriptions/CompositeTypeDescription.swift:48-50 | an identifiable type with no `id` field fails with `storedTypeMissingIdentifier` |
| Validation.MultiValueChecksInOrder | Sources/ORM/StoredTypes/TypeDescriptions/CompositeTypeDescription.swift:68-89 | a nested collection, then an optional element, then an optional key, then a non-primitive key, each with its own error; a keyless or primitive-keyed collection with a legal element passes |
| Validation.OptionalChecksInOrder | Sources/ORM/StoredTypes/TypeDescriptions/CompositeTypeDescription.swift:58-66 | an optional collection fails with `multiValueFieldsCannotBeOptional`, then a doubly optional field with `optionalFieldCannotNestOptional`; any other optional passes |
| Classifier.Classify | Sources/ORM/StoredTypes/TypeDescriptions/PrimitiveTypeDescription.swift:10-130 | a successful description has the classified type as base type and is well formed |
| Classifier.CompositeOf | Sources/ORM/StoredTypes/TypeDescriptions/CompositeTypeDescription.swift:25-35 | an accepted composite is named after the type, has it as base type and is well formed |
| Classifier.StoredFieldsFrom | Sources/ORM/StoredTypes/StoredField.swift:12-20 | succeeds iff every reflected field classifies; then one stored field per reflected field, in order; a failure is the error of some field |
| Classifier.ClassifyField | Sources/ORM/StoredTypes/StoredField.swift:32-52 | a stored field keeps the name and key path and has a well-formed description of the field type or of its raw value |
| Classifier.RawDescription | Sources/ORM/StoredTypes/TypeDescriptions/PrimitiveTypeDescription.swift:132-141 | a raw-representable's description is its raw value's, well formed |
| Classifier.StoredFields | Sources/ORM/StoredTypes/StoredField.swift:12-20 | the append loop computes `StoredFieldsFrom(t, 0)` |
| Classifier.FirstFailureAborts | Sources/ORM/StoredTypes/StoredField.swift:15-17 | the first field that fails to classify decides the error |
| Classifier.FieldForKeyPath | Sources/ORM/StoredTypes/StoredField.swift:59-67 | an unknown key path gives `unknownFieldType` with an empty name; a known one gives its first field's classification |
| Classifier.PrimitivesDescribeThemselves | Sources/ORM/StoredTypes/TypeDescriptions/PrimitiveTypeDescription.swift:10-17 | every registered primitive is a childless, non-optional, non-identifiable primitive description of itself |
| Classifier.OptionalWrapsItsElement | Sources/ORM/StoredTypes/TypeDescriptions/PrimitiveTypeDescription.swift:19-28 | `Optional<T>` succeeds iff `T` does, then wraps `T`'s description under the optional's base type; otherwise `T`'s error |
| Classifier.ArrayIsOrderedAndKeyless | Sources/ORM/StoredTypes/TypeDescriptions/MultiValueTypeDescription.swift:20-28 | an array is an ordered keyless collection of its element's description, or has its element's error |
| Classifier.SetIsUnorderedAndKeyless | Sources/ORM/StoredTypes/TypeDescriptions/MultiValueTypeDescription.swift:30-38 | a set is an unordered keyless collection of its element's description, or has its element's error |
| Classifier.DictionaryIsUnorderedWithKey | Sources/ORM/StoredTypes/TypeDescriptions/MultiValueTypeDescription.swift:40-49 | a dictionary is unordered with a key; the key's error comes before the value's |
| Classifier.ClassesAreRejected | Sources/ORM/StoredTypes/TypeDescriptions/CompositeTypeDescription.swift:21-23 | a class always fails with `storedTypeMustBeValueType` |
| Classifier.ValueTypesAreComposites | Sources/ORM/StoredTypes/StoredType.swift:22-26 | a user value type is classified as a composite |
| Classifier.RawDescriptionDelegates | Sources/ORM/StoredTypes/TypeDescriptions/PrimitiveTypeDescription.swift:134-140 | nothing exactly when the raw value is not a stored type, otherwise the raw value's classification |
| Classifier.FieldClassificationCases | Sources/ORM/StoredTypes/StoredField.swift:38-51 | stored field type first, then a stored raw value, else `unknownFieldType(owner, name, keyPath, type)` |
| Classifier.EmptyTypesAreRejected | Sources/ORM/StoredTypes/TypeDescriptions/CompositeTypeDescription.swift:30 | a struct without fields fails with `storedTypeIsEmpty` |
| Classifier.FieldErrorsComeFirst | Sources/ORM/StoredTypes/TypeDescriptions/CompositeTypeDescription.swift:28-34 | a field classification error precedes the emptiness and every legality check |
| Classifier.IdentityErrorsPrecedeFieldErrors | Sources/ORM/StoredTypes/TypeDescriptions/CompositeTypeDescription.swift:31-34 | identity errors are raised before any per-field validation error |
| Classifier.CompositeAcceptance | Sources/ORM/StoredTypes/TypeDescriptions/CompositeTypeDescription.swift:25-35 | accepted iff fields classify, exist, satisfy identity and shape rules; the result lists the fields in order |
| Classifier.SameBaseTypeSameDescription | Sources/ORM/Schema/Schema.swift:40-41 | two canonical descriptions with one base type are identical, so deduplicating by type loses nothing |
| Classifier.FieldDescriptionIsCanonical | Sources/ORM/StoredTypes/StoredField.swift:38-47 | a classified field's description is what its base type classifies to |
| Classifier.ChildrenOfCanonicalAreCanonical | Sources/ORM/StoredTypes/TypeDescriptions/StoredTypeDescription.swift:13 | the children of a canonical description are canonical |
| Classifier.CompositeChildrenAreCanonical | Sources/ORM/StoredTypes/TypeDescriptions/CompositeTypeDescription.swift:17-19 | the children of an accepted composite are canonical |
| SchemaBuilder.BaseTypes | Sources/ORM/Schema/Schema.swift:50 | one base type per stored description, in order |
| SchemaBuilder.Composites | Sources/ORM/Schema/Schema.swift:51 | exactly the composite descriptions |
| SchemaBuilder.Primitives | Sources/ORM/Schema/Schema.swift:14-16 | exactly the primitive descriptions |
| SchemaBuilder.MultiValues | Sources/ORM/Schema/Schema.swift:18-20 | exactly the multi-value descriptions |
| SchemaBuilder.CompositesDistribute | Sources/ORM/Schema/Schema.swift:51 | the filter keeps the stored order |
| SchemaBuilder.PrimitivesDistribute | Sources/ORM/Schema/Schema.swift:14-16 | the primitive filter distributes over concatenation, so it keeps the stored order |
| SchemaBuilder.MultiValuesDistribute | Sources/ORM/Schema/Schema.swift:18-20 | the multi-value filter distributes over concatenation, so it keeps the stored order |
| SchemaBuilder.LookupOf | Sources/ORM/Schema/Schema.swift:53-55 | the lookup's keys are the composites' base types, each mapped to a composite of that type |
| SchemaBuilder.SchemaFrom | Sources/ORM/Schema/Schema.swift:49-55 | keeps the given stored list; `compositeTypes` holds exactly its composites; `baseTypes` has one base type per stored description, in order; the lookup's keys are exactly the composites' base types, each mapped to a composite of that type |
| SchemaBuilder.ClassifyRootsFrom | Sources/ORM/Schema/Schema.swift:33 | succeeds iff every root classifies; then one description per root, in order |
| SchemaBuilder.FirstRootFailureAborts | Sources/ORM/Schema/Schema.swift:33 | the first root that fails decides the error |
| SchemaBuilder.StepShrinks | Sources/ORM/Schema/Schema.swift:38-47 | replacing the head by its children shrinks the worklist, so the loop ends |
| SchemaBuilder.SchemaOfTypes | Sources/ORM/Schema/Schema.swift:26-29 | the variadic initialiser is `Schema(types: [first] + types)`; a bad first type is its error |
| SchemaBuilder.BuildSchema | Sources/ORM/Schema/Schema.swift:31-56 | the imperative initialiser computes `SchemaOf(types)` |
| SchemaBuilder.TraverseExtends | Sources/ORM/Schema/Schema.swift:43 | descriptions already kept stay kept, in place |
| SchemaBuilder.TraverseKeepsDistinct | Sources/ORM/Schema/Schema.swift:40-41 | every base type is kept at most once and every pending one is kept |
| SchemaBuilder.TraverseIsClosed | Sources/ORM/Schema/Schema.swift:45 | every child of a kept description has its base type kept |
| SchemaBuilder.TraverseDiscovers | Sources/ORM/Schema/Schema.swift:38-47 | every kept description is a root or a child of one kept earlier |
| SchemaBuilder.TraverseByRounds | Sources/ORM/Schema/Schema.swift:38-47 | a FIFO worklist is drained in rounds: the new items of this round, then their children |
| SchemaBuilder.RoundKeepsHead | Sources/ORM/Schema/Schema.swift:40-45 | one round with a new head keeps it and queues its children |
| SchemaBuilder.NewInKeepsHead | Sources/ORM/Schema/Schema.swift:40-43 | a head with a new base type starts the round's kept list |
| SchemaBuilder.TraverseStep | Sources/ORM/Schema/Schema.swift:39-45 | a seen head is dropped; a new head is kept, marked seen, and its children are queued |
| SchemaBuilder.CanonicalAt | Sources/ORM/Schema/Schema.swift:38-47 | a description reached from canonical roots is canonical |
| SchemaBuilder.NewInKeepsFirstOccurrences | Sources/ORM/Schema/Schema.swift:40-43 | one description per new base type, taken from the round |
| SchemaBuilder.CompositesKeepDistinct | Sources/ORM/Schema/Schema.swift:51 | the composites of a deduplicated list are deduplicated |
| SchemaBuilder.LookupFindsComposites | Sources/ORM/Schema/Schema.swift:58-61 | `description(for:)` answers exactly the composite of the dynamic type, and nothing for other types |
| SchemaBuilder.RootErrorsAbort | Sources/ORM/Schema/Schema.swift:31-33 | a schema exists iff every root classifies; otherwise the first failing root's error |
| SchemaBuilder.Roots | Sources/ORM/Schema/Schema.swift:33 | one description per root, of that root's type |
| SchemaBuilder.SchemaIsDeduplicated | Sources/ORM/Schema/Schema.swift:40-51 | stored and composite types are deduplicated by type, every root type is among `baseTypes`, and `baseTypes` are the stored base types |
| SchemaBuilder.SchemaIsClosed | Sources/ORM/Schema/Schema.swift:38-47 | every child of a stored description is stored; every stored description is canonical and a root or reachable |
| SchemaBuilder.SchemaStartsWithRoots | Sources/ORM/Schema/Schema.swift:33-47 | breadth first: the distinct roots come first, in their order |
| SchemaBuilder.SchemaTraversesRoots | Sources/ORM/Schema/Schema.swift:31-56 | a schema of classifiable roots is the traversal of their descriptions |
| SchemaBuilder.RootBaseTypes | Sources/ORM/Schema/Schema.swift:33 | the roots' base types are the root types |
| StorageDescriptionTests.StoredTypeCannotBeAClass | Tests/ORMTests/StorageDescriptionTests.swift:7-10 | a class fails with `storedTypeIsNotValueType` |
| StorageDescriptionTests.StoredTypeCannotBeEmpty | Tests/ORMTests/StorageDescriptionTests.swift:12-15 | an empty struct fails with `storedTypeIsEmpty` |
| StorageDescriptionTests.StoredTypeCannotHaveOptionalIdentifier | Tests/ORMTests/StorageDescriptionTests.swift:17-23 | `id: String?` fails with `identifierCannotBeOptional` |
| StorageDescriptionTests.StoredTypeCannotHaveComplexIdentifier | Tests/ORMTests/StorageDescriptionTests.swift:25-31 | `id: Array<Int>` fails with `identifierIsNotPrimitive` |
| StorageDescriptionTests.StoredTypeCannotHaveComputedIdentifier | Tests/ORMTests/StorageDescriptionTests.swift:33-40 | a computed `id` fails with `storedTypeMissingIdentifier` |
| StorageDescriptionTests.StoredTypeCannotHaveNonStorableFields | Tests/ORMTests/StorageDescriptionTests.swift:42-49 | a non-storable field fails with `unknownFieldType(S, "i", …)` |
| StorageDescriptionTests.StoredTypeCanHaveRawRepresentableID | Tests/ORMTests/StorageDescriptionTests.swift:51-58 | a `String`-backed enum identifier is accepted |
| StorageDescriptionTests.StoredTypeCannotHaveComplexRawRepresentableID | Tests/ORMTests/StorageDescriptionTests.swift:60-67 | an array-backed raw identifier fails with `identifierIsNotPrimitive` |
| StorageDescriptionTests.CompositeRejectsWithIdentity | Sources/ORM/StoredTypes/TypeDescriptions/CompositeTypeDescription.swift:28-31 | a one-field struct that fails its identity rules fails with that error |
| StorageDescriptionTests.DuplicateRootsTraversal | Tests/ORMTests/StorageDescriptionTests.swift:69-76 | `Schema(S, S)` keeps `S` once |
| StorageDescriptionTests.OptionalChildTraversal | Tests/ORMTests/StorageDescriptionTests.swift:78-88 | `S { t: T? }` reaches `T?`, `T` and `String` |
| StorageDescriptionTests.SharedChildTraversal | Tests/ORMTests/StorageDescriptionTests.swift:90-103 | `A` and `B` sharing `C` keep `C` once |
| StorageDescriptionTests.SchemaIgnoresDuplicateDeclaredTypes | Tests/ORMTests/StorageDescriptionTests.swift:69-76 | one composite type |
| StorageDescriptionTests.SchemaFollowsTransitiveDeclaredTypes | Tests/ORMTests/StorageDescriptionTests.swift:78-88 | two composite types |
| StorageDescriptionTests.SchemaIgnoresTransitiveDuplicateTypes | Tests/ORMTests/StorageDescriptionTests.swift:90-103 | three composite types |
| StorageDescriptionTests.OneStringComposite | Tests/ORMTests/StorageDescriptionTests.swift:70-72 | `S { name: String }` is a one-field composite |
| StorageDescriptionTests.OneFieldComposite | Tests/ORMTests/StorageDescriptionTests.swift:79-81 | a plain struct with one legally shaped field is a one-field composite |
| SQLiteTables.IdField | Sources/ORM/Engines/SQLite/SQLiteTable.swift:100 | the `id` field exists iff some field is named `id`, and is that field |
| SQLiteTables.KeyPathsOf | Sources/ORM/Engines/SQLite/SQLiteTable.swift:52 | one key path per column, in column order |
| SQLiteTables.SqliteNamesOf | Sources/ORM/Engines/SQLite/SQLiteTable.swift:53 | one column name per column, in column order |
| SQLiteTables.FinalizeInitialization | Sources/ORM/Engines/SQLite/SQLiteTable.swift:51-60 | the insert lists every column, binds one parameter per column, returns `id` or `ROWID` as `id`, and leaves name, DDL and columns alone |
| SQLiteTables.FinalizedMatchesColumns | Sources/ORM/Engines/SQLite/SQLiteTable.swift:51-60 | every finalized table's insert matches its columns |
| SQLiteTables.InsertStatementFor | Sources/ORM/Engines/SQLite/SQLiteTable.swift:62-68 | `valueCount` copies of the row template, the rest of the statement unchanged, and the insert key paths |
| SQLiteTables.RowsBindEveryColumn | Sources/ORM/Engines/SQLite/SQLiteTable.swift:62-68 | on a finalized table every row binds exactly one parameter per column |
| SQLiteTables.BuildJoinTable | Sources/ORM/Engines/SQLite/SQLiteTable.swift:117-165 | the join-table branch builds `JoinTable(owner, field)` |
| SQLiteTables.BuildTables | Sources/ORM/Engines/SQLite/SQLiteTable.swift:73-170 | appends exactly `TablesFor(owner)`: the join tables in field order, then the base table |
| SQLiteTables.ColumnFields | Sources/ORM/Engines/SQLite/SQLiteTable.swift:75-116 | only fields that get a column |
| SQLiteTables.MultiValueFields | Sources/ORM/Engines/SQLite/SQLiteTable.swift:117 | only multi-value fields |
| SQLiteTables.SingleValueFields | Sources/ORM/Engines/SQLite/SQLiteTable.swift:75-116 | only fields that are not multi-value |
| SQLiteTables.ColumnsOf | Sources/ORM/Engines/SQLite/SQLiteTable.swift:86 | each field is recorded under its own name and key path |
| SQLiteTables.ColumnsOfAppend | Sources/ORM/Engines/SQLite/SQLiteTable.swift:86 | recording columns distributes over concatenation |
| SQLiteTables.PrimitiveFieldsAreRequiredColumns | Sources/ORM/Engines/SQLite/SQLiteTable.swift:76-86 | a primitive field is a NOT NULL column of its type, the primary key iff named `id` on an identifiable owner |
| SQLiteTables.OptionalPrimitivesAreNullableColumns | Sources/ORM/Engines/SQLite/SQLiteTable.swift:88-93 | an optional primitive is an unconstrained column of the wrapped type |
| SQLiteTables.RequiredReferences | Sources/ORM/Engines/SQLite/SQLiteTable.swift:95-107 | a composite field is a non-null foreign key to the target's `id` (cascade) or `ROWID` (integer) |
| SQLiteTables.OptionalReferences | Sources/ORM/Engines/SQLite/SQLiteTable.swift:109-115 | an optional composite is a nullable foreign key with no delete action |
| SQLiteTables.OtherFieldsLeaveBaseAlone | Sources/ORM/Engines/SQLite/SQLiteTable.swift:117-165 | the other fields leave the base table as it was |
| SQLiteTables.LegalFieldsGetColumnsUnlessMultiValue | Sources/ORM/Engines/SQLite/SQLiteTable.swift:75-117 | on validated fields a column is given iff the field is not multi-value |
| SQLiteTables.BaseColumnsFollowFields | Sources/ORM/Engines/SQLite/SQLiteTable.swift:74-116 | the base table keeps the composite's name, has no table constraint, and records the column fields in order |
| SQLiteTables.LegalColumnFields | Sources/ORM/Engines/SQLite/SQLiteTable.swift:75-117 | on validated fields every non-collection field gets a column |
| SQLiteTables.JoinTablesFollowFields | Sources/ORM/Engines/SQLite/SQLiteTable.swift:117-165 | one join table per multi-value field, in field order |
| SQLiteTables.JoinTableShape | Sources/ORM/Engines/SQLite/SQLiteTable.swift:120-163 | named `Owner_field`, a cascading `parent` key to the owner's `id`/`ROWID`, a key or order column, a nullable `processed`, one UNIQUE constraint, insert returning `ROWID` |
| SQLiteTables.JoinTableValues | Sources/ORM/Engines/SQLite/SQLiteTable.swift:143-149 | a primitive element is a non-null `value` column, and a composite element is a cascading `value` foreign key |
| SQLiteTables.UniqueTupleByKind | Sources/ORM/Engines/SQLite/SQLiteTable.swift:123-161 | dictionaries are unique on (parent, key), arrays on (parent, order), sets on (parent, value) |
| SQLiteTables.TablesForShape | Sources/ORM/Engines/SQLite/SQLiteTable.swift:163-169 | the join tables come first, one per multi-value field in field order, and the base table comes last, named after the composite, with its insert finalized for its identifiability |
| SQLiteSchemas.Init | Sources/ORM/Engines/SQLite/SQLite+Schema.swift:17-24 | keeps the schema and builds exactly `AllTables(compositeTypes)` |
| SQLiteSchemas.TableCount | Sources/ORM/Engines/SQLite/SQLite+Schema.swift:21-23 | one table per composite plus one per multi-value field |
| SQLiteSchemas.PrefixTables | Sources/ORM/Engines/SQLite/SQLite+Schema.swift:21-23 | earlier composites' tables are never disturbed by later ones |
| SQLiteSchemas.TablesOfOneMore | Sources/ORM/Engines/SQLite/SQLite+Schema.swift:21-23 | one more composite appends exactly its own tables |
| SQLiteSchemas.EveryCompositeHasATable | Sources/ORM/Engines/SQLite/SQLite+Schema.swift:21-23 | every composite has a table named after it |
| SQLiteSchemas.BaseKeysReferToFields | Sources/ORM/Engines/SQLite/SQLiteTable.swift:95-115 | a base table's foreign keys reference composites its fields name |
| SQLiteSchemas.JoinKeysReferToField | Sources/ORM/Engines/SQLite/SQLiteTable.swift:127-148 | a join table references its owner or the field's element composite |
| SQLiteSchemas.JoinKeysReferToFields | Sources/ORM/Engines/SQLite/SQLiteTable.swift:117-165 | the same over all the join tables of a composite |
| SQLiteSchemas.TableKeysReferToFields | Sources/ORM/Engines/SQLite/SQLiteTable.swift:73-170 | every foreign key of a composite's tables names the composite or one its fields refer to |
| SQLiteSchemas.AllKeysReferWithin | Sources/ORM/Engines/SQLite/SQLite+Schema.swift:21-23 | every foreign key comes from some composite of the schema and names a type it can reference |
| SQLiteSchemas.ForeignKeysResolve | Sources/ORM/Engines/SQLite/SQLite+Schema.swift:17-24 | when the composites' references are closed, every foreign key names a generated table |
| SQLiteSchemas.SchemaReferencesAreClosed | Sources/ORM/Schema/Schema.swift:38-51 | a built schema's composites refer only to composites of the schema |
| SQLiteSchemas.SchemaTablesResolve | Sources/ORM/Engines/SQLite/SQLite+Schema.swift:17-24 | the SQLite schema of any built schema has no dangling foreign key |
| CoreDataModels.UnsignedValuesOverflowAsWritten | Sources/ORM/Engines/CoreDataEngine.swift:59-63 | as written, `UInt16` 40000 and `UInt32` 3000000000 exceed the signed attribute they map to |
| CoreDataModels.IntegerAttributesHoldTheirValues | Sources/ORM/Engines/CoreDataEngine.swift:53-69 | integer kinds map to integer attributes and nothing else does; with the widening, every kind narrower than 64 unsigned bits fits |
| CoreDataModels.CorrectionOnlyWidensUnsigned | Sources/ORM/Engines/CoreDataEngine.swift:53-69 | the corrected table differs only at `UInt16` and `UInt32`, and agrees wherever the written one fits |
| CoreDataModels.NonIntegerKindsAreDistinguished | Sources/ORM/Engines/CoreDataEngine.swift:64-69 | two different non-integer primitives never share an attribute type |
| CoreDataModels.AttributeFor | Sources/ORM/Engines/CoreDataEngine.swift:49-92 | an attribute exists iff the description is a primitive under optionals; it is named after the field and optional iff the description is optional |
| CoreDataModels.AttributeCases | Sources/ORM/Engines/CoreDataEngine.swift:49-92 | a primitive gives a required attribute of the type the written table assigns; an optional primitive gives an optional one; collections and composites give none |
| CoreDataModels.UnsignedFieldsOverflowInTheEngine | Sources/ORM/Engines/CoreDataEngine.swift:61-62 | a required or optional `UInt16`/`UInt32` field gets an attribute that cannot hold its values, where the corrected table's attribute can |
| CoreDataModels.WellFormedIsMappable | Sources/ORM/Engines/CoreDataEngine.swift:72-90 | well-formed descriptions never reach the fatal errors |
| CoreDataModels.Attributes | Sources/ORM/Engines/CoreDataEngine.swift:37-47 | the loop computes `AttributesOf(fields)` |
| CoreDataModels.AttributeFields | Sources/ORM/Engines/CoreDataEngine.swift:40-44 | only fields that give an attribute |
| CoreDataModels.AttributesFollowFields | Sources/ORM/Engines/CoreDataEngine.swift:37-47 | one attribute per attribute field, in field order, each the one `attribute(with:from:)` gives that field (so named after it, optional iff it is, typed by the written table) |
| CoreDataModels.LegalAttributeFields | Sources/ORM/Engines/CoreDataEngine.swift:81-84 | on validated fields attributes come exactly from primitive and optional-primitive fields |
| CoreDataModels.EntityFor | Sources/ORM/Engines/CoreDataEngine.swift:20-26 | named after the composite, unique on `["id"]` iff identifiable |
| CoreDataModels.BuildEntities | Sources/ORM/Engines/CoreDataEngine.swift:15-31 | one entity per composite, in schema order |
| CoreDataModels.SchemaIsModelable | Sources/ORM/Engines/CoreDataEngine.swift:15-31 | every built schema can be given to the engine without a fatal error |
| CoreDataEngineTests.SinglePropertyEntity | Tests/ORMTests/CoreDataEngineTests.swift:16-31 | `S { name: String }` classifies, the schema has exactly one composite, and its entity is named `S` with one required string attribute `name` and no uniqueness constraint |
| CoreDataEngineTests.SinglePropertyUniqueEntity | Tests/ORMTests/CoreDataEngineTests.swift:33-50 | identifiable `S { id: String }` classifies, the schema has exactly one composite, and its entity has one required string attribute `id` and the constraint `[["id"]]` |
| CoreDataEngineTests.StructAClassifies | Tests/ORMTests/CoreDataEngineTests.swift:53-56 | identifiable `A { id: String; value: Data? }` is described by a required `String` field and an optional `Data` field in declaration order |
| CoreDataEngineTests.StructBClassifies | Tests/ORMTests/CoreDataEngineTests.swift:58-61 | `B { timestamp: Date; message: String }` is described by a required `Date` field and a required `String` field |
| CoreDataEngineTests.MultipleSimpleSchema | Tests/ORMTests/CoreDataEngineTests.swift:63 | `Schema(A, B)` succeeds and its composites are exactly `A` then `B` |
| CoreDataEngineTests.MultipleSimpleTraversal | Tests/ORMTests/CoreDataEngineTests.swift:63 | the worklist over `A`, `B` keeps `A`, `B`, `String`, `Data?`, `Date`, `Data` in that order; the `String` both types hold is kept once |
| CoreDataEngineTests.EntityOfA | Tests/ORMTests/CoreDataEngineTests.swift:65-75 | `A`'s entity: a required string `id`, an optional binary `value`, unique on `id` |
| CoreDataEngineTests.EntityOfB | Tests/ORMTests/CoreDataEngineTests.swift:77-86 | `B`'s entity: a required date `timestamp`, a required string `message`, no uniqueness constraint |
| CoreDataEngineTests.MultipleSimpleEntities | Tests/ORMTests/CoreDataEngineTests.swift:52-87 | the engine over `A` and `B` builds two modelable entities, `A`'s then `B`'s, with the attributes and constraints above |
| Bimaps.MapOf | Sources/ORM/Internals/Bimap.swift:26 | the keys are the pairs' lefts, each mapped to its right |
| Bimaps.Flipped | Sources/ORM/Internals/Bimap.swift:27 | every pair swapped, in order |
| Bimaps.PairMapsAreInverse | Sources/ORM/Internals/Bimap.swift:25-28 | with unique lefts and rights the two dictionaries invert each other |
| Bimaps.Bimap.Empty | Sources/ORM/Internals/Bimap.swift:20-23 | both directions empty; every lookup is nil |
| Bimaps.Bimap.FromPairs | Sources/ORM/Internals/Bimap.swift:25-28 | every pair is found both ways and the two directions are inverse |
| Bimaps.Bimap.SetLeft | Sources/ORM/Internals/Bimap.swift:30-33 | updates or removes one left key; the right-to-left direction is untouched |
| Bimaps.Bimap.SetRight | Sources/ORM/Internals/Bimap.swift:35-38 | updates or removes one right key; the left-to-right direction is untouched |
| Bimaps.ClearedLeftStillFoundFromRight | Sources/ORM/Internals/Bimap.swift:30-38 | after clearing a left key its old partner still answers it |
| ArrayBuilders.Flatten | Sources/ORM/Internals/ArrayBuilder.swift:31-38 | the result's length is the sum of the component lengths, and a single component flattens to itself |
| ArrayBuilders.FlattenAppend | Sources/ORM/Internals/ArrayBuilder.swift:31-38 | flattening distributes over concatenation |
| ArrayBuilders.FlattenKeepsElements | Sources/ORM/Internals/ArrayBuilder.swift:31-38 | an element is in the result iff it is in some component |
| ArrayBuilders.SingleExpressionsRoundTrip | Sources/ORM/Internals/ArrayBuilder.swift:14-33 | a block of single expressions gives exactly those values, in order |
| ArrayBuilders.ConditionalComponentTakesItsBranch | Sources/ORM/Internals/ArrayBuilder.swift:52-70 | an `if`/`else` component of a block contributes exactly the taken branch's elements at its own position, with or without an availability check, and the final result is that block |
| ArrayBuilders.OptionalExpressionsKeepPresentValues | Sources/ORM/Internals/ArrayBuilder.swift:42-44 | a block of optional expressions keeps exactly the present values, in order |
| ArrayBuilders.OptionalArraysDefaultToEmpty | Sources/ORM/Internals/ArrayBuilder.swift:18-48 | a present optional array passes through and an absent one is the empty block |
| HierarchicalStrings.Indent | Sources/ORM/Internals/HierarchicalStringConvertible.swift:22-24 | `2 * level` spaces |
| HierarchicalStrings.IndentsAdd | Sources/ORM/Internals/HierarchicalStringConvertible.swift:22-24 | indents concatenate additively |
| HierarchicalStrings.JoinedNewlines | Sources/ORM/Internals/HierarchicalStringConvertible.swift:16-18 | joining adds one newline between consecutive lines |
| HierarchicalStrings.DescriptionNewlines | Sources/ORM/Internals/HierarchicalStringConvertible.swift:16-18 | `k` single-line entries give `k - 1` newlines; a single line is itself |

## Definitions

These functions and predicates model source code directly and carry no contract of their own. Each one is characterised by the lemmas and methods named beside it, which have rows in the table above.

| definition | source | characterised by |
|---|---|---|
| TypeTerms.IsStoredType | Sources/ORM/StoredTypes/StoredType.swift:10-14 | conformance to `StoredType`: unconditional for the primitives (PrimitiveTypeDescription.swift:30-130) and for user types that declare it, conditional for `Optional` (StoredType.swift:39-43) and the containers (MultiValueTypeDescription.swift:20-49). Characterised by Classify, FieldClassificationCases, OptionalWrapsItsElement, ArrayIsOrderedAndKeyless, SetIsUnorderedAndKeyless, DictionaryIsUnorderedWithKey |
| TypeTerms.IsIdentifiableType | Sources/ORM/StoredTypes/TypeDescriptions/CompositeTypeDescription.swift:38 | the test `baseType is any Identifiable.Type`, also behind `isIdentifiable` (StoredTypeDescription.swift:18). Characterised by IdentityRulesAreComplete, IdentifierChecksInOrder, MissingIdentifier, and through TypeDescriptions.IsIdentifiable by OnlyCompositesAreIdentifiable |
| TypeTerms.IsOptionalType | Sources/ORM/StoredTypes/TypeDescriptions/StoredTypeDescription.swift:19 | the test `baseType is any OptionalType.Type`. Characterised through TypeDescriptions.IsOptional by FlagsDependOnlyOnBaseType and OptionalFlagMatchesKind |
| TypeTerms.IsRawRepresentable | Sources/ORM/StoredTypes/StoredField.swift:44 | the cast `fieldType as? any RawRepresentable.Type`. Characterised by FieldClassificationCases and RawDescriptionDelegates |
| Classifier.FirstOfKeyPath | Sources/ORM/StoredTypes/StoredField.swift:61 | `first(where: { $1 == keyPath })` picks the earliest match. Characterised by FieldForKeyPath |
| TypeDescriptions.IsIdentifiable | Sources/ORM/StoredTypes/TypeDescriptions/StoredTypeDescription.swift:18 | FlagsDependOnlyOnBaseType, OnlyCompositesAreIdentifiable |
| TypeDescriptions.IsOptional | Sources/ORM/StoredTypes/TypeDescriptions/StoredTypeDescription.swift:19 | FlagsDependOnlyOnBaseType, OptionalFlagMatchesKind |
| TypeDescriptions.TransitiveTypeDescriptions | Sources/ORM/StoredTypes/TypeDescriptions/StoredTypeDescription.swift:13 | the protocol requirement; each case follows its conformance (PrimitiveTypeDescription.swift:12 and :22, CompositeTypeDescription.swift:17-19, MultiValueTypeDescription.swift:14-17). Characterised by FieldDescriptions, ChildrenAreSmaller and CollectionIdentityDiffersFromElements |
| StorageErrors.Equal | Sources/ORM/Engines/StorageError.swift:9-51 | DifferentCasesAreUnequal, TypeOnlyEquality, InvalidFieldNameEquality, UnknownFieldTypeEquality, FieldCarryingEquality, ReflexiveExactlyOffOpaqueCases, EqualIsSymmetric, EqualIsTransitive |
| SchemaErrors.Equal | Sources/ORM/Schema/SchemaError.swift:13-35 | TypeOnlyEquality, UnknownFieldTypeEquality, DifferentCasesAreUnequal, EqualIsEquivalence |
| Validation.ValidateIdentifiable | Sources/ORM/StoredTypes/TypeDescriptions/CompositeTypeDescription.swift:37-51 | IdentityRulesAreComplete, IdentifierChecksInOrder, MissingIdentifier |
| Validation.ValidateField | Sources/ORM/StoredTypes/TypeDescriptions/CompositeTypeDescription.swift:56-90 | FieldRulesAreComplete, OptionalChecksInOrder, MultiValueChecksInOrder, ValidateFields |
| SchemaBuilder.Traverse | Sources/ORM/Schema/Schema.swift:35-47 | TraverseStep, TraverseExtends, TraverseKeepsDistinct, TraverseIsClosed, TraverseDiscovers, TraverseByRounds |
| SchemaBuilder.SchemaOf | Sources/ORM/Schema/Schema.swift:31-56 | BuildSchema, RootErrorsAbort, SchemaIsDeduplicated, SchemaIsClosed, SchemaStartsWithRoots, SchemaTraversesRoots |
| SchemaBuilder.PrimitiveTypes | Sources/ORM/Schema/Schema.swift:14-16 | Primitives, PrimitivesDistribute |
| SchemaBuilder.MultiValueTypes | Sources/ORM/Schema/Schema.swift:18-20 | MultiValues, MultiValuesDistribute |
| SchemaBuilder.DescriptionFor | Sources/ORM/Schema/Schema.swift:58-61 | LookupFindsComposites |
| SQLiteTables.SqliteTypeName | Sources/ORM/Engines/SQLite/SQLiteTable.swift:78 | stands for `sqliteTypeName`, which the `SQLiteSyntax` package defines and which is not part of this model: a symbolic type name per primitive base type. Characterised by PrimitiveFieldsAreRequiredColumns, OptionalPrimitivesAreNullableColumns, JoinTableValues |
| SQLiteTables.IdTypeName | Sources/ORM/Engines/SQLite/SQLiteTable.swift:100-101 | `idField?.sqliteTypeName`, as also used at lines 113, 126 and 147. Characterised by IdField, RequiredReferences, OptionalReferences, JoinTableShape, JoinTableValues |
| SQLiteTables.RowKey | Sources/ORM/Engines/SQLite/SQLiteTable.swift:112 | `isIdentifiable ? "id" : "ROWID"`, as also written at lines 125 and 146. Characterised by OptionalReferences, JoinTableShape, JoinTableValues |
| SQLiteTables.AddColumn | Sources/ORM/Engines/SQLite/SQLiteTable.swift:136 | stands for `Table.Create.addColumn` of the `SQLiteSyntax` package, which is not part of this model; called at lines 136, 139, 144 and 156. Characterised by JoinTableShape, JoinTableValues, UniqueTupleByKind |
| SQLiteTables.AddForeignKey | Sources/ORM/Engines/SQLite/SQLiteTable.swift:101 | stands for `Table.Create.addForeignKey` of the `SQLiteSyntax` package, which is not part of this model; called at lines 101, 105, 114, 127-132 and 148. Characterised by RequiredReferences, OptionalReferences, JoinTableShape, JoinTableValues |
| SQLiteTables.GetsColumn | Sources/ORM/Engines/SQLite/SQLiteTable.swift:76-115 | the four `if let` branches that add to the base table. Characterised by ColumnFields, LegalFieldsGetColumnsUnlessMultiValue, OtherFieldsLeaveBaseAlone |
| SQLiteTables.ReferenceTo | Sources/ORM/Engines/SQLite/SQLiteTable.swift:95-115 | the foreign key of a composite or optional-composite field. Characterised by RequiredReferences, OptionalReferences |
| SQLiteTables.BaseTable | Sources/ORM/Engines/SQLite/SQLiteTable.swift:74-116 | the base table after the loop has seen the first `i` fields. Characterised by BaseColumnsFollowFields, SQLiteSchemas.BaseKeysReferToFields |
| SQLiteTables.UniqueTuple | Sources/ORM/Engines/SQLite/SQLiteTable.swift:123-154 | the columns appended to `uniqueTuple`. Characterised by UniqueTupleByKind |
| SQLiteTables.JoinTables | Sources/ORM/Engines/SQLite/SQLiteTable.swift:117-165 | the join tables the loop appends for the first `i` fields. Characterised by JoinTablesFollowFields, TablesForShape |
| SQLiteTables.NewTable | Sources/ORM/Engines/SQLite/SQLiteTable.swift:40-49 | BaseColumnsFollowFields, JoinTableShape |
| SQLiteTables.Finalized | Sources/ORM/Engines/SQLite/SQLiteTable.swift:51-60 | FinalizeInitialization, FinalizedMatchesColumns |
| SQLiteTables.WithBaseField | Sources/ORM/Engines/SQLite/SQLiteTable.swift:75-116 | PrimitiveFieldsAreRequiredColumns, OptionalPrimitivesAreNullableColumns, RequiredReferences, OptionalReferences, OtherFieldsLeaveBaseAlone |
| SQLiteTables.JoinTable | Sources/ORM/Engines/SQLite/SQLiteTable.swift:117-165 | BuildJoinTable, JoinTableShape, JoinTableValues, UniqueTupleByKind |
| SQLiteTables.TablesFor | Sources/ORM/Engines/SQLite/SQLiteTable.swift:73-170 | BuildTables, TablesForShape |
| SQLiteSchemas.AllTables | Sources/ORM/Engines/SQLite/SQLite+Schema.swift:17-24 | Init, TableCount, PrefixTables, TablesOfOneMore, EveryCompositeHasATable, ForeignKeysResolve |
| CoreDataModels.Mappable | Sources/ORM/Engines/CoreDataEngine.swift:72-74 | the descriptions that reach neither `fatalError` (lines 72-74 and 89-91). Characterised by WellFormedIsMappable |
| CoreDataModels.PrimitiveUnderOptionals | Sources/ORM/Engines/CoreDataEngine.swift:50-88 | the descriptions `attribute(with:from:)` returns an attribute for. Characterised by AttributeFor, AttributeCases |
| CoreDataModels.AttributeTypeAsWritten | Sources/ORM/Engines/CoreDataEngine.swift:52-71 | UnsignedValuesOverflowAsWritten, CorrectionOnlyWidensUnsigned, AttributeCases |
| CoreDataModels.AttributeTypeOf | Sources/ORM/Engines/CoreDataEngine.swift:61-62 | IntegerAttributesHoldTheirValues, CorrectionOnlyWidensUnsigned, NonIntegerKindsAreDistinguished |
| CoreDataModels.AttributesOf | Sources/ORM/Engines/CoreDataEngine.swift:37-47 | Attributes, AttributesFollowFields |
| Bimaps.Bimap.Left | Sources/ORM/Internals/Bimap.swift:31 | Bimap.Empty, Bimap.FromPairs, Bimap.SetLeft, ClearedLeftStillFoundFromRight |
| Bimaps.Bimap.Right | Sources/ORM/Internals/Bimap.swift:36 | Bimap.Empty, Bimap.FromPairs, Bimap.SetRight, ClearedLeftStillFoundFromRight |
| ArrayBuilders.BuildExpression | Sources/ORM/Internals/ArrayBuilder.swift:14-16 | SingleExpressionsRoundTrip |
| ArrayBuilders.BuildArrayExpression | Sources/ORM/Internals/ArrayBuilder.swift:18-20 | OptionalArraysDefaultToEmpty |
| ArrayBuilders.BuildEmptyBlock | Sources/ORM/Internals/ArrayBuilder.swift:23-25 | OptionalArraysDefaultToEmpty |
| ArrayBuilders.BuildBlock | Sources/ORM/Internals/ArrayBuilder.swift:27-29 | SingleExpressionsRoundTrip |
| ArrayBuilders.BuildBlockOfArrays | Sources/ORM/Internals/ArrayBuilder.swift:31-33 | Flatten, FlattenAppend, FlattenKeepsElements, SingleExpressionsRoundTrip, OptionalExpressionsKeepPresentValues |
| ArrayBuilders.BuildArray | Sources/ORM/Internals/ArrayBuilder.swift:36-38 | Flatten, FlattenAppend, OptionalArraysDefaultToEmpty |
| ArrayBuilders.BuildOptionalExpression | Sources/ORM/Internals/ArrayBuilder.swift:42-44 | OptionalExpressionsKeepPresentValues |
| ArrayBuilders.BuildOptionalArrayExpression | Sources/ORM/Internals/ArrayBuilder.swift:46-48 | OptionalArraysDefaultToEmpty |
| ArrayBuilders.BuildEitherFirst | Sources/ORM/Internals/ArrayBuilder.swift:52-54 | ConditionalComponentTakesItsBranch |
| ArrayBuilders.BuildEitherSecond | Sources/ORM/Internals/ArrayBuilder.swift:56-58 | ConditionalComponentTakesItsBranch |
| ArrayBuilders.BuildLimitedAvailability | Sources/ORM/Internals/ArrayBuilder.swift:62-64 | ConditionalComponentTakesItsBranch |
| ArrayBuilders.BuildFinalResult | Sources/ORM/Internals/ArrayBuilder.swift:68-70 | ConditionalComponentTakesItsBranch |
| HierarchicalStrings.Joined | Sources/ORM/Internals/HierarchicalStringConvertible.swift:17 | JoinedNewlines |
| HierarchicalStrings.Description | Sources/ORM/Internals/HierarchicalStringConvertible.swift:16-18 | DescriptionNewlines |

## Left out

- Reflection. `Mirror`-based field enumeration, key paths and metatype casts are replaced by the `TypeTerm` datatype. Key paths are opaque identities, and `any StoredType` / `any Error` payloads are opaque values.
- Recursive types. A self-referencing stored type never finishes classification in the library. `TypeTerm` is a finite tree, so the model cannot express one.
- I/O and concurrency. `SQLiteSchema.build(into:)`, `create(using:)`, the SQLite connection and transaction, and the `actor` isolation of `CoreDataEngine` are not modelled.
- SQL rendering. The `SQLiteSyntax` package, `Name`, `sql()` and every rendered string are outside this model. Its helpers are modelled by their evident effect:
  - `sqliteTypeName` is a symbolic type name per primitive.
  - `idField` is the first field named `id`.
  - `addColumn` and `addForeignKey` append to separate lists, so the relative order of columns and table-level foreign keys in the DDL is not modelled.
- Older `buildTables`. The second copy, `SQLite+Schema.swift:36-133`, is not the one the library compiles against its current `SQLiteTable`. It is not modelled.
- Join-table inserts. Join tables never fill `columns` in the code, so their insert templates list no columns and bind nothing. The model keeps this as written.
- Relationships. The Core Data tests that expect relationship properties and particular delete rules describe behaviour the engine does not build. The engine builds attributes only, and so does the model. `NSManagedObjectModel` and friends are records.
- StorageErrors.Lowercased: lower-cases ASCII only. Swift's `lowercased()` is Unicode-aware.
- StorageErrors.LowerChar: maps `A`-`Z` to `a`-`z` and leaves every other character alone. This is where `Lowercased` loses Swift's Unicode-aware case mapping.
- Classifier.FieldForKeyPath: the result is tied to the first field with the key path. The model does not add that this field is unique, which the library does not promise.
- `invalidFieldName`. No code path raises it, so it appears only in the `==` lemmas.
- Error enums. `Schema(types:)` throws `StorageError`, but the schema tests expect `Schema.Error` cases, and `CoreDataEngine.init(schema:)` is declared to throw `Schema.Error`. No code converts one into the other. `SchemaErrors.FromStorageError` is a correspondence the model adds so that the tests' expected errors can be compared with what the classifier raises. It carries the seven shared cases across and maps the other nine to `None`: `invalidFieldName`, `optionalFieldCannotNestOptional`, `multiValueFieldsCannotBeOptional`, `multiValueFieldsCannotBeNested`, `multiValueFieldsCannotNestOptionals`, `dictionaryKeyCannotBeOptional`, `dictionaryKeyMustBePrimitive`, `unknownStoredType` and `unknown`.
- Fatal errors are preconditions.
  - `Dictionary(uniqueKeysWithValues:)` traps on repeated keys, so `Bimaps.Bimap.FromPairs` requires unique lefts and rights.
  - An unknown primitive in `attribute(with:from:)` traps, so `CoreDataModels.AttributeFor` requires `Mappable`. `WellFormedIsMappable` and `SchemaIsModelable` show that schemas always meet it.
  - `roots.removeFirst()` in `Schema(types:)` traps on an empty list, so `SchemaBuilder.SchemaOf`, `SchemaBuilder.BuildSchema` and the lemmas about them require at least one root.
  - `Array(repeating:count:)` traps on a negative count, so `SQLiteTables.InsertStatementFor` takes `valueCount` as a `nat`.
  - `String(repeating:count:)` traps on a negative count, so `HierarchicalStrings.Indent` takes `level` as a `nat`.
- Bimap aliasing. `Bimap` is a Swift struct with value semantics. The model is a class, so copy-on-write and the independence of copies are not captured.
- CoreDataModels.IntegerAttributesHoldTheirValues: `UInt` and `UInt64` still map to the signed 64-bit attribute in the corrected table, because Core Data has no wider integer attribute. The lemma therefore excludes them.
- `description` of `Bimap`, and the commented-out hierarchical descriptions of entities, attributes and constraints, are debugging text. They are not modelled.

## Findings

| source | as written | input that shows it | evidently intended | confidence | as-written member | corrected member |
|---|---|---|---|---|---|---|
| Sources/ORM/Engines/CoreDataEngine.swift:61-62 | `UInt16` maps to the signed 16-bit attribute and `UInt32` to the signed 32-bit one | a `UInt16` field holding 40000 (or a `UInt32` holding 3000000000) exceeds the attribute's maximum | widen to the next signed width, as the same table already does for `UInt8` (to integer16) | medium, not executed | CoreDataModels.UnsignedValuesOverflowAsWritten, CoreDataModels.UnsignedFieldsOverflowInTheEngine | CoreDataModels.IntegerAttributesHoldTheirValues |

The engine (`AttributeFor`, `AttributesOf`, `EntityFor`, `BuildEntities`) keeps the written table, so it models the code as it stands. The corrected table `AttributeTypeOf` and its lemma state what the widening would give.
