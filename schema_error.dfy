/** `Schema.Error`: the older error enum whose case names the schema tests use,
    its hand-written `==`, and how its cases correspond to `StorageError`'s. */
module SchemaErrors {
  import opened Wrappers
  import opened TypeTerms
  import SE = StorageErrors

  datatype SchemaError =
    | StoredTypeMissingIdentifier(storedType: TypeTerm)
    | StoredTypeIsEmpty(storedType: TypeTerm)
    | StoredTypeIsNotIdentifiable(storedType: TypeTerm)
    | StoredTypeIsNotValueType(storedType: TypeTerm)
    | IdentifierCannotBeOptional(storedType: TypeTerm)
    | IdentifierIsNotPrimitive(storedType: TypeTerm)
    | UnknownFieldType(storedType: TypeTerm, fieldName: string, keyPath: KeyPath, fieldType: TypeTerm)

  /** The custom `==`: same case and same type, and for `unknownFieldType` also
      the same name; key path and field type are ignored. */
  predicate Equal(lhs: SchemaError, rhs: SchemaError) {
    match (lhs, rhs)
    case (StoredTypeMissingIdentifier(l), StoredTypeMissingIdentifier(r)) => l == r
    case (StoredTypeIsEmpty(l), StoredTypeIsEmpty(r)) => l == r
    case (StoredTypeIsNotIdentifiable(l), StoredTypeIsNotIdentifiable(r)) => l == r
    case (StoredTypeIsNotValueType(l), StoredTypeIsNotValueType(r)) => l == r
    case (IdentifierCannotBeOptional(l), IdentifierCannotBeOptional(r)) => l == r
    case (IdentifierIsNotPrimitive(l), IdentifierIsNotPrimitive(r)) => l == r
    case (UnknownFieldType(lType, lName, _, _), UnknownFieldType(rType, rName, _, _)) =>
      lType == rType && lName == rName
    case _ => false
  }

  function CaseIndex(e: SchemaError): nat {
    match e
    case StoredTypeMissingIdentifier(_) => 0
    case StoredTypeIsEmpty(_) => 1
    case StoredTypeIsNotIdentifiable(_) => 2
    case StoredTypeIsNotValueType(_) => 3
    case IdentifierCannotBeOptional(_) => 4
    case IdentifierIsNotPrimitive(_) => 5
    case UnknownFieldType(_, _, _, _) => 6
  }

  /** Each of the six type-only cases is equal exactly when the case and the type match. */
  lemma TypeOnlyEquality(l: SchemaError, r: SchemaError)
    requires !l.UnknownFieldType?
    ensures Equal(l, r) <==> CaseIndex(l) == CaseIndex(r) && l.storedType == r.storedType
  {
  }

  lemma UnknownFieldTypeEquality(l: SchemaError, r: SchemaError)
    requires l.UnknownFieldType? && r.UnknownFieldType?
    ensures Equal(l, r) <==> l.storedType == r.storedType && l.fieldName == r.fieldName
  {
  }

  lemma DifferentCasesAreUnequal(l: SchemaError, r: SchemaError)
    requires CaseIndex(l) != CaseIndex(r)
    ensures !Equal(l, r)
  {
  }

  /** Unlike `StorageError`'s, this `==` is an equivalence relation. */
  lemma EqualIsEquivalence(a: SchemaError, b: SchemaError, c: SchemaError)
    ensures Equal(a, a)
    ensures Equal(a, b) <==> Equal(b, a)
    ensures Equal(a, b) && Equal(b, c) ==> Equal(a, c)
  {
  }

  /** The `StorageError` case that each `Schema.Error` case became; the class
      and non-primitive identifier errors were renamed, and the multi-value,
      map-key, field-name and opaque cases have no older counterpart. */
  function FromStorageError(e: SE.StorageError): (r: Option<SchemaError>)
    ensures r.Some? <==> SE.CaseIndex(e) <= 5 || e.UnknownFieldType?
    ensures r.Some? ==> r.value.storedType == e.storedType
  {
    match e
    case StoredTypeMissingIdentifier(t) => Some(StoredTypeMissingIdentifier(t))
    case StoredTypeIsEmpty(t) => Some(StoredTypeIsEmpty(t))
    case StoredTypeIsNotIdentifiable(t) => Some(StoredTypeIsNotIdentifiable(t))
    case StoredTypeMustBeValueType(t) => Some(StoredTypeIsNotValueType(t))
    case IdentifierCannotBeOptional(t) => Some(IdentifierCannotBeOptional(t))
    case IdentifierMustBePrimitive(t) => Some(IdentifierIsNotPrimitive(t))
    case UnknownFieldType(t, n, k, f) => Some(UnknownFieldType(t, n, k, f))
    case _ => None
  }

  /** On the cases the two enums share, the two `==` agree. */
  lemma EqualityAgreesOnSharedCases(a: SE.StorageError, b: SE.StorageError)
    requires FromStorageError(a).Some? && FromStorageError(b).Some?
    ensures SE.Equal(a, b) <==> Equal(FromStorageError(a).value, FromStorageError(b).value)
  {
  }

  /** The case correspondence is one-to-one. */
  lemma FromStorageErrorPreservesCases(a: SE.StorageError, b: SE.StorageError)
    requires FromStorageError(a).Some? && FromStorageError(b).Some?
    ensures SE.CaseIndex(a) == SE.CaseIndex(b) <==>
            CaseIndex(FromStorageError(a).value) == CaseIndex(FromStorageError(b).value)
  {
  }
}
