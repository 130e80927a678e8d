/** `StorageError`: the errors raised while describing stored types, and the
    hand-written `==` that decides when two of them count as the same error. */
module StorageErrors {
  import opened TypeTerms
  import opened TypeDescriptions

  /** An `any StoredType` value or an `any Error` value, known only by identity. */
  datatype Opaque = Opaque(id: nat)

  datatype StorageError =
    | StoredTypeMissingIdentifier(storedType: TypeTerm)
    | StoredTypeIsEmpty(storedType: TypeTerm)
    | StoredTypeIsNotIdentifiable(storedType: TypeTerm)
    | StoredTypeMustBeValueType(storedType: TypeTerm)
    | IdentifierCannotBeOptional(storedType: TypeTerm)
    | IdentifierMustBePrimitive(storedType: TypeTerm)
    | InvalidFieldName(storedType: TypeTerm, fieldName: string, keyPath: KeyPath)
    | UnknownFieldType(storedType: TypeTerm, fieldName: string, keyPath: KeyPath, fieldType: TypeTerm)
    | OptionalFieldCannotNestOptional(storedType: TypeTerm, field: StoredField)
    | MultiValueFieldsCannotBeOptional(storedType: TypeTerm, field: StoredField)
    | MultiValueFieldsCannotBeNested(storedType: TypeTerm, field: StoredField)
    | MultiValueFieldsCannotNestOptionals(storedType: TypeTerm, field: StoredField)
    | DictionaryKeyCannotBeOptional(storedType: TypeTerm, field: StoredField)
    | DictionaryKeyMustBePrimitive(storedType: TypeTerm, field: StoredField)
    | UnknownStoredType(value: Opaque)
    | Unknown(underlying: Opaque)

  /** ASCII lower-casing of one character. */
  function LowerChar(c: char): (r: char)
    ensures 'A' <= c <= 'Z' ==> r as int == c as int + 32
    ensures !('A' <= c <= 'Z') ==> r == c
  {
    if 'A' <= c <= 'Z' then (c as int + 32) as char else c
  }

  /** `String.lowercased()`, restricted to ASCII letters. */
  function Lowercased(s: string): (r: string)
    ensures |r| == |s|
    ensures forall i :: 0 <= i < |s| ==> r[i] == LowerChar(s[i])
  {
    seq(|s|, i requires 0 <= i < |s| => LowerChar(s[i]))
  }

  /** The custom `==`: the type-only cases compare their type; `invalidFieldName`
      compares type and name case-insensitively; `unknownFieldType` compares type
      and name only; the field-carrying cases compare type and `field.name`; every
      other pair, including `unknownStoredType` and `unknown` with themselves, is
      unequal. */
  predicate Equal(lhs: StorageError, rhs: StorageError) {
    match (lhs, rhs)
    case (StoredTypeMissingIdentifier(l), StoredTypeMissingIdentifier(r)) => l == r
    case (StoredTypeIsEmpty(l), StoredTypeIsEmpty(r)) => l == r
    case (StoredTypeIsNotIdentifiable(l), StoredTypeIsNotIdentifiable(r)) => l == r
    case (StoredTypeMustBeValueType(l), StoredTypeMustBeValueType(r)) => l == r
    case (IdentifierCannotBeOptional(l), IdentifierCannotBeOptional(r)) => l == r
    case (IdentifierMustBePrimitive(l), IdentifierMustBePrimitive(r)) => l == r
    case (InvalidFieldName(lType, lName, _), InvalidFieldName(rType, rName, _)) =>
      lType == rType && Lowercased(lName) == Lowercased(rName)
    case (UnknownFieldType(lType, lName, _, _), UnknownFieldType(rType, rName, _, _)) =>
      lType == rType && lName == rName
    case (MultiValueFieldsCannotBeOptional(lType, lField), MultiValueFieldsCannotBeOptional(rType, rField)) =>
      lType == rType && lField.name == rField.name
    case (OptionalFieldCannotNestOptional(lType, lField), OptionalFieldCannotNestOptional(rType, rField)) =>
      lType == rType && lField.name == rField.name
    case (MultiValueFieldsCannotBeNested(lType, lField), MultiValueFieldsCannotBeNested(rType, rField)) =>
      lType == rType && lField.name == rField.name
    case (DictionaryKeyCannotBeOptional(lType, lField), DictionaryKeyCannotBeOptional(rType, rField)) =>
      lType == rType && lField.name == rField.name
    case (DictionaryKeyMustBePrimitive(lType, lField), DictionaryKeyMustBePrimitive(rType, rField)) =>
      lType == rType && lField.name == rField.name
    case (MultiValueFieldsCannotNestOptionals(lType, lField), MultiValueFieldsCannotNestOptionals(rType, rField)) =>
      lType == rType && lField.name == rField.name
    case _ => false
  }

  /** The position of a case in the declaration, used to talk about "the same case". */
  function CaseIndex(e: StorageError): nat {
    match e
    case StoredTypeMissingIdentifier(_) => 0
    case StoredTypeIsEmpty(_) => 1
    case StoredTypeIsNotIdentifiable(_) => 2
    case StoredTypeMustBeValueType(_) => 3
    case IdentifierCannotBeOptional(_) => 4
    case IdentifierMustBePrimitive(_) => 5
    case InvalidFieldName(_, _, _) => 6
    case UnknownFieldType(_, _, _, _) => 7
    case OptionalFieldCannotNestOptional(_, _) => 8
    case MultiValueFieldsCannotBeOptional(_, _) => 9
    case MultiValueFieldsCannotBeNested(_, _) => 10
    case MultiValueFieldsCannotNestOptionals(_, _) => 11
    case DictionaryKeyCannotBeOptional(_, _) => 12
    case DictionaryKeyMustBePrimitive(_, _) => 13
    case UnknownStoredType(_) => 14
    case Unknown(_) => 15
  }

  predicate IsTypeOnly(e: StorageError) {
    CaseIndex(e) <= 5
  }

  predicate IsFieldCarrying(e: StorageError) {
    8 <= CaseIndex(e) <= 13
  }

  predicate IsOpaqueCase(e: StorageError) {
    e.UnknownStoredType? || e.Unknown?
  }

  /** Different cases are never equal. */
  lemma DifferentCasesAreUnequal(l: StorageError, r: StorageError)
    requires CaseIndex(l) != CaseIndex(r)
    ensures !Equal(l, r)
  {
  }

  /** The six type-only cases are equal exactly when they are the same case over the same type. */
  lemma TypeOnlyEquality(l: StorageError, r: StorageError)
    requires IsTypeOnly(l)
    ensures Equal(l, r) <==> CaseIndex(l) == CaseIndex(r) && l.storedType == r.storedType
  {
  }

  /** `invalidFieldName` ignores the key path and the case of the name. */
  lemma InvalidFieldNameEquality(l: StorageError, r: StorageError)
    requires l.InvalidFieldName? && r.InvalidFieldName?
    ensures Equal(l, r) <==> l.storedType == r.storedType && Lowercased(l.fieldName) == Lowercased(r.fieldName)
  {
  }

  /** `unknownFieldType` ignores the key path and the field type. */
  lemma UnknownFieldTypeEquality(l: StorageError, r: StorageError)
    requires l.UnknownFieldType? && r.UnknownFieldType?
    ensures Equal(l, r) <==> l.storedType == r.storedType && l.fieldName == r.fieldName
  {
  }

  /** The field-carrying cases compare the type and the field's name only. */
  lemma FieldCarryingEquality(l: StorageError, r: StorageError)
    requires IsFieldCarrying(l)
    ensures Equal(l, r) <==> CaseIndex(l) == CaseIndex(r) && l.storedType == r.storedType
                             && l.field.name == r.field.name
  {
  }

  /** `==` is reflexive on every case except `unknownStoredType` and `unknown`,
      which are unequal even to themselves. */
  lemma ReflexiveExactlyOffOpaqueCases(e: StorageError)
    ensures Equal(e, e) <==> !IsOpaqueCase(e)
  {
  }

  lemma EqualIsSymmetric(l: StorageError, r: StorageError)
    ensures Equal(l, r) <==> Equal(r, l)
  {
  }

  lemma EqualIsTransitive(a: StorageError, b: StorageError, c: StorageError)
    requires Equal(a, b) && Equal(b, c)
    ensures Equal(a, c)
  {
  }

  /** Equality of the payloads implies `==`, except on the two opaque cases. */
  lemma IdenticalErrorsAreEqual(l: StorageError, r: StorageError)
    requires l == r && !IsOpaqueCase(l)
    ensures Equal(l, r)
  {
  }

  /** Names that differ only in letter case belong to equal `invalidFieldName` errors. */
  lemma {:induction false} InvalidFieldNameIgnoresCase(t: TypeTerm, a: string, b: string, ka: KeyPath, kb: KeyPath)
    requires |a| == |b|
    requires forall i :: 0 <= i < |a| ==> a[i] == b[i] || LowerChar(a[i]) == b[i] || a[i] == LowerChar(b[i])
    ensures Equal(InvalidFieldName(t, a, ka), InvalidFieldName(t, b, kb))
  {
    forall i | 0 <= i < |a|
      ensures Lowercased(a)[i] == Lowercased(b)[i]
    {
      LowerCharIdempotent(a[i]);
      LowerCharIdempotent(b[i]);
    }
  }

  lemma LowerCharIdempotent(c: char)
    ensures LowerChar(LowerChar(c)) == LowerChar(c)
  {
  }
}
