/** The legality rules a composite description applies to its finished field
    list: `validateIdentifiable` and `StoredField.validate`. */
module Validation {
  import opened Wrappers
  import opened TypeTerms
  import opened TypeDescriptions
  import opened StorageErrors

  /** `fields.first(where: { $0.name == name })`, as an index. */
  function FirstFieldNamed(fields: seq<StoredField>, name: string): (r: Option<nat>)
    ensures r.Some? ==> r.value < |fields| && fields[r.value].name == name
    ensures r.Some? ==> forall j :: 0 <= j < r.value ==> fields[j].name != name
    ensures r.None? <==> forall j :: 0 <= j < |fields| ==> fields[j].name != name
  {
    FirstIndex(fields, (f: StoredField) => f.name == name)
  }

  /** `validateIdentifiable()` */
  function ValidateIdentifiable(baseType: TypeTerm, fields: seq<StoredField>): Outcome<StorageError> {
    var isIdentifiable := IsIdentifiableType(baseType);
    match FirstFieldNamed(fields, "id")
    case Some(i) =>
      if !isIdentifiable then Fail(StoredTypeIsNotIdentifiable(baseType))
      else if IsOptional(fields[i].description) then Fail(IdentifierCannotBeOptional(baseType))
      else if !fields[i].description.Primitive? then Fail(IdentifierMustBePrimitive(baseType))
      else Pass
    case None =>
      if isIdentifiable then Fail(StoredTypeMissingIdentifier(baseType)) else Pass
  }

  /** `StoredField.validate(on:)` */
  function ValidateField(baseType: TypeTerm, field: StoredField): Outcome<StorageError> {
    var d := field.description;
    if d.OptionalDescription? && d.wrappedType.MultiValue? then
      Fail(MultiValueFieldsCannotBeOptional(baseType, field))
    else if d.OptionalDescription? && d.wrappedType.OptionalDescription? then
      Fail(OptionalFieldCannotNestOptional(baseType, field))
    else if d.MultiValue? && d.valueType.MultiValue? then
      Fail(MultiValueFieldsCannotBeNested(baseType, field))
    else if d.MultiValue? && d.valueType.OptionalDescription? then
      Fail(MultiValueFieldsCannotNestOptionals(baseType, field))
    else if d.MultiValue? && d.keyType.Some? && d.keyType.value.OptionalDescription? then
      Fail(DictionaryKeyCannotBeOptional(baseType, field))
    else if d.MultiValue? && d.keyType.Some? && !d.keyType.value.Primitive? then
      Fail(DictionaryKeyMustBePrimitive(baseType, field))
    else
      Pass
  }

  /** `for field in fields { try field.validate(on: baseType) }`, from index `i` on. */
  function ValidateFields(baseType: TypeTerm, fields: seq<StoredField>, i: nat): (r: Outcome<StorageError>)
    requires i <= |fields|
    ensures r.Pass? <==> forall j :: i <= j < |fields| ==> ValidateField(baseType, fields[j]).Pass?
    ensures r.Fail? ==> exists j :: i <= j < |fields| && r == ValidateField(baseType, fields[j])
                                   && forall k :: i <= k < j ==> ValidateField(baseType, fields[k]).Pass?
    decreases |fields| - i
  {
    if i == |fields| then Pass
    else match ValidateField(baseType, fields[i])
      case Fail(e) => Fail(e)
      case Pass => ValidateFields(baseType, fields, i + 1)
  }

  /** The identity rules, stated without their order: a field named `id` exists
      exactly when the type is identifiable, and the first such field is a
      non-optional primitive. */
  ghost predicate IdentityIsLegal(baseType: TypeTerm, fields: seq<StoredField>) {
    && ((exists j :: 0 <= j < |fields| && fields[j].name == "id") <==> IsIdentifiableType(baseType))
    && forall j :: 0 <= j < |fields| && fields[j].name == "id"
                   && (forall k :: 0 <= k < j ==> fields[k].name != "id") ==>
         !IsOptional(fields[j].description) && fields[j].description.Primitive?
  }

  /** The per-field rules, stated without their order. */
  ghost predicate FieldShapeIsLegal(d: TypeDescription) {
    && (d.OptionalDescription? ==> !d.wrappedType.MultiValue? && !d.wrappedType.OptionalDescription?)
    && (d.MultiValue? ==>
          && !d.valueType.MultiValue? && !d.valueType.OptionalDescription?
          && (d.keyType.Some? ==> d.keyType.value.Primitive?))
  }

  lemma IdentityRulesAreComplete(baseType: TypeTerm, fields: seq<StoredField>)
    ensures ValidateIdentifiable(baseType, fields).Pass? <==> IdentityIsLegal(baseType, fields)
  {
    var first := FirstFieldNamed(fields, "id");
    if first.Some? {
      var i := first.value;
      if IdentityIsLegal(baseType, fields) {
        assert !IsOptional(fields[i].description) && fields[i].description.Primitive?;
      }
    }
  }

  lemma FieldRulesAreComplete(baseType: TypeTerm, field: StoredField)
    ensures ValidateField(baseType, field).Pass? <==> FieldShapeIsLegal(field.description)
  {
  }

  /** On an identifiable type the optional-identifier check comes before the
      primitive check: an optional non-primitive `id` is reported as optional. */
  lemma IdentifierChecksInOrder(baseType: TypeTerm, fields: seq<StoredField>, i: nat)
    requires i < |fields| && fields[i].name == "id"
    requires forall k :: 0 <= k < i ==> fields[k].name != "id"
    ensures !IsIdentifiableType(baseType) ==>
              ValidateIdentifiable(baseType, fields) == Fail(StoredTypeIsNotIdentifiable(baseType))
    ensures IsIdentifiableType(baseType) && IsOptional(fields[i].description) ==>
              ValidateIdentifiable(baseType, fields) == Fail(IdentifierCannotBeOptional(baseType))
    ensures IsIdentifiableType(baseType) && !IsOptional(fields[i].description)
            && !fields[i].description.Primitive? ==>
              ValidateIdentifiable(baseType, fields) == Fail(IdentifierMustBePrimitive(baseType))
  {
    assert FirstFieldNamed(fields, "id") == Some(i);
  }

  /** An identifiable type without an `id` field is missing its identifier. */
  lemma MissingIdentifier(baseType: TypeTerm, fields: seq<StoredField>)
    requires IsIdentifiableType(baseType)
    requires forall k :: 0 <= k < |fields| ==> fields[k].name != "id"
    ensures ValidateIdentifiable(baseType, fields) == Fail(StoredTypeMissingIdentifier(baseType))
  {
  }

  /** The collection rules: nested collections and optional elements are
      rejected, keyless collections skip both key checks, and an optional map key
      is reported as optional (before the primitive-key check would run). */
  lemma MultiValueChecksInOrder(baseType: TypeTerm, field: StoredField)
    requires field.description.MultiValue?
    ensures field.description.valueType.MultiValue? ==>
              ValidateField(baseType, field) == Fail(MultiValueFieldsCannotBeNested(baseType, field))
    ensures field.description.valueType.OptionalDescription? ==>
              ValidateField(baseType, field) == Fail(MultiValueFieldsCannotNestOptionals(baseType, field))
    ensures field.description.keyType.None? && !field.description.valueType.MultiValue?
            && !field.description.valueType.OptionalDescription? ==>
              ValidateField(baseType, field) == Pass
    ensures !field.description.valueType.MultiValue? && !field.description.valueType.OptionalDescription?
            && field.description.keyType.Some? && field.description.keyType.value.OptionalDescription? ==>
              ValidateField(baseType, field) == Fail(DictionaryKeyCannotBeOptional(baseType, field))
    ensures !field.description.valueType.MultiValue? && !field.description.valueType.OptionalDescription?
            && field.description.keyType.Some? && !field.description.keyType.value.OptionalDescription?
            && !field.description.keyType.value.Primitive? ==>
              ValidateField(baseType, field) == Fail(DictionaryKeyMustBePrimitive(baseType, field))
    ensures !field.description.valueType.MultiValue? && !field.description.valueType.OptionalDescription?
            && field.description.keyType.Some? && field.description.keyType.value.Primitive? ==>
              ValidateField(baseType, field) == Pass
  {
  }

  /** The optional rules: an optional collection and a doubly optional field
      are rejected, in that order, and any other optional passes. */
  lemma OptionalChecksInOrder(baseType: TypeTerm, field: StoredField)
    requires field.description.OptionalDescription?
    ensures field.description.wrappedType.MultiValue? ==>
              ValidateField(baseType, field) == Fail(MultiValueFieldsCannotBeOptional(baseType, field))
    ensures field.description.wrappedType.OptionalDescription? ==>
              ValidateField(baseType, field) == Fail(OptionalFieldCannotNestOptional(baseType, field))
    ensures !field.description.wrappedType.MultiValue? && !field.description.wrappedType.OptionalDescription? ==>
              ValidateField(baseType, field) == Pass
  {
  }
}
