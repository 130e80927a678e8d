/** Classification of a declared type into its stored-type description:
    `storedTypeDescription` of the primitives, of `Optional`, of the
    collections, of a `RawRepresentable`, and of a composite (the default),
    together with the per-field classification `StoredField.init` and
    `storedFields`, and the key-path lookup `Fields`. */
module Classifier {
  import opened Wrappers
  import opened TypeTerms
  import opened TypeDescriptions
  import opened StorageErrors
  import opened Validation

  /** `T.storedTypeDescription` for a stored type `T`. */
  function Classify(t: TypeTerm): (r: Result<TypeDescription, StorageError>)
    requires IsStoredType(t)
    ensures r.Success? ==> r.value.baseType == t && WellFormed(r.value)
    decreases t, 3
  {
    match t
    case Prim(_) => Success(Primitive(t))
    case OptionalOf(w) =>
      var wrapped :- Classify(w);
      Success(OptionalDescription(t, wrapped))
    case ArrayOf(e) =>
      var value :- Classify(e);
      Success(MultiValue(t, true, None, value))
    case SetOf(e) =>
      var value :- Classify(e);
      Success(MultiValue(t, false, None, value))
    case DictionaryOf(k, v) =>
      var key :- Classify(k);
      var value :- Classify(v);
      Success(MultiValue(t, false, Some(key), value))
    case Nominal(_, isClass, _, _, _, _) =>
      if isClass then Failure(StoredTypeMustBeValueType(t)) else CompositeOf(t)
  }

  /** `CompositeTypeDescription.init` for a value type: classify the fields,
      then reject an empty type, then check identity, then each field in order. */
  function CompositeOf(t: TypeTerm): (r: Result<TypeDescription, StorageError>)
    requires t.Nominal? && t.conformsToStoredType && !t.isClass
    ensures r.Success? ==> r.value.Composite? && r.value.name == t.name && r.value.baseType == t
    ensures r.Success? ==> WellFormed(r.value)
    decreases t, 2
  {
    var fields :- StoredFieldsFrom(t, 0);
    if |fields| == 0 then Failure(StoredTypeIsEmpty(t))
    else match ValidateIdentifiable(t, fields)
      case Fail(e) => Failure(e)
      case Pass =>
        match ValidateFields(t, fields, 0)
        case Fail(e) => Failure(e)
        case Pass => Success(Composite(t.name, t, fields))
  }

  /** `storedFields`, from the `i`-th reflected field on: one stored field per
      reflected field, in order; the first field that fails aborts the list. */
  function StoredFieldsFrom(t: TypeTerm, i: nat): (r: Result<seq<StoredField>, StorageError>)
    requires t.Nominal? && i <= |t.fields|
    ensures r.Success? <==> forall j :: i <= j < |t.fields| ==> ClassifyField(t, t.fields[j]).Success?
    ensures r.Success? ==> |r.value| == |t.fields| - i
    ensures r.Success? ==> forall j :: 0 <= j < |r.value| ==> r.value[j] == ClassifyField(t, t.fields[i + j]).value
    ensures r.Failure? ==> exists j :: i <= j < |t.fields| && ClassifyField(t, t.fields[j]) == Failure(r.error)
                                       && forall k :: i <= k < j ==> ClassifyField(t, t.fields[k]).Success?
    decreases t, 1, |t.fields| - i
  {
    if i == |t.fields| then Success([])
    else
      var field :- ClassifyField(t, t.fields[i]);
      var rest :- StoredFieldsFrom(t, i + 1);
      Success([field] + rest)
  }

  /** `StoredField.init(baseType:name:keyPath:)`: a stored type takes its own
      description; otherwise a raw-representable type whose raw value is stored
      takes the raw value's; anything else is an unknown field type. */
  function ClassifyField(owner: TypeTerm, f: FieldDecl): (r: Result<StoredField, StorageError>)
    ensures r.Success? ==> r.value.name == f.name && r.value.keyPath == f.keyPath
    ensures r.Success? ==> WellFormed(r.value.description)
    ensures r.Success? && IsStoredType(f.fieldType) ==> r.value.description.baseType == f.fieldType
    ensures r.Success? && !IsStoredType(f.fieldType) ==>
              IsRawRepresentable(f.fieldType) && r.value.description.baseType == f.fieldType.rawValue.value
    decreases f.fieldType, 4
  {
    if IsStoredType(f.fieldType) then
      var d :- Classify(f.fieldType);
      Success(StoredField(f.name, f.keyPath, d))
    else if IsRawRepresentable(f.fieldType) then
      match RawDescription(f.fieldType)
      case Failure(e) => Failure(e)
      case Success(None) => Failure(UnknownFieldType(owner, f.name, f.keyPath, f.fieldType))
      case Success(Some(d)) => Success(StoredField(f.name, f.keyPath, d))
    else
      Failure(UnknownFieldType(owner, f.name, f.keyPath, f.fieldType))
  }

  /** `RawRepresentable.storedTypeDescription`: nothing when the raw value is not
      a stored type, else the raw value's description (or its error). */
  function RawDescription(t: TypeTerm): (r: Result<Option<TypeDescription>, StorageError>)
    requires IsRawRepresentable(t)
    ensures r.Success? && r.value.Some? ==> r.value.value.baseType == t.rawValue.value && WellFormed(r.value.value)
    decreases t, 3
  {
    var raw := t.rawValue.value;
    if !IsStoredType(raw) then Success(None)
    else
      var d :- Classify(raw);
      Success(Some(d))
  }

  /** The `storedFields` loop: appends one classified field per reflected field. */
  method StoredFields(t: TypeTerm) returns (r: Result<seq<StoredField>, StorageError>)
    requires t.Nominal?
    ensures r == StoredFieldsFrom(t, 0)
  {
    var fields: seq<StoredField> := [];
    for i := 0 to |t.fields|
      invariant |fields| == i
      invariant forall j :: 0 <= j < i ==>
                  ClassifyField(t, t.fields[j]).Success? && fields[j] == ClassifyField(t, t.fields[j]).value
    {
      var field := ClassifyField(t, t.fields[i]);
      if field.Failure? {
        FirstFailureAborts(t, 0, i);
        return Failure(field.error);
      }
      fields := fields + [field.value];
    }
    var spec := StoredFieldsFrom(t, 0);
    assert spec.Success?;
    assert spec.value == fields;
    return Success(fields);
  }

  /** When the fields from `start` up to `i` classify and field `i` does not,
      the list from `start` fails with field `i`'s error. */
  lemma {:induction false} FirstFailureAborts(t: TypeTerm, start: nat, i: nat)
    requires t.Nominal? && start <= i < |t.fields|
    requires forall k :: start <= k < i ==> ClassifyField(t, t.fields[k]).Success?
    requires ClassifyField(t, t.fields[i]).Failure?
    ensures StoredFieldsFrom(t, start) == Failure(ClassifyField(t, t.fields[i]).error)
    decreases i - start
  {
    if start < i {
      FirstFailureAborts(t, start + 1, i);
    }
  }

  /** `Fields<S>[dynamicMember:]`: the stored field whose reflected key path is
      `keyPath`, or `unknownFieldType` with an empty name when there is none.
      `valueType` is the key path's value type `V`. */
  function FieldForKeyPath(s: TypeTerm, keyPath: KeyPath, valueType: TypeTerm): (r: Result<StoredField, StorageError>)
    requires s.Nominal?
    ensures (forall i :: 0 <= i < |s.fields| ==> s.fields[i].keyPath != keyPath) ==>
            r == Failure(UnknownFieldType(s, "", keyPath, valueType))
    ensures r.Success? ==> r.value.keyPath == keyPath
    ensures forall i :: 0 <= i < |s.fields| && s.fields[i].keyPath == keyPath && FirstOfKeyPath(s.fields, keyPath, i) ==>
              r == ClassifyField(s, s.fields[i])
  {
    match FirstIndex(s.fields, (f: FieldDecl) => f.keyPath == keyPath)
    case None => Failure(UnknownFieldType(s, "", keyPath, valueType))
    case Some(i) =>
      assert FirstOfKeyPath(s.fields, keyPath, i);
      ClassifyField(s, s.fields[i])
  }

  /** No field before index `i` has key path `keyPath`. */
  predicate FirstOfKeyPath(fields: seq<FieldDecl>, keyPath: KeyPath, i: nat)
    requires i <= |fields|
  {
    forall k :: 0 <= k < i ==> fields[k].keyPath != keyPath
  }

  // ---------------------------------------------------------------------------
  // Properties of the classification

  /** Every registered primitive describes itself and has no children. */
  lemma PrimitivesDescribeThemselves(k: PrimKind)
    ensures Classify(Prim(k)) == Success(Primitive(Prim(k)))
    ensures TransitiveTypeDescriptions(Classify(Prim(k)).value) == []
    ensures !IsOptional(Classify(Prim(k)).value) && !IsIdentifiable(Classify(Prim(k)).value)
  {
  }

  /** `Optional<T>` is described by `T`'s description under the optional's own
      base type, and fails exactly when `T` does, with `T`'s error. */
  lemma OptionalWrapsItsElement(w: TypeTerm)
    requires IsStoredType(w)
    ensures Classify(OptionalOf(w)).Success? <==> Classify(w).Success?
    ensures Classify(w).Failure? ==> Classify(OptionalOf(w)) == Failure(Classify(w).error)
    ensures Classify(w).Success? ==>
              && Classify(OptionalOf(w)).value.OptionalDescription?
              && Classify(OptionalOf(w)).value.baseType == OptionalOf(w)
              && Classify(OptionalOf(w)).value.wrappedType == Classify(w).value
              && IsOptional(Classify(OptionalOf(w)).value)
              && TransitiveTypeDescriptions(Classify(OptionalOf(w)).value) == [Classify(w).value]
  {
  }

  /** An array is ordered and keyless; its element's failure is its failure. */
  lemma ArrayIsOrderedAndKeyless(e: TypeTerm)
    requires IsStoredType(e)
    ensures Classify(ArrayOf(e)).Success? <==> Classify(e).Success?
    ensures Classify(e).Failure? ==> Classify(ArrayOf(e)) == Failure(Classify(e).error)
    ensures Classify(e).Success? ==>
              && Classify(ArrayOf(e)).value.MultiValue?
              && Classify(ArrayOf(e)).value.baseType == ArrayOf(e)
              && Classify(ArrayOf(e)).value.isOrdered
              && Classify(ArrayOf(e)).value.keyType == None
              && Classify(ArrayOf(e)).value.valueType == Classify(e).value
              && TransitiveTypeDescriptions(Classify(ArrayOf(e)).value) == [Classify(e).value]
  {
  }

  /** A set is unordered and keyless; its element's failure is its failure. */
  lemma SetIsUnorderedAndKeyless(e: TypeTerm)
    requires IsStoredType(e)
    ensures Classify(SetOf(e)).Success? <==> Classify(e).Success?
    ensures Classify(e).Failure? ==> Classify(SetOf(e)) == Failure(Classify(e).error)
    ensures Classify(e).Success? ==>
              && Classify(SetOf(e)).value.MultiValue?
              && Classify(SetOf(e)).value.baseType == SetOf(e)
              && !Classify(SetOf(e)).value.isOrdered
              && Classify(SetOf(e)).value.keyType == None
              && Classify(SetOf(e)).value.valueType == Classify(e).value
              && TransitiveTypeDescriptions(Classify(SetOf(e)).value) == [Classify(e).value]
  {
  }

  /** A dictionary is unordered with a key; the key is classified first, so a
      key error wins over a value error. */
  lemma DictionaryIsUnorderedWithKey(k: TypeTerm, v: TypeTerm)
    requires IsStoredType(k) && IsStoredType(v)
    ensures Classify(DictionaryOf(k, v)).Success? <==> Classify(k).Success? && Classify(v).Success?
    ensures Classify(k).Failure? ==> Classify(DictionaryOf(k, v)) == Failure(Classify(k).error)
    ensures Classify(k).Success? && Classify(v).Failure? ==>
              Classify(DictionaryOf(k, v)) == Failure(Classify(v).error)
    ensures Classify(k).Success? && Classify(v).Success? ==>
              && Classify(DictionaryOf(k, v)).value.MultiValue?
              && Classify(DictionaryOf(k, v)).value.baseType == DictionaryOf(k, v)
              && !Classify(DictionaryOf(k, v)).value.isOrdered
              && Classify(DictionaryOf(k, v)).value.keyType == Some(Classify(k).value)
              && Classify(DictionaryOf(k, v)).value.valueType == Classify(v).value
              && TransitiveTypeDescriptions(Classify(DictionaryOf(k, v)).value)
                 == [Classify(k).value, Classify(v).value]
  {
  }

  /** A class conforming to `StoredType` is always rejected, whatever its fields. */
  lemma ClassesAreRejected(t: TypeTerm)
    requires t.Nominal? && t.isClass && t.conformsToStoredType
    ensures Classify(t) == Failure(StoredTypeMustBeValueType(t))
  {
  }

  /** A value type with no specialised description is described as a composite. */
  lemma ValueTypesAreComposites(t: TypeTerm)
    requires t.Nominal? && !t.isClass && t.conformsToStoredType
    ensures Classify(t) == CompositeOf(t)
    ensures Classify(t).Success? ==> Classify(t).value.Composite?
  {
  }

  /** `RawRepresentable.storedTypeDescription` is nothing exactly when the raw
      value is not a stored type, and otherwise the raw value's own description. */
  lemma RawDescriptionDelegates(t: TypeTerm)
    requires IsRawRepresentable(t)
    ensures RawDescription(t) == Success(None) <==> !IsStoredType(t.rawValue.value)
    ensures IsStoredType(t.rawValue.value) ==>
              RawDescription(t) == match Classify(t.rawValue.value)
                                   case Success(d) => Success(Some(d))
                                   case Failure(e) => Failure(e)
  {
  }

  /** The three ways a field is classified: a stored field type wins (even when
      it is also raw-representable); then a raw value that is a stored type;
      anything else is an unknown field type naming the owner, field and type. */
  lemma FieldClassificationCases(owner: TypeTerm, f: FieldDecl)
    ensures IsStoredType(f.fieldType) ==>
              ClassifyField(owner, f) == match Classify(f.fieldType)
                                         case Success(d) => Success(StoredField(f.name, f.keyPath, d))
                                         case Failure(e) => Failure(e)
    ensures !IsStoredType(f.fieldType) && IsRawRepresentable(f.fieldType)
            && IsStoredType(f.fieldType.rawValue.value) ==>
              ClassifyField(owner, f) == match Classify(f.fieldType.rawValue.value)
                                         case Success(d) => Success(StoredField(f.name, f.keyPath, d))
                                         case Failure(e) => Failure(e)
    ensures !IsStoredType(f.fieldType)
            && (!IsRawRepresentable(f.fieldType) || !IsStoredType(f.fieldType.rawValue.value)) ==>
              ClassifyField(owner, f) == Failure(UnknownFieldType(owner, f.name, f.keyPath, f.fieldType))
  {
  }

  /** A composite with no reflected fields is empty. */
  lemma EmptyTypesAreRejected(t: TypeTerm)
    requires t.Nominal? && t.conformsToStoredType && !t.isClass && |t.fields| == 0
    ensures CompositeOf(t) == Failure(StoredTypeIsEmpty(t))
  {
  }

  /** Field classification runs before every legality rule: the first field that
      cannot be classified decides the composite's error. */
  lemma {:induction false} FieldErrorsComeFirst(t: TypeTerm, i: nat)
    requires t.Nominal? && t.conformsToStoredType && !t.isClass && i < |t.fields|
    requires forall k :: 0 <= k < i ==> ClassifyField(t, t.fields[k]).Success?
    requires ClassifyField(t, t.fields[i]).Failure?
    ensures CompositeOf(t) == Failure(ClassifyField(t, t.fields[i]).error)
  {
    FirstFailureAborts(t, 0, i);
  }

  /** Once every field classifies and there is one, the identity rules run
      before the per-field rules. */
  lemma IdentityErrorsPrecedeFieldErrors(t: TypeTerm)
    requires t.Nominal? && t.conformsToStoredType && !t.isClass && |t.fields| > 0
    requires StoredFieldsFrom(t, 0).Success?
    requires ValidateIdentifiable(t, StoredFieldsFrom(t, 0).value).Fail?
    ensures CompositeOf(t) == Failure(ValidateIdentifiable(t, StoredFieldsFrom(t, 0).value).error)
  {
  }

  /** A composite is accepted exactly when every field classifies, there is at
      least one, the identity rules hold and every field has a legal shape. The
      accepted description is named after the type and lists one field per
      reflected field, with its name and key path, in declaration order; its
      children are the field descriptions in that order. */
  lemma CompositeAcceptance(t: TypeTerm)
    requires t.Nominal? && t.conformsToStoredType && !t.isClass
    ensures CompositeOf(t).Success? <==>
              && StoredFieldsFrom(t, 0).Success?
              && |t.fields| > 0
              && IdentityIsLegal(t, StoredFieldsFrom(t, 0).value)
              && forall j :: 0 <= j < |t.fields| ==> FieldShapeIsLegal(StoredFieldsFrom(t, 0).value[j].description)
    ensures CompositeOf(t).Success? ==>
              && CompositeOf(t).value == Composite(t.name, t, StoredFieldsFrom(t, 0).value)
              && |CompositeOf(t).value.fields| == |t.fields|
              && (forall j :: 0 <= j < |t.fields| ==>
                    && CompositeOf(t).value.fields[j].name == t.fields[j].name
                    && CompositeOf(t).value.fields[j].keyPath == t.fields[j].keyPath)
              && TransitiveTypeDescriptions(CompositeOf(t).value) == FieldDescriptions(CompositeOf(t).value.fields)
  {
    var fr := StoredFieldsFrom(t, 0);
    if fr.Success? {
      var fields := fr.value;
      IdentityRulesAreComplete(t, fields);
      forall j | 0 <= j < |fields| {
        FieldRulesAreComplete(t, fields[j]);
      }
    }
  }

  // ---------------------------------------------------------------------------
  // Canonical descriptions

  /** `d` is what its own base type is described as. Because classification is a
      function of the type, two canonical descriptions with the same base type
      are the same description. */
  ghost predicate Canonical(d: TypeDescription) {
    IsStoredType(d.baseType) && Classify(d.baseType) == Success(d)
  }

  lemma SameBaseTypeSameDescription(a: TypeDescription, b: TypeDescription)
    requires Canonical(a) && Canonical(b) && a.baseType == b.baseType
    ensures a == b
  {
  }

  /** A classified field's description is canonical. */
  lemma FieldDescriptionIsCanonical(owner: TypeTerm, f: FieldDecl)
    requires ClassifyField(owner, f).Success?
    ensures Canonical(ClassifyField(owner, f).value.description)
  {
    FieldClassificationCases(owner, f);
  }

  /** The children of a canonical description are canonical: every description
      the schema builder meets is the description of its own base type. */
  lemma ChildrenOfCanonicalAreCanonical(d: TypeDescription)
    requires Canonical(d)
    ensures forall c :: c in TransitiveTypeDescriptions(d) ==> Canonical(c)
  {
    var t := d.baseType;
    match t
    case Prim(_) =>
    case OptionalOf(w) =>
      OptionalWrapsItsElement(w);
    case ArrayOf(e) =>
      ArrayIsOrderedAndKeyless(e);
    case SetOf(e) =>
      SetIsUnorderedAndKeyless(e);
    case DictionaryOf(k, v) =>
      DictionaryIsUnorderedWithKey(k, v);
    case Nominal(_, isClass, _, _, _, _) =>
      assert !isClass;
      CompositeChildrenAreCanonical(t);
  }

  lemma CompositeChildrenAreCanonical(t: TypeTerm)
    requires t.Nominal? && t.conformsToStoredType && !t.isClass && CompositeOf(t).Success?
    ensures forall c :: c in TransitiveTypeDescriptions(CompositeOf(t).value) ==> Canonical(c)
  {
    CompositeAcceptance(t);
    var fields := StoredFieldsFrom(t, 0).value;
    forall c | c in TransitiveTypeDescriptions(CompositeOf(t).value)
      ensures Canonical(c)
    {
      var j :| 0 <= j < |fields| && FieldDescriptions(fields)[j] == c;
      FieldDescriptionIsCanonical(t, t.fields[j]);
    }
  }
}
