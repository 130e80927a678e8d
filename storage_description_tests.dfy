/** The schema scenarios of the storage-description tests, as lemmas over
    concrete type terms. Each error is compared with the older `Schema.Error`
    `==`, as the tests compare them. */
module StorageDescriptionTests {
  import opened Wrappers
  import opened TypeTerms
  import opened TypeDescriptions
  import opened StorageErrors
  import opened Validation
  import opened Classifier
  import opened SchemaBuilder
  import SchemaErrors

  const StringType := Prim(StringKind)
  const IntType := Prim(IntKind)

  /** A struct conforming to `StoredType` (and to `Identifiable` when `identifiable`). */
  function Struct(name: string, identifiable: bool, fields: seq<FieldDecl>): TypeTerm {
    Nominal(name, false, true, identifiable, None, fields)
  }

  /** The error `Schema(types)` throws, read as a `Schema.Error`. */
  predicate Throws(types: seq<TypeTerm>, expected: SchemaErrors.SchemaError)
    requires |types| > 0 && forall k :: 0 <= k < |types| ==> IsStoredType(types[k])
  {
    var r := SchemaOf(types);
    r.Failure? && SchemaErrors.FromStorageError(r.error).Some?
    && SchemaErrors.Equal(SchemaErrors.FromStorageError(r.error).value, expected)
  }

  lemma StoredTypeCannotBeAClass()
    ensures Throws([Nominal("S", true, true, false, None, [])],
                   SchemaErrors.StoredTypeIsNotValueType(Nominal("S", true, true, false, None, [])))
  {
    var s := Nominal("S", true, true, false, None, []);
    ClassesAreRejected(s);
    RootErrorsAbort([s]);
  }

  lemma StoredTypeCannotBeEmpty()
    ensures Throws([Struct("S", false, [])], SchemaErrors.StoredTypeIsEmpty(Struct("S", false, [])))
  {
    var s := Struct("S", false, []);
    EmptyTypesAreRejected(s);
    RootErrorsAbort([s]);
  }

  lemma StoredTypeCannotHaveOptionalIdentifier()
    ensures var s := Struct("S", true, [FieldDecl("id", KeyPath(0), OptionalOf(StringType))]);
            Throws([s], SchemaErrors.IdentifierCannotBeOptional(s))
  {
    var s := Struct("S", true, [FieldDecl("id", KeyPath(0), OptionalOf(StringType))]);
    CompositeRejectsWithIdentity(s);
    RootErrorsAbort([s]);
  }

  lemma StoredTypeCannotHaveComplexIdentifier()
    ensures var s := Struct("S", true, [FieldDecl("id", KeyPath(0), ArrayOf(IntType))]);
            Throws([s], SchemaErrors.IdentifierIsNotPrimitive(s))
  {
    var s := Struct("S", true, [FieldDecl("id", KeyPath(0), ArrayOf(IntType))]);
    CompositeRejectsWithIdentity(s);
    RootErrorsAbort([s]);
  }

  /** A computed `id` is not a stored property, so only `name` is reflected. */
  lemma StoredTypeCannotHaveComputedIdentifier()
    ensures var s := Struct("S", true, [FieldDecl("name", KeyPath(1), StringType)]);
            Throws([s], SchemaErrors.StoredTypeMissingIdentifier(s))
  {
    var s := Struct("S", true, [FieldDecl("name", KeyPath(1), StringType)]);
    CompositeRejectsWithIdentity(s);
    RootErrorsAbort([s]);
  }

  lemma StoredTypeCannotHaveNonStorableFields()
    ensures var i := Nominal("I", false, false, false, None, []);
            var s := Struct("S", false, [FieldDecl("i", KeyPath(0), i)]);
            Throws([s], SchemaErrors.UnknownFieldType(s, "i", KeyPath(0), i))
  {
    var i := Nominal("I", false, false, false, None, []);
    var s := Struct("S", false, [FieldDecl("i", KeyPath(0), i)]);
    FieldClassificationCases(s, s.fields[0]);
    FieldErrorsComeFirst(s, 0);
    RootErrorsAbort([s]);
  }

  /** `enum ID: String` is not a stored type, but its raw value is. */
  lemma StoredTypeCanHaveRawRepresentableID()
    ensures var id := Nominal("ID", false, false, false, Some(StringType), []);
            var s := Struct("S", true, [FieldDecl("id", KeyPath(0), id)]);
            SchemaOf([s]).Success?
  {
    var id := Nominal("ID", false, false, false, Some(StringType), []);
    var s := Struct("S", true, [FieldDecl("id", KeyPath(0), id)]);
    FieldClassificationCases(s, s.fields[0]);
    CompositeAcceptance(s);
    var fields := StoredFieldsFrom(s, 0).value;
    assert fields == [StoredField("id", KeyPath(0), Primitive(StringType))];
    assert ValidateIdentifiable(s, fields) == Pass;
    RootErrorsAbort([s]);
  }

  lemma StoredTypeCannotHaveComplexRawRepresentableID()
    ensures var id := Nominal("ID", false, false, false, Some(ArrayOf(IntType)), []);
            var s := Struct("S", true, [FieldDecl("id", KeyPath(0), id)]);
            Throws([s], SchemaErrors.IdentifierIsNotPrimitive(s))
  {
    var id := Nominal("ID", false, false, false, Some(ArrayOf(IntType)), []);
    var s := Struct("S", true, [FieldDecl("id", KeyPath(0), id)]);
    CompositeRejectsWithIdentity(s);
    RootErrorsAbort([s]);
  }

  /** A one-field composite whose field classifies but whose identity rules fail
      is rejected with the identity error. */
  lemma CompositeRejectsWithIdentity(s: TypeTerm)
    requires s.Nominal? && s.conformsToStoredType && !s.isClass && |s.fields| == 1
    requires ClassifyField(s, s.fields[0]).Success?
    requires ValidateIdentifiable(s, [ClassifyField(s, s.fields[0]).value]).Fail?
    ensures Classify(s) == Failure(ValidateIdentifiable(s, [ClassifyField(s, s.fields[0]).value]).error)
  {
    var fields := StoredFieldsFrom(s, 0).value;
    assert fields == [ClassifyField(s, s.fields[0]).value];
    IdentityErrorsPrecedeFieldErrors(s);
  }

  // ---------------------------------------------------------------------------
  // Deduplication

  const NameField := FieldDecl("name", KeyPath(1), StringType)

  /** One step of the worklist that keeps its head. */
  lemma Keep(work: seq<TypeDescription>, seen: set<TypeTerm>, stored: seq<TypeDescription>,
              next: seq<TypeDescription>, nextSeen: set<TypeTerm>, nextStored: seq<TypeDescription>)
    requires work != [] && work[0].baseType !in seen
    requires next == work[1..] + TransitiveTypeDescriptions(work[0])
    requires nextSeen == seen + {work[0].baseType} && nextStored == stored + [work[0]]
    ensures Traverse(work, seen, stored) == Traverse(next, nextSeen, nextStored)
  {
    TraverseStep(work, seen, stored);
  }

  /** One step of the worklist that skips its head. */
  lemma Skip(work: seq<TypeDescription>, seen: set<TypeTerm>, stored: seq<TypeDescription>, next: seq<TypeDescription>)
    requires work != [] && work[0].baseType in seen && next == work[1..]
    ensures Traverse(work, seen, stored) == Traverse(next, seen, stored)
  {
    TraverseStep(work, seen, stored);
  }

  /** The empty worklist leaves the kept list as it is. */
  lemma Done(seen: set<TypeTerm>, stored: seq<TypeDescription>)
    ensures Traverse([], seen, stored) == stored
  {
  }

  /** `Schema(S, S)` over a composite `d` with one primitive child `p`. */
  lemma DuplicateRootsTraversal(d: TypeDescription, p: TypeDescription)
    requires d.baseType != p.baseType
    requires TransitiveTypeDescriptions(d) == [p] && TransitiveTypeDescriptions(p) == []
    ensures Traverse([d, d], {}, []) == [d, p]
  {
    var s1 := {d.baseType};
    calc {
      Traverse([d, d], {}, []);
      { Keep([d, d], {}, [], [d, p], s1, [d]); }
      Traverse([d, p], s1, [d]);
      { Skip([d, p], s1, [d], [p]); }
      Traverse([p], s1, [d]);
      { Keep([p], s1, [d], [], s1 + {p.baseType}, [d, p]); }
      Traverse([], s1 + {p.baseType}, [d, p]);
      { Done(s1 + {p.baseType}, [d, p]); }
      [d, p];
    }
  }

  /** `Schema(S)` for `S { t: T? }`, `T { name: String }`. */
  lemma OptionalChildTraversal(ds: TypeDescription, dOpt: TypeDescription, dt: TypeDescription, p: TypeDescription)
    requires ds.baseType != dOpt.baseType && ds.baseType != dt.baseType && ds.baseType != p.baseType
    requires dOpt.baseType != dt.baseType && dOpt.baseType != p.baseType && dt.baseType != p.baseType
    requires TransitiveTypeDescriptions(ds) == [dOpt] && TransitiveTypeDescriptions(dOpt) == [dt]
    requires TransitiveTypeDescriptions(dt) == [p] && TransitiveTypeDescriptions(p) == []
    ensures Traverse([ds], {}, []) == [ds, dOpt, dt, p]
  {
    var s1 := {ds.baseType};
    var s2 := s1 + {dOpt.baseType};
    var s3 := s2 + {dt.baseType};
    calc {
      Traverse([ds], {}, []);
      { Keep([ds], {}, [], [dOpt], s1, [ds]); }
      Traverse([dOpt], s1, [ds]);
      { Keep([dOpt], s1, [ds], [dt], s2, [ds, dOpt]); }
      Traverse([dt], s2, [ds, dOpt]);
      { Keep([dt], s2, [ds, dOpt], [p], s3, [ds, dOpt, dt]); }
      Traverse([p], s3, [ds, dOpt, dt]);
      { Keep([p], s3, [ds, dOpt, dt], [], s3 + {p.baseType}, [ds, dOpt, dt, p]); }
      Traverse([], s3 + {p.baseType}, [ds, dOpt, dt, p]);
      { Done(s3 + {p.baseType}, [ds, dOpt, dt, p]); }
      [ds, dOpt, dt, p];
    }
  }

  /** `Schema(A, B)` for `A { c: C }`, `B { c: C }`, `C { name: String }`. */
  lemma SharedChildTraversal(da: TypeDescription, db: TypeDescription, dc: TypeDescription, p: TypeDescription)
    requires da.baseType != db.baseType && da.baseType != dc.baseType && da.baseType != p.baseType
    requires db.baseType != dc.baseType && db.baseType != p.baseType && dc.baseType != p.baseType
    requires TransitiveTypeDescriptions(da) == [dc] && TransitiveTypeDescriptions(db) == [dc]
    requires TransitiveTypeDescriptions(dc) == [p] && TransitiveTypeDescriptions(p) == []
    ensures Traverse([da, db], {}, []) == [da, db, dc, p]
  {
    var s1 := {da.baseType};
    var s2 := s1 + {db.baseType};
    var s3 := s2 + {dc.baseType};
    calc {
      Traverse([da, db], {}, []);
      { Keep([da, db], {}, [], [db, dc], s1, [da]); }
      Traverse([db, dc], s1, [da]);
      { Keep([db, dc], s1, [da], [dc, dc], s2, [da, db]); }
      Traverse([dc, dc], s2, [da, db]);
      { Keep([dc, dc], s2, [da, db], [dc, p], s3, [da, db, dc]); }
      Traverse([dc, p], s3, [da, db, dc]);
      { Skip([dc, p], s3, [da, db, dc], [p]); }
      Traverse([p], s3, [da, db, dc]);
      { Keep([p], s3, [da, db, dc], [], s3 + {p.baseType}, [da, db, dc, p]); }
      Traverse([], s3 + {p.baseType}, [da, db, dc, p]);
      { Done(s3 + {p.baseType}, [da, db, dc, p]); }
      [da, db, dc, p];
    }
  }

  lemma SchemaIgnoresDuplicateDeclaredTypes()
    ensures var s := Struct("S", false, [NameField]);
            SchemaOf([s, s]).Success? && |SchemaOf([s, s]).value.compositeTypes| == 1
  {
    var s := Struct("S", false, [NameField]);
    var d := OneStringComposite(s);
    var p := Primitive(StringType);
    assert TransitiveTypeDescriptions(d) == [p];
    SchemaOfTwo(s, s, d, d);
    DuplicateRootsTraversal(d, p);
    CompositesOfTwo(d, p);
  }

  lemma SchemaFollowsTransitiveDeclaredTypes()
    ensures var t := Struct("T", false, [NameField]);
            var s := Struct("S", false, [FieldDecl("t", KeyPath(2), OptionalOf(t))]);
            SchemaOf([s]).Success? && |SchemaOf([s]).value.compositeTypes| == 2
  {
    var t := Struct("T", false, [NameField]);
    var s := Struct("S", false, [FieldDecl("t", KeyPath(2), OptionalOf(t))]);
    var dt := OneStringComposite(t);
    var dOpt := OptionalDescription(OptionalOf(t), dt);
    OptionalWrapsItsElement(t);
    var ds := OneFieldComposite(s, dOpt);
    var p := Primitive(StringType);
    assert TransitiveTypeDescriptions(ds) == [dOpt];
    assert TransitiveTypeDescriptions(dt) == [p];
    SchemaOfOne(s, ds);
    OptionalChildTraversal(ds, dOpt, dt, p);
    CompositesOfFour(ds, dOpt, dt, p);
  }

  lemma SchemaIgnoresTransitiveDuplicateTypes()
    ensures var c := Struct("C", false, [NameField]);
            var a := Struct("A", false, [FieldDecl("c", KeyPath(3), c)]);
            var b := Struct("B", false, [FieldDecl("c", KeyPath(4), c)]);
            SchemaOf([a, b]).Success? && |SchemaOf([a, b]).value.compositeTypes| == 3
  {
    var c := Struct("C", false, [NameField]);
    var a := Struct("A", false, [FieldDecl("c", KeyPath(3), c)]);
    var b := Struct("B", false, [FieldDecl("c", KeyPath(4), c)]);
    var dc := OneStringComposite(c);
    var da := OneFieldComposite(a, dc);
    var db := OneFieldComposite(b, dc);
    var p := Primitive(StringType);
    assert TransitiveTypeDescriptions(da) == [dc];
    assert TransitiveTypeDescriptions(db) == [dc];
    assert TransitiveTypeDescriptions(dc) == [p];
    SchemaOfTwo(a, b, da, db);
    SharedChildTraversal(da, db, dc, p);
    CompositesOfFour(da, db, dc, p);
  }

  function CompositeCount(d: TypeDescription): nat {
    if d.Composite? then 1 else 0
  }

  lemma CompositesOfOne(d: TypeDescription)
    ensures |Composites([d])| == CompositeCount(d)
  {
    assert [d][1..] == [];
  }

  /** The number of composites in a list of two or four descriptions. */
  lemma CompositesOfTwo(a: TypeDescription, b: TypeDescription)
    ensures |Composites([a, b])| == CompositeCount(a) + CompositeCount(b)
  {
    assert [a, b] == [a] + [b];
    CompositesDistribute([a], [b]);
    CompositesOfOne(a);
    CompositesOfOne(b);
  }

  lemma CompositesOfFour(a: TypeDescription, b: TypeDescription, c: TypeDescription, d: TypeDescription)
    ensures |Composites([a, b, c, d])| == CompositeCount(a) + CompositeCount(b) + CompositeCount(c) + CompositeCount(d)
  {
    assert [a, b, c, d] == [a, b] + [c, d];
    CompositesDistribute([a, b], [c, d]);
    CompositesOfTwo(a, b);
    CompositesOfTwo(c, d);
  }

  lemma SchemaOfOne(a: TypeTerm, da: TypeDescription)
    requires IsStoredType(a) && Classify(a) == Success(da)
    ensures SchemaOf([a]) == Success(SchemaFrom(Traverse([da], {}, [])))
  {
    RootErrorsAbort([a]);
    SchemaTraversesRoots([a]);
    assert Roots([a]) == [da];
  }

  lemma SchemaOfTwo(a: TypeTerm, b: TypeTerm, da: TypeDescription, db: TypeDescription)
    requires IsStoredType(a) && Classify(a) == Success(da)
    requires IsStoredType(b) && Classify(b) == Success(db)
    ensures SchemaOf([a, b]) == Success(SchemaFrom(Traverse([da, db], {}, [])))
  {
    RootErrorsAbort([a, b]);
    SchemaTraversesRoots([a, b]);
    assert Roots([a, b]) == [da, db];
  }

  /** A non-identifiable struct with one `String` field `name` classifies. */
  lemma OneStringComposite(s: TypeTerm) returns (d: TypeDescription)
    requires s.Nominal? && s == Struct(s.name, false, [NameField])
    ensures d == Composite(s.name, s, [StoredField("name", KeyPath(1), Primitive(StringType))])
    ensures Classify(s) == Success(d)
  {
    d := Composite(s.name, s, [StoredField("name", KeyPath(1), Primitive(StringType))]);
    FieldClassificationCases(s, s.fields[0]);
    CompositeAcceptance(s);
    assert StoredFieldsFrom(s, 0).value == d.fields;
    assert IdentityIsLegal(s, d.fields);
  }

  /** A non-identifiable struct with one field, not named `id`, whose type is
      described as `df`, a description with a legal field shape. */
  lemma OneFieldComposite(s: TypeTerm, df: TypeDescription) returns (d: TypeDescription)
    requires s.Nominal? && s == Struct(s.name, false, s.fields) && |s.fields| == 1 && s.fields[0].name != "id"
    requires IsStoredType(s.fields[0].fieldType) && Classify(s.fields[0].fieldType) == Success(df)
    requires FieldShapeIsLegal(df)
    ensures d == Composite(s.name, s, [StoredField(s.fields[0].name, s.fields[0].keyPath, df)])
    ensures Classify(s) == Success(d)
  {
    d := Composite(s.name, s, [StoredField(s.fields[0].name, s.fields[0].keyPath, df)]);
    FieldClassificationCases(s, s.fields[0]);
    CompositeAcceptance(s);
    assert StoredFieldsFrom(s, 0).value == d.fields;
    assert IdentityIsLegal(s, d.fields);
  }
}
