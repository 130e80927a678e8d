/** The Core Data engine's test cases, as lemmas over concrete stored types:
    each type is classified and gathered by the schema, and the engine's
    entities are read off the schema's composites. */
module CoreDataEngineTests {
  import opened Wrappers
  import opened TypeTerms
  import opened TypeDescriptions
  import opened Validation
  import opened Classifier
  import opened SchemaBuilder
  import opened CoreDataModels
  import T = StorageDescriptionTests

  const StringType := Prim(StringKind)
  const DataType := Prim(DataKind)
  const DateType := Prim(DateKind)

  /** A struct whose fields are each a primitive or an optional primitive
      classifies as the composite of those fields' descriptions. */
  lemma PrimitiveFieldsComposite(s: TypeTerm, fields: seq<StoredField>) returns (d: TypeDescription)
    requires s.Nominal? && s.conformsToStoredType && !s.isClass && |s.fields| == |fields| > 0
    requires forall j :: 0 <= j < |fields| ==> ClassifyField(s, s.fields[j]) == Success(fields[j])
    requires forall j :: 0 <= j < |fields| ==> FieldShapeIsLegal(fields[j].description)
    requires IdentityIsLegal(s, fields)
    ensures d == Composite(s.name, s, fields)
    ensures Classify(s) == Success(d)
  {
    d := Composite(s.name, s, fields);
    ValueTypesAreComposites(s);
    StoredFieldsAllClassify(s, fields);
    CompositeAcceptance(s);
  }

  /** Fields that each classify are stored in declaration order. */
  lemma StoredFieldsAllClassify(s: TypeTerm, fields: seq<StoredField>)
    requires s.Nominal? && |s.fields| == |fields|
    requires forall j :: 0 <= j < |fields| ==> ClassifyField(s, s.fields[j]) == Success(fields[j])
    ensures StoredFieldsFrom(s, 0) == Success(fields)
  {
    assert StoredFieldsFrom(s, 0).value == fields;
  }

  /** A list without composites contributes none. */
  lemma {:induction false} NoComposites(ds: seq<TypeDescription>)
    requires forall k :: 0 <= k < |ds| ==> !ds[k].Composite?
    ensures Composites(ds) == []
  {
    if ds != [] {
      NoComposites(ds[1..]);
    }
  }

  /** The composites of a kept list that is some composites followed by
      descriptions that are not. */
  lemma CompositesFirst(cs: seq<TypeDescription>, rest: seq<TypeDescription>)
    requires forall k :: 0 <= k < |cs| ==> cs[k].Composite?
    requires forall k :: 0 <= k < |rest| ==> !rest[k].Composite?
    ensures Composites(cs + rest) == cs
  {
    CompositesDistribute(cs, rest);
    NoComposites(rest);
    AllComposites(cs);
  }

  /** A list of composites is its own list of composites. */
  lemma {:induction false} AllComposites(cs: seq<TypeDescription>)
    requires forall k :: 0 <= k < |cs| ==> cs[k].Composite?
    ensures Composites(cs) == cs
  {
    if cs != [] {
      AllComposites(cs[1..]);
    }
  }

  /** `struct S: StoredType { var name: String }` has one required string
      attribute and no uniqueness constraint. */
  lemma SinglePropertyEntity()
    ensures var s := T.Struct("S", false, [FieldDecl("name", KeyPath(0), StringType)]);
            && SchemaOf([s]).Success?
            && |SchemaOf([s]).value.compositeTypes| == 1
            && Modelable(SchemaOf([s]).value.compositeTypes)
            && EntityFor(SchemaOf([s]).value.compositeTypes[0])
               == Entity("S", [Attribute("name", StringAttribute, false)], [])
  {
    var s := T.Struct("S", false, [FieldDecl("name", KeyPath(0), StringType)]);
    var p := Primitive(StringType);
    var fields := [StoredField("name", KeyPath(0), p)];
    FieldClassificationCases(s, s.fields[0]);
    var d := PrimitiveFieldsComposite(s, fields);
    T.SchemaOfOne(s, d);
    calc {
      Traverse([d], {}, []);
      { T.Keep([d], {}, [], [p], {s}, [d]); }
      Traverse([p], {s}, [d]);
      { T.Keep([p], {s}, [d], [], {s, StringType}, [d, p]); }
      Traverse([], {s, StringType}, [d, p]);
      { T.Done({s, StringType}, [d, p]); }
      [d, p];
    }
    CompositesFirst([d], [p]);
    SchemaIsModelable([s]);
    assert SchemaOf([s]).value.compositeTypes == [d];
    assert d.fields[..0] == [];
    assert AttributesOf(d.fields) == [Attribute("name", StringAttribute, false)];
    assert !IsIdentifiable(d);
  }

  /** An identifiable `S { id: String }` has one required string attribute
      and is unique on `id`. */
  lemma SinglePropertyUniqueEntity()
    ensures var s := T.Struct("S", true, [FieldDecl("id", KeyPath(0), StringType)]);
            && SchemaOf([s]).Success?
            && |SchemaOf([s]).value.compositeTypes| == 1
            && Modelable(SchemaOf([s]).value.compositeTypes)
            && EntityFor(SchemaOf([s]).value.compositeTypes[0])
               == Entity("S", [Attribute("id", StringAttribute, false)], [["id"]])
  {
    var s := T.Struct("S", true, [FieldDecl("id", KeyPath(0), StringType)]);
    var p := Primitive(StringType);
    var fields := [StoredField("id", KeyPath(0), p)];
    FieldClassificationCases(s, s.fields[0]);
    IdentityRulesAreComplete(s, fields);
    assert ValidateIdentifiable(s, fields) == Pass;
    var d := PrimitiveFieldsComposite(s, fields);
    T.SchemaOfOne(s, d);
    calc {
      Traverse([d], {}, []);
      { T.Keep([d], {}, [], [p], {s}, [d]); }
      Traverse([p], {s}, [d]);
      { T.Keep([p], {s}, [d], [], {s, StringType}, [d, p]); }
      Traverse([], {s, StringType}, [d, p]);
      { T.Done({s, StringType}, [d, p]); }
      [d, p];
    }
    CompositesFirst([d], [p]);
    SchemaIsModelable([s]);
    assert SchemaOf([s]).value.compositeTypes == [d];
    assert d.fields[..0] == [];
    assert AttributesOf(d.fields) == [Attribute("id", StringAttribute, false)];
    assert IsIdentifiable(d);
  }

  const StructA := T.Struct("A", true, [FieldDecl("id", KeyPath(0), StringType),
                                        FieldDecl("value", KeyPath(1), OptionalOf(DataType))])
  const StructB := T.Struct("B", false, [FieldDecl("timestamp", KeyPath(0), DateType),
                                         FieldDecl("message", KeyPath(1), StringType)])
  const OptionalData := OptionalDescription(OptionalOf(DataType), Primitive(DataType))
  const DescriptionA := Composite("A", StructA, [StoredField("id", KeyPath(0), Primitive(StringType)),
                                                StoredField("value", KeyPath(1), OptionalData)])
  const DescriptionB := Composite("B", StructB, [StoredField("timestamp", KeyPath(0), Primitive(DateType)),
                                                StoredField("message", KeyPath(1), Primitive(StringType))])

  /** `A` classifies as a required string `id` and an optional `Data` `value`. */
  lemma StructAClassifies()
    ensures Classify(StructA) == Success(DescriptionA)
  {
    var a := StructA;
    OptionalWrapsItsElement(DataType);
    var fields := DescriptionA.fields;
    FieldClassificationCases(a, a.fields[0]);
    FieldClassificationCases(a, a.fields[1]);
    IdentityRulesAreComplete(a, fields);
    assert ValidateIdentifiable(a, fields) == Pass;
    var da := PrimitiveFieldsComposite(a, fields);
  }

  /** `B` classifies as a required `Date` and a required `String`. */
  lemma StructBClassifies()
    ensures Classify(StructB) == Success(DescriptionB)
  {
    var b := StructB;
    var fields := DescriptionB.fields;
    FieldClassificationCases(b, b.fields[0]);
    FieldClassificationCases(b, b.fields[1]);
    IdentityRulesAreComplete(b, fields);
    assert ValidateIdentifiable(b, fields) == Pass;
    var db := PrimitiveFieldsComposite(b, fields);
  }

  /** `Schema(A, B)` has the composites `A` and `B`, in that order. */
  lemma MultipleSimpleSchema()
    ensures SchemaOf([StructA, StructB]).Success?
    ensures SchemaOf([StructA, StructB]).value.compositeTypes == [DescriptionA, DescriptionB]
  {
    var rest := [Primitive(StringType), OptionalData, Primitive(DateType), Primitive(DataType)];
    StructAClassifies();
    StructBClassifies();
    assert TransitiveTypeDescriptions(DescriptionA) == [Primitive(StringType), OptionalData];
    assert TransitiveTypeDescriptions(DescriptionB) == [Primitive(DateType), Primitive(StringType)];
    assert TransitiveTypeDescriptions(OptionalData) == [Primitive(DataType)];
    MultipleSimpleTraversal(DescriptionA, DescriptionB, Primitive(StringType), OptionalData, Primitive(DateType), Primitive(DataType));
    TwoRootComposites(StructA, StructB, DescriptionA, DescriptionB, rest);
  }

  /** Two roots that classify as composites and whose traversal keeps only
      descriptions that are not composites after them have those two as the
      schema's composites. */
  lemma TwoRootComposites(a: TypeTerm, b: TypeTerm, da: TypeDescription, db: TypeDescription, rest: seq<TypeDescription>)
    requires IsStoredType(a) && Classify(a) == Success(da) && da.Composite?
    requires IsStoredType(b) && Classify(b) == Success(db) && db.Composite?
    requires Traverse([da, db], {}, []) == [da, db] + rest
    requires forall k :: 0 <= k < |rest| ==> !rest[k].Composite?
    ensures SchemaOf([a, b]).Success? && SchemaOf([a, b]).value.compositeTypes == [da, db]
  {
    T.SchemaOfTwo(a, b, da, db);
    CompositesFirst([da, db], rest);
  }

  /** The entity of a two-field composite whose fields are primitives under
      optionals lists both fields' attributes, in order. */
  lemma TwoFieldEntity(c: TypeDescription)
    requires c.Composite? && |c.fields| == 2 && FieldsMappable(c.fields)
    requires PrimitiveUnderOptionals(c.fields[0].description) && PrimitiveUnderOptionals(c.fields[1].description)
    ensures EntityFor(c).properties
            == [AttributeFor(c.fields[0].name, c.fields[0].description).value,
                AttributeFor(c.fields[1].name, c.fields[1].description).value]
  {
    var f0 := c.fields[0];
    var f1 := c.fields[1];
    assert c.fields[..|c.fields| - 1] == [f0] && c.fields[|c.fields| - 1] == f1;
    assert [f0][..0] == [] && [f0][|[f0]| - 1] == f0;
    assert AttributesOf([f0]) == [AttributeFor(f0.name, f0.description).value];
  }

  /** `A`'s entity: a required string `id`, an optional binary `value`,
      unique on `id`. */
  lemma EntityOfA()
    ensures FieldsMappable(DescriptionA.fields)
    ensures EntityFor(DescriptionA)
            == Entity("A", [Attribute("id", StringAttribute, false), Attribute("value", BinaryDataAttribute, true)], [["id"]])
  {
    TwoFieldEntity(DescriptionA);
  }

  /** `B`'s entity: a required date and a required string, no uniqueness
      constraint. */
  lemma EntityOfB()
    ensures FieldsMappable(DescriptionB.fields)
    ensures EntityFor(DescriptionB)
            == Entity("B", [Attribute("timestamp", DateAttribute, false), Attribute("message", StringAttribute, false)], [])
  {
    TwoFieldEntity(DescriptionB);
  }

  /** `A: Identifiable { id: String; value: Data? }` and `B { timestamp: Date;
      message: String }` give two entities in declaration order: `A` has a
      required string `id` and an optional binary `value` and is unique on
      `id`; `B` has a required date and a required string and no uniqueness
      constraint. */
  lemma MultipleSimpleEntities()
    ensures && SchemaOf([StructA, StructB]).Success?
            && |SchemaOf([StructA, StructB]).value.compositeTypes| == 2
            && Modelable(SchemaOf([StructA, StructB]).value.compositeTypes)
            && EntityFor(SchemaOf([StructA, StructB]).value.compositeTypes[0])
               == Entity("A", [Attribute("id", StringAttribute, false), Attribute("value", BinaryDataAttribute, true)], [["id"]])
            && EntityFor(SchemaOf([StructA, StructB]).value.compositeTypes[1])
               == Entity("B", [Attribute("timestamp", DateAttribute, false), Attribute("message", StringAttribute, false)], [])
  {
    MultipleSimpleSchema();
    assert Modelable(SchemaOf([StructA, StructB]).value.compositeTypes) by {
      SchemaIsModelable([StructA, StructB]);
    }
    EntityOfA();
    EntityOfB();
  }

  /** `Schema(A, B)` keeps `A`, `B`, then `A`'s children, then `B`'s children
      that are new: `B`'s `String` was already kept for `A`. */
  lemma MultipleSimpleTraversal(da: TypeDescription, db: TypeDescription, pString: TypeDescription,
                                optData: TypeDescription, pDate: TypeDescription, pData: TypeDescription)
    requires da.baseType != db.baseType && da.baseType != pString.baseType && da.baseType != optData.baseType
    requires da.baseType != pDate.baseType && da.baseType != pData.baseType
    requires db.baseType != pString.baseType && db.baseType != optData.baseType
    requires db.baseType != pDate.baseType && db.baseType != pData.baseType
    requires pString.baseType != optData.baseType && pString.baseType != pDate.baseType && pString.baseType != pData.baseType
    requires optData.baseType != pDate.baseType && optData.baseType != pData.baseType && pDate.baseType != pData.baseType
    requires TransitiveTypeDescriptions(da) == [pString, optData]
    requires TransitiveTypeDescriptions(db) == [pDate, pString]
    requires TransitiveTypeDescriptions(optData) == [pData]
    requires TransitiveTypeDescriptions(pString) == [] && TransitiveTypeDescriptions(pDate) == []
    requires TransitiveTypeDescriptions(pData) == []
    ensures Traverse([da, db], {}, []) == [da, db, pString, optData, pDate, pData]
  {
    var s1 := {da.baseType};
    var s2 := s1 + {db.baseType};
    var s3 := s2 + {pString.baseType};
    var s4 := s3 + {optData.baseType};
    var s5 := s4 + {pDate.baseType};
    var s6 := s5 + {pData.baseType};
    calc {
      Traverse([da, db], {}, []);
      { T.Keep([da, db], {}, [], [db, pString, optData], s1, [da]); }
      Traverse([db, pString, optData], s1, [da]);
      { T.Keep([db, pString, optData], s1, [da], [pString, optData, pDate, pString], s2, [da, db]); }
      Traverse([pString, optData, pDate, pString], s2, [da, db]);
      { T.Keep([pString, optData, pDate, pString], s2, [da, db], [optData, pDate, pString], s3, [da, db, pString]); }
      Traverse([optData, pDate, pString], s3, [da, db, pString]);
      { T.Keep([optData, pDate, pString], s3, [da, db, pString], [pDate, pString, pData], s4, [da, db, pString, optData]); }
      Traverse([pDate, pString, pData], s4, [da, db, pString, optData]);
      { T.Keep([pDate, pString, pData], s4, [da, db, pString, optData], [pString, pData], s5, [da, db, pString, optData, pDate]); }
      Traverse([pString, pData], s5, [da, db, pString, optData, pDate]);
      { T.Skip([pString, pData], s5, [da, db, pString, optData, pDate], [pData]); }
      Traverse([pData], s5, [da, db, pString, optData, pDate]);
      { T.Keep([pData], s5, [da, db, pString, optData, pDate], [], s6, [da, db, pString, optData, pDate, pData]); }
      Traverse([], s6, [da, db, pString, optData, pDate, pData]);
      { T.Done(s6, [da, db, pString, optData, pDate, pData]); }
      [da, db, pString, optData, pDate, pData];
    }
  }
}
