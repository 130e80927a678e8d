/** `CoreDataEngine`: one entity per composite, carrying an attribute for each
    primitive or optional-primitive field and a uniqueness constraint on `id`
    for identifiable types. `NSEntityDescription` and `NSAttributeDescription`
    become plain records. */
module CoreDataModels {
  import opened Wrappers
  import opened TypeTerms
  import opened TypeDescriptions
  import opened Validation
  import opened Classifier
  import opened SchemaBuilder

  datatype AttributeType =
    | BooleanAttribute | Integer16Attribute | Integer32Attribute | Integer64Attribute
    | FloatAttribute | DoubleAttribute | StringAttribute | DateAttribute
    | BinaryDataAttribute | UUIDAttribute

  datatype Attribute = Attribute(name: string, attributeType: AttributeType, isOptional: bool)

  datatype Entity = Entity(name: string, properties: seq<Attribute>, uniquenessConstraints: seq<seq<string>>)

  // ---------------------------------------------------------------------------
  // The primitive-type table

  /** The `switch p.baseType` table as written. */
  function AttributeTypeAsWritten(k: PrimKind): AttributeType {
    match k
    case BoolKind => BooleanAttribute
    case IntKind => Integer64Attribute
    case Int8Kind => Integer16Attribute
    case Int16Kind => Integer16Attribute
    case Int32Kind => Integer32Attribute
    case Int64Kind => Integer64Attribute
    case UIntKind => Integer64Attribute
    case UInt8Kind => Integer16Attribute
    case UInt16Kind => Integer16Attribute
    case UInt32Kind => Integer32Attribute
    case UInt64Kind => Integer64Attribute
    case FloatKind => FloatAttribute
    case DoubleKind => DoubleAttribute
    case StringKind => StringAttribute
    case DateKind => DateAttribute
    case DataKind => BinaryDataAttribute
    case UUIDKind => UUIDAttribute
  }

  /** The table with `UInt16` and `UInt32` widened to the next signed width,
      as `UInt8` already is. `UInt` and `UInt64` keep `integer64`: Core Data
      has no wider integer type. */
  function AttributeTypeOf(k: PrimKind): AttributeType {
    match k
    case UInt16Kind => Integer32Attribute
    case UInt32Kind => Integer64Attribute
    case _ => AttributeTypeAsWritten(k)
  }

  predicate IsIntegerKind(k: PrimKind) {
    k in {IntKind, Int8Kind, Int16Kind, Int32Kind, Int64Kind, UIntKind, UInt8Kind, UInt16Kind, UInt32Kind, UInt64Kind}
  }

  predicate IsIntegerAttribute(t: AttributeType) {
    t.Integer16Attribute? || t.Integer32Attribute? || t.Integer64Attribute?
  }

  /** The smallest and largest value of a Swift integer type (`Int` and `UInt`
      are 64 bits wide on every platform Core Data runs on). */
  function KindMin(k: PrimKind): int
    requires IsIntegerKind(k)
  {
    match k
    case Int8Kind => -0x80
    case Int16Kind => -0x8000
    case Int32Kind => -0x8000_0000
    case IntKind => -0x8000_0000_0000_0000
    case Int64Kind => -0x8000_0000_0000_0000
    case _ => 0
  }

  function KindMax(k: PrimKind): int
    requires IsIntegerKind(k)
  {
    match k
    case Int8Kind => 0x7F
    case Int16Kind => 0x7FFF
    case Int32Kind => 0x7FFF_FFFF
    case IntKind => 0x7FFF_FFFF_FFFF_FFFF
    case Int64Kind => 0x7FFF_FFFF_FFFF_FFFF
    case UInt8Kind => 0xFF
    case UInt16Kind => 0xFFFF
    case UInt32Kind => 0xFFFF_FFFF
    case _ => 0xFFFF_FFFF_FFFF_FFFF
  }

  /** Core Data's integer attributes are signed 16-, 32- and 64-bit integers. */
  function AttributeMin(t: AttributeType): int
    requires IsIntegerAttribute(t)
  {
    match t
    case Integer16Attribute => -0x8000
    case Integer32Attribute => -0x8000_0000
    case Integer64Attribute => -0x8000_0000_0000_0000
  }

  function AttributeMax(t: AttributeType): int
    requires IsIntegerAttribute(t)
  {
    match t
    case Integer16Attribute => 0x7FFF
    case Integer32Attribute => 0x7FFF_FFFF
    case Integer64Attribute => 0x7FFF_FFFF_FFFF_FFFF
  }

  /** Every value of the Swift integer type can be stored in the attribute. */
  predicate Holds(k: PrimKind, t: AttributeType)
    requires IsIntegerKind(k)
  {
    IsIntegerAttribute(t) && AttributeMin(t) <= KindMin(k) && KindMax(k) <= AttributeMax(t)
  }

  /** As written, a `UInt16` above 32767 and a `UInt32` above 2147483647 do
      not fit their attributes; neither does a `UInt` or `UInt64` above
      `Int64.max`. */
  lemma UnsignedValuesOverflowAsWritten()
    ensures AttributeTypeAsWritten(UInt16Kind) == Integer16Attribute
    ensures 0 <= 40000 <= KindMax(UInt16Kind) && 40000 > AttributeMax(AttributeTypeAsWritten(UInt16Kind))
    ensures 0 <= 3000000000 <= KindMax(UInt32Kind) && 3000000000 > AttributeMax(AttributeTypeAsWritten(UInt32Kind))
    ensures !Holds(UInt16Kind, AttributeTypeAsWritten(UInt16Kind))
    ensures !Holds(UInt32Kind, AttributeTypeAsWritten(UInt32Kind))
    ensures !Holds(UInt64Kind, AttributeTypeAsWritten(UInt64Kind))
    ensures !Holds(UIntKind, AttributeTypeAsWritten(UIntKind))
  {
  }

  /** In the corrected table every integer type narrower than 64 unsigned
      bits fits its attribute; integer types and only they get integer
      attributes. */
  lemma IntegerAttributesHoldTheirValues(k: PrimKind)
    ensures IsIntegerKind(k) <==> IsIntegerAttribute(AttributeTypeOf(k))
    ensures IsIntegerKind(k) && k != UIntKind && k != UInt64Kind ==> Holds(k, AttributeTypeOf(k))
  {
    match k
    case _ =>
  }

  /** The correction touches exactly the two unsigned widths that overflowed. */
  lemma CorrectionOnlyWidensUnsigned(k: PrimKind)
    ensures AttributeTypeOf(k) != AttributeTypeAsWritten(k) <==> k == UInt16Kind || k == UInt32Kind
    ensures IsIntegerKind(k) && Holds(k, AttributeTypeAsWritten(k)) ==> AttributeTypeOf(k) == AttributeTypeAsWritten(k)
  {
  }

  /** No two non-integer kinds share an attribute type, and every non-integer
      kind keeps its own attribute type. */
  lemma NonIntegerKindsAreDistinguished(a: PrimKind, b: PrimKind)
    requires !IsIntegerKind(a) && !IsIntegerKind(b) && a != b
    ensures AttributeTypeOf(a) != AttributeTypeOf(b)
  {
  }

  // ---------------------------------------------------------------------------
  // Attributes

  /** The descriptions `attribute(with:from:)` handles without a fatal error:
      a primitive must be one of the registered types, an optional must wrap a
      handled description; collections and composites are handled (by nil). */
  ghost predicate Mappable(d: TypeDescription) {
    match d
    case Primitive(b) => b.Prim?
    case OptionalDescription(_, w) => Mappable(w)
    case _ => true
  }

  /** A primitive reached through zero or more optionals. */
  predicate PrimitiveUnderOptionals(d: TypeDescription) {
    match d
    case Primitive(_) => true
    case OptionalDescription(_, w) => PrimitiveUnderOptionals(w)
    case _ => false
  }

  /** `attribute(with:from:)` */
  function AttributeFor(name: string, d: TypeDescription): (r: Option<Attribute>)
    requires Mappable(d)
    ensures r.Some? <==> PrimitiveUnderOptionals(d)
    ensures r.Some? ==> r.value.name == name && r.value.isOptional == d.OptionalDescription?
  {
    match d
    case Primitive(b) => Some(Attribute(name, AttributeTypeAsWritten(b.kind), false))
    case OptionalDescription(_, w) =>
      (match AttributeFor(name, w)
       case Some(a) => Some(a.(isOptional := true))
       case None => None)
    case MultiValue(_, _, _, _) => None
    case Composite(_, _, _) => None
  }

  /** A primitive gives a required attribute of the type the written table
      maps it to; an optional gives its wrapped description's attribute, made
      optional. */
  lemma AttributeCases(name: string, d: TypeDescription)
    requires Mappable(d)
    ensures d.Primitive? ==> AttributeFor(name, d) == Some(Attribute(name, AttributeTypeAsWritten(d.baseType.kind), false))
    ensures d.OptionalDescription? && d.wrappedType.Primitive? && d.wrappedType.baseType.Prim? ==>
              AttributeFor(name, d) == Some(Attribute(name, AttributeTypeAsWritten(d.wrappedType.baseType.kind), true))
    ensures d.MultiValue? || d.Composite? ||
            (d.OptionalDescription? && (d.wrappedType.MultiValue? || d.wrappedType.Composite?)) ==>
              AttributeFor(name, d) == None
  {
  }

  /** A `UInt16` or `UInt32` field, required or optional, gets an attribute
      too narrow for its largest values; the corrected table's attribute holds
      them all. */
  lemma UnsignedFieldsOverflowInTheEngine(name: string, k: PrimKind, optional: bool)
    requires k == UInt16Kind || k == UInt32Kind
    ensures var p := Primitive(Prim(k));
            var d := if optional then OptionalDescription(OptionalOf(Prim(k)), p) else p;
            && AttributeFor(name, d).Some?
            && AttributeFor(name, d).value.isOptional == optional
            && !Holds(k, AttributeFor(name, d).value.attributeType)
            && Holds(k, AttributeTypeOf(k))
  {
    var p := Primitive(Prim(k));
    assert AttributeFor(name, p) == Some(Attribute(name, AttributeTypeAsWritten(k), false));
  }

  /** Well-formed descriptions never reach the fatal errors. */
  lemma WellFormedIsMappable(d: TypeDescription)
    requires WellFormed(d)
    ensures Mappable(d)
  {
  }

  ghost predicate FieldsMappable(fields: seq<StoredField>) {
    forall j :: 0 <= j < |fields| ==> Mappable(fields[j].description)
  }

  /** The attributes the fields give, in field order. */
  function AttributesOf(fields: seq<StoredField>): seq<Attribute>
    requires FieldsMappable(fields)
  {
    if fields == [] then []
    else
      var last := fields[|fields| - 1];
      AttributesOf(fields[..|fields| - 1])
      + (match AttributeFor(last.name, last.description) case Some(a) => [a] case None => [])
  }

  /** `attributes(from:)` */
  method Attributes(description: TypeDescription) returns (all: seq<Attribute>)
    requires description.Composite? && FieldsMappable(description.fields)
    ensures all == AttributesOf(description.fields)
  {
    all := [];
    var fields := description.fields;
    for i := 0 to |fields|
      invariant all == AttributesOf(fields[..i])
    {
      assert fields[..i + 1][..i] == fields[..i];
      var attr := AttributeFor(fields[i].name, fields[i].description);
      if attr.Some? {
        all := all + [attr.value];
      }
    }
    assert fields[..|fields|] == fields;
  }

  /** The fields that give an attribute. */
  function AttributeFields(fields: seq<StoredField>): (r: seq<StoredField>)
    ensures forall f :: f in r ==> f in fields && PrimitiveUnderOptionals(f.description)
  {
    if fields == [] then []
    else AttributeFields(fields[..|fields| - 1])
         + (if PrimitiveUnderOptionals(fields[|fields| - 1].description) then [fields[|fields| - 1]] else [])
  }

  /** One attribute per primitive or optional-primitive field, in field order:
      the attribute `attribute(with:from:)` gives that field, so it is named
      after the field, optional exactly when the field is, and typed by the
      written table (`AttributeCases`). */
  lemma {:induction false} AttributesFollowFields(fields: seq<StoredField>)
    requires FieldsMappable(fields)
    ensures |AttributesOf(fields)| == |AttributeFields(fields)|
    ensures forall k :: 0 <= k < |AttributeFields(fields)| ==>
              && Mappable(AttributeFields(fields)[k].description)
              && AttributeFor(AttributeFields(fields)[k].name, AttributeFields(fields)[k].description).Some?
              && AttributesOf(fields)[k] == AttributeFor(AttributeFields(fields)[k].name, AttributeFields(fields)[k].description).value
    ensures forall k :: 0 <= k < |AttributeFields(fields)| ==>
              AttributesOf(fields)[k].name == AttributeFields(fields)[k].name &&
              AttributesOf(fields)[k].isOptional == AttributeFields(fields)[k].description.OptionalDescription?
  {
    if fields != [] {
      var front := fields[..|fields| - 1];
      assert FieldsMappable(front);
      AttributesFollowFields(front);
    }
  }

  /** On validated fields the attribute fields are exactly the primitive and
      optional-primitive ones. */
  lemma LegalAttributeFields(d: TypeDescription)
    requires FieldShapeIsLegal(d)
    ensures PrimitiveUnderOptionals(d) <==> d.Primitive? || (d.OptionalDescription? && d.wrappedType.Primitive?)
  {
  }

  // ---------------------------------------------------------------------------
  // Entities

  /** The entity built for one composite. */
  function EntityFor(c: TypeDescription): (e: Entity)
    requires c.Composite? && FieldsMappable(c.fields)
    ensures e.name == c.name
    ensures e.uniquenessConstraints == (if IsIdentifiable(c) then [["id"]] else [])
  {
    Entity(c.name, AttributesOf(c.fields), if IsIdentifiable(c) then [["id"]] else [])
  }

  ghost predicate Modelable(cs: seq<TypeDescription>) {
    forall i :: 0 <= i < |cs| ==> cs[i].Composite? && FieldsMappable(cs[i].fields)
  }

  /** `CoreDataEngine.init(schema:)`: the model's entities, one per composite
      in `compositeTypes` order. */
  method BuildEntities(compositeTypes: seq<TypeDescription>) returns (entities: seq<Entity>)
    requires Modelable(compositeTypes)
    ensures |entities| == |compositeTypes|
    ensures forall i :: 0 <= i < |compositeTypes| ==> entities[i] == EntityFor(compositeTypes[i])
  {
    entities := [];
    for i := 0 to |compositeTypes|
      invariant |entities| == i
      invariant forall j :: 0 <= j < i ==> entities[j] == EntityFor(compositeTypes[j])
    {
      var c := compositeTypes[i];
      var properties := Attributes(c);
      var e := Entity(c.name, properties, []);
      if IsIdentifiable(c) {
        e := e.(uniquenessConstraints := [["id"]]);
      }
      entities := entities + [e];
    }
  }

  /** Every schema built from root types can be given to the engine: its
      composites are well formed, so no field reaches a fatal error. */
  lemma SchemaIsModelable(types: seq<TypeTerm>)
    requires |types| > 0 && forall k :: 0 <= k < |types| ==> IsStoredType(types[k])
    requires SchemaOf(types).Success?
    ensures Modelable(SchemaOf(types).value.compositeTypes)
  {
    var s := SchemaOf(types).value;
    SchemaIsClosed(types);
    assert s.compositeTypes == Composites(s.storedTypes);
    forall i | 0 <= i < |s.compositeTypes|
      ensures s.compositeTypes[i].Composite? && FieldsMappable(s.compositeTypes[i].fields)
    {
      var c := s.compositeTypes[i];
      assert c in s.compositeTypes;
      assert Canonical(c);
      forall j | 0 <= j < |c.fields|
        ensures Mappable(c.fields[j].description)
      {
        WellFormedIsMappable(c.fields[j].description);
      }
    }
  }
}
