/** The closed family of stored-type descriptions (`StoredTypeDescription` and
    its four conforming structs), their derived flags and their direct children. */
module TypeDescriptions {
  import opened Wrappers
  import opened TypeTerms

  /** Every description carries the `baseType` it describes. */
  datatype TypeDescription =
    | Primitive(baseType: TypeTerm)
    | OptionalDescription(baseType: TypeTerm, wrappedType: TypeDescription)
    | MultiValue(baseType: TypeTerm, isOrdered: bool, keyType: Option<TypeDescription>,
                 valueType: TypeDescription)
    | Composite(name: string, baseType: TypeTerm, fields: seq<StoredField>)

  /** A classified stored property of a composite. */
  datatype StoredField = StoredField(name: string, keyPath: KeyPath, description: TypeDescription)

  /** `isIdentifiable`: `baseType is any Identifiable.Type`. */
  predicate IsIdentifiable(d: TypeDescription) {
    IsIdentifiableType(d.baseType)
  }

  /** `isOptional`: `baseType is any OptionalType.Type`. */
  predicate IsOptional(d: TypeDescription) {
    IsOptionalType(d.baseType)
  }

  /** `fields.map(\.description)` */
  function FieldDescriptions(fields: seq<StoredField>): (r: seq<TypeDescription>)
    ensures |r| == |fields|
    ensures forall i :: 0 <= i < |fields| ==> r[i] == fields[i].description
  {
    seq(|fields|, i requires 0 <= i < |fields| => fields[i].description)
  }

  /** `transitiveTypeDescriptions`: the direct children the schema builder follows. */
  function TransitiveTypeDescriptions(d: TypeDescription): seq<TypeDescription> {
    match d
    case Primitive(_) => []
    case OptionalDescription(_, w) => [w]
    case MultiValue(_, _, k, v) => if k.Some? then [k.value, v] else [v]
    case Composite(_, _, fields) => FieldDescriptions(fields)
  }

  /** The descriptions exactly as the library's initialisers build them: every
      `baseType` is the described type itself and agrees with the kind of
      description and with its children. */
  ghost predicate WellFormed(d: TypeDescription) {
    match d
    case Primitive(b) => b.Prim?
    case OptionalDescription(b, w) => b == OptionalOf(w.baseType) && WellFormed(w)
    case MultiValue(b, ordered, k, v) =>
      && WellFormed(v)
      && match k {
        case None => b == (if ordered then ArrayOf(v.baseType) else SetOf(v.baseType))
        case Some(kd) => !ordered && b == DictionaryOf(kd.baseType, v.baseType) && WellFormed(kd)
      }
    case Composite(n, b, fields) =>
      && b.Nominal? && !b.isClass && b.conformsToStoredType && n == b.name
      && forall i :: 0 <= i < |fields| ==> WellFormed(fields[i].description)
  }

  /** `isIdentifiable` and `isOptional` are functions of `baseType` alone. */
  lemma FlagsDependOnlyOnBaseType(a: TypeDescription, b: TypeDescription)
    requires a.baseType == b.baseType
    ensures IsIdentifiable(a) == IsIdentifiable(b)
    ensures IsOptional(a) == IsOptional(b)
  {
  }

  /** On well-formed descriptions `isOptional` holds exactly of the optional ones:
      a primitive, multi-value or composite description is never optional. */
  lemma OptionalFlagMatchesKind(d: TypeDescription)
    requires WellFormed(d)
    ensures IsOptional(d) <==> d.OptionalDescription?
  {
  }

  /** A collection's `baseType` is the collection type, never its element's. */
  lemma CollectionIdentityDiffersFromElements(d: TypeDescription)
    requires WellFormed(d) && d.MultiValue?
    ensures d.baseType != d.valueType.baseType
    ensures d.keyType.Some? ==> d.baseType != d.keyType.value.baseType
  {
    assert d.valueType.baseType < d.baseType;
    if d.keyType.Some? {
      assert d.keyType.value.baseType < d.baseType;
    }
  }

  /** Only composites can be identifiable among well-formed descriptions. */
  lemma OnlyCompositesAreIdentifiable(d: TypeDescription)
    requires WellFormed(d) && IsIdentifiable(d)
    ensures d.Composite?
  {
  }

  /** The number of description nodes: the measure that shrinks as the schema
      builder replaces a description by its children. */
  function Size(d: TypeDescription): (n: nat)
    ensures n >= 1
    decreases d, 1
  {
    match d
    case Primitive(_) => 1
    case OptionalDescription(_, w) => 1 + Size(w)
    case MultiValue(_, _, k, v) => 1 + (if k.Some? then Size(k.value) else 0) + Size(v)
    case Composite(_, _, fields) => 1 + FieldsSize(d, 0)
  }

  function FieldsSize(d: TypeDescription, i: nat): nat
    requires d.Composite? && i <= |d.fields|
    decreases d, 0, |d.fields| - i
  {
    if i == |d.fields| then 0 else Size(d.fields[i].description) + FieldsSize(d, i + 1)
  }

  function SizeAll(ds: seq<TypeDescription>): nat {
    if ds == [] then 0 else Size(ds[0]) + SizeAll(ds[1..])
  }

  lemma {:induction false} SizeAllAppend(a: seq<TypeDescription>, b: seq<TypeDescription>)
    ensures SizeAll(a + b) == SizeAll(a) + SizeAll(b)
  {
    if a == [] {
      assert a + b == b;
    } else {
      assert (a + b)[1..] == a[1..] + b;
      SizeAllAppend(a[1..], b);
    }
  }

  lemma {:induction false} FieldsSizeIsSizeOfChildren(d: TypeDescription, i: nat)
    requires d.Composite? && i <= |d.fields|
    ensures FieldsSize(d, i) == SizeAll(FieldDescriptions(d.fields)[i..])
    decreases |d.fields| - i
  {
    var all := FieldDescriptions(d.fields);
    if i < |d.fields| {
      assert all[i..][1..] == all[i + 1..];
      FieldsSizeIsSizeOfChildren(d, i + 1);
    }
  }

  /** A description is one node more than all of its children together. */
  lemma ChildrenAreSmaller(d: TypeDescription)
    ensures SizeAll(TransitiveTypeDescriptions(d)) == Size(d) - 1
  {
    match d
    case Primitive(_) =>
    case OptionalDescription(_, w) =>
      assert SizeAll([w]) == Size(w) + SizeAll([]);
    case MultiValue(_, _, k, v) =>
      assert SizeAll([v]) == Size(v) + SizeAll([]);
      if k.Some? {
        assert [k.value, v][1..] == [v];
      }
    case Composite(_, _, fields) =>
      FieldsSizeIsSizeOfChildren(d, 0);
      assert FieldDescriptions(fields)[0..] == FieldDescriptions(fields);
  }
}
