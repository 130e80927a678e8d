/** A finite stand-in for the host language's type system and its runtime
    reflection. Swift asks `T.self as? any StoredType.Type`, enumerates stored
    fields with key paths and compares metatypes by identity; here a type is a
    `TypeTerm` value, the conformances are flags or rules on that value, the
    reflected fields are listed in the term, and type identity is equality. */
module TypeTerms {
  import opened Wrappers

  /** The host types that the library registers as primitive stored types. */
  datatype PrimKind =
    | StringKind | UUIDKind | BoolKind
    | IntKind | Int8Kind | Int16Kind | Int32Kind | Int64Kind
    | UIntKind | UInt8Kind | UInt16Kind | UInt32Kind | UInt64Kind
    | FloatKind | DoubleKind | DateKind | DataKind

  /** An opaque key-path identity: two key paths are equal exactly when they
      name the same stored property. */
  datatype KeyPath = KeyPath(id: nat)

  /** A declared type.
      `Nominal` is a user-declared struct, enum or class: `isClass` says it is a
      reference type (`AnyObject`), `conformsToStoredType` and
      `conformsToIdentifiable` are its declared conformances, `rawValue` is its
      `RawValue` type when it is `RawRepresentable`, and `fields` are its stored
      properties in declaration order, as runtime reflection enumerates them. */
  datatype TypeTerm =
    | Prim(kind: PrimKind)
    | OptionalOf(wrapped: TypeTerm)
    | ArrayOf(element: TypeTerm)
    | SetOf(element: TypeTerm)
    | DictionaryOf(key: TypeTerm, value: TypeTerm)
    | Nominal(name: string, isClass: bool, conformsToStoredType: bool,
              conformsToIdentifiable: bool, rawValue: Option<TypeTerm>,
              fields: seq<FieldDecl>)

  /** One reflected stored property: its label, its key path and its declared type. */
  datatype FieldDecl = FieldDecl(name: string, keyPath: KeyPath, fieldType: TypeTerm)

  /** `T.self is any StoredType.Type`. The primitives conform unconditionally, the
      standard containers conditionally on their parameters
      (`extension Optional: StoredType where Wrapped: StoredType` and the like). */
  predicate IsStoredType(t: TypeTerm) {
    match t
    case Prim(_) => true
    case OptionalOf(w) => IsStoredType(w)
    case ArrayOf(e) => IsStoredType(e)
    case SetOf(e) => IsStoredType(e)
    case DictionaryOf(k, v) => IsStoredType(k) && IsStoredType(v)
    case Nominal(_, _, stored, _, _, _) => stored
  }

  /** `T.self is any Identifiable.Type`: only user types declare the conformance. */
  predicate IsIdentifiableType(t: TypeTerm) {
    t.Nominal? && t.conformsToIdentifiable
  }

  /** `T.self is any OptionalType.Type`. */
  predicate IsOptionalType(t: TypeTerm) {
    t.OptionalOf?
  }

  /** `T.self as? any RawRepresentable.Type` succeeds. */
  predicate IsRawRepresentable(t: TypeTerm) {
    t.Nominal? && t.rawValue.Some?
  }

  /** `StoredType.fields`: the reflected (name, key path) pairs, in reflection order. */
  function Fields(t: TypeTerm): (r: seq<(string, KeyPath)>)
    requires t.Nominal?
    ensures |r| == |t.fields|
    ensures forall i :: 0 <= i < |r| ==> r[i] == (t.fields[i].name, t.fields[i].keyPath)
  {
    seq(|t.fields|, i requires 0 <= i < |t.fields| => (t.fields[i].name, t.fields[i].keyPath))
  }
}
