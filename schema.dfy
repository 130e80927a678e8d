/** `Schema`: the root types are classified, then a first-in first-out worklist
    of descriptions is drained, keeping each description whose base type has
    not been seen and queueing its children behind everything already pending.
    The result lists the kept descriptions, their base types, the composites
    among them and a lookup of composites by base type. */
module SchemaBuilder {
  import opened Wrappers
  import opened TypeTerms
  import opened TypeDescriptions
  import opened StorageErrors
  import opened Classifier

  datatype Schema = Schema(
    storedTypes: seq<TypeDescription>,
    compositeTypes: seq<TypeDescription>,
    baseTypes: seq<TypeTerm>,
    typeDescriptionLookup: map<TypeTerm, TypeDescription>)

  // ---------------------------------------------------------------------------
  // Helpers over description lists

  /** `descriptions.map(\.baseType)` */
  function BaseTypes(ds: seq<TypeDescription>): (r: seq<TypeTerm>)
    ensures |r| == |ds|
    ensures forall i :: 0 <= i < |ds| ==> r[i] == ds[i].baseType
  {
    seq(|ds|, i requires 0 <= i < |ds| => ds[i].baseType)
  }

  /** The identities a set of `ObjectIdentifier`s would hold for `ds`. */
  function BaseTypeSet(ds: seq<TypeDescription>): set<TypeTerm> {
    set d | d in ds :: d.baseType
  }

  /** No base type occurs twice. */
  ghost predicate Distinct(ds: seq<TypeDescription>) {
    forall i, j :: 0 <= i < j < |ds| ==> ds[i].baseType != ds[j].baseType
  }

  /** `compactMap { $0 as? CompositeTypeDescription }` */
  function Composites(ds: seq<TypeDescription>): (r: seq<TypeDescription>)
    ensures |r| <= |ds|
    ensures forall d :: d in r <==> d in ds && d.Composite?
  {
    if ds == [] then []
    else (if ds[0].Composite? then [ds[0]] else []) + Composites(ds[1..])
  }

  /** `compactMap { $0 as? PrimitiveTypeDescription }` */
  function Primitives(ds: seq<TypeDescription>): (r: seq<TypeDescription>)
    ensures |r| <= |ds|
    ensures forall d :: d in r <==> d in ds && d.Primitive?
  {
    if ds == [] then []
    else (if ds[0].Primitive? then [ds[0]] else []) + Primitives(ds[1..])
  }

  /** `compactMap { $0 as? MultiValueTypeDescription }` */
  function MultiValues(ds: seq<TypeDescription>): (r: seq<TypeDescription>)
    ensures |r| <= |ds|
    ensures forall d :: d in r <==> d in ds && d.MultiValue?
  {
    if ds == [] then []
    else (if ds[0].MultiValue? then [ds[0]] else []) + MultiValues(ds[1..])
  }

  /** Filtering distributes over concatenation, so it keeps the order of `ds`. */
  lemma {:induction false} CompositesDistribute(a: seq<TypeDescription>, b: seq<TypeDescription>)
    ensures Composites(a + b) == Composites(a) + Composites(b)
  {
    if a == [] {
      assert a + b == b;
    } else {
      assert (a + b)[1..] == a[1..] + b;
      CompositesDistribute(a[1..], b);
    }
  }

  /** Like `Composites`, `Primitives` keeps the order of `ds`. */
  lemma {:induction false} PrimitivesDistribute(a: seq<TypeDescription>, b: seq<TypeDescription>)
    ensures Primitives(a + b) == Primitives(a) + Primitives(b)
  {
    if a == [] {
      assert a + b == b;
    } else {
      assert (a + b)[1..] == a[1..] + b;
      PrimitivesDistribute(a[1..], b);
    }
  }

  /** Like `Composites`, `MultiValues` keeps the order of `ds`. */
  lemma {:induction false} MultiValuesDistribute(a: seq<TypeDescription>, b: seq<TypeDescription>)
    ensures MultiValues(a + b) == MultiValues(a) + MultiValues(b)
  {
    if a == [] {
      assert a + b == b;
    } else {
      assert (a + b)[1..] == a[1..] + b;
      MultiValuesDistribute(a[1..], b);
    }
  }

  /** `Dictionary(uniqueKeysWithValues: composites.map { ($0.baseType, $0) })` */
  function LookupOf(cs: seq<TypeDescription>): (m: map<TypeTerm, TypeDescription>)
    ensures forall t :: t in m <==> exists i :: 0 <= i < |cs| && cs[i].baseType == t
    ensures forall t :: t in m ==> m[t] in cs && m[t].baseType == t
  {
    if cs == [] then map[]
    else LookupOf(cs[..|cs| - 1])[cs[|cs| - 1].baseType := cs[|cs| - 1]]
  }

  /** The derived fields of a finished traversal. */
  function SchemaFrom(stored: seq<TypeDescription>): (s: Schema)
    ensures s.storedTypes == stored
    ensures forall d :: d in s.compositeTypes <==> d in stored && d.Composite?
    ensures |s.baseTypes| == |stored| && forall i :: 0 <= i < |stored| ==> s.baseTypes[i] == stored[i].baseType
    ensures forall t :: t in s.typeDescriptionLookup <==> exists d :: d in s.compositeTypes && d.baseType == t
    ensures forall t :: t in s.typeDescriptionLookup ==>
              s.typeDescriptionLookup[t] in s.compositeTypes && s.typeDescriptionLookup[t].baseType == t
  {
    var composites := Composites(stored);
    Schema(stored, composites, BaseTypes(stored), LookupOf(composites))
  }

  /** `primitiveTypes` */
  function PrimitiveTypes(s: Schema): seq<TypeDescription> {
    Primitives(s.storedTypes)
  }

  /** `multiValueTypes` */
  function MultiValueTypes(s: Schema): seq<TypeDescription> {
    MultiValues(s.storedTypes)
  }

  /** `description(for:)`: the composite registered under the value's dynamic
      type, if any. */
  function DescriptionFor(s: Schema, valueType: TypeTerm): Option<TypeDescription> {
    if valueType in s.typeDescriptionLookup then Some(s.typeDescriptionLookup[valueType]) else None
  }

  // ---------------------------------------------------------------------------
  // Classification of the roots

  /** `for type in types { unprocessed.append(try type.storedTypeDescription) }`,
      from the `i`-th root on. */
  function ClassifyRootsFrom(types: seq<TypeTerm>, i: nat): (r: Result<seq<TypeDescription>, StorageError>)
    requires i <= |types| && forall k :: 0 <= k < |types| ==> IsStoredType(types[k])
    ensures r.Success? <==> forall j :: i <= j < |types| ==> Classify(types[j]).Success?
    ensures r.Success? ==> |r.value| == |types| - i
    ensures r.Success? ==> forall j :: 0 <= j < |r.value| ==> r.value[j] == Classify(types[i + j]).value
    decreases |types| - i
  {
    if i == |types| then Success([])
    else
      var d :- Classify(types[i]);
      var rest :- ClassifyRootsFrom(types, i + 1);
      Success([d] + rest)
  }

  /** The first root that cannot be classified decides the error. */
  lemma {:induction false} FirstRootFailureAborts(types: seq<TypeTerm>, start: nat, i: nat)
    requires start <= i < |types| && forall k :: 0 <= k < |types| ==> IsStoredType(types[k])
    requires forall k :: start <= k < i ==> Classify(types[k]).Success?
    requires Classify(types[i]).Failure?
    ensures ClassifyRootsFrom(types, start) == Failure(Classify(types[i]).error)
    decreases i - start
  {
    if start < i {
      FirstRootFailureAborts(types, start + 1, i);
    }
  }

  // ---------------------------------------------------------------------------
  // The traversal

  /** Replacing the head of the worklist by its children shrinks the worklist. */
  lemma StepShrinks(pending: seq<TypeDescription>)
    requires pending != []
    ensures SizeAll(pending[1..] + TransitiveTypeDescriptions(pending[0])) < SizeAll(pending)
    ensures SizeAll(pending[1..]) < SizeAll(pending)
  {
    SizeAllAppend(pending[1..], TransitiveTypeDescriptions(pending[0]));
    ChildrenAreSmaller(pending[0]);
  }

  /** The worklist loop: pop the head; skip it when its base type was seen;
      otherwise keep it and queue its children at the back. */
  function Traverse(pending: seq<TypeDescription>, seen: set<TypeTerm>,
                    stored: seq<TypeDescription>): (r: seq<TypeDescription>)
    decreases SizeAll(pending)
  {
    if pending == [] then stored
    else
      var d := pending[0];
      StepShrinks(pending);
      if d.baseType in seen then Traverse(pending[1..], seen, stored)
      else Traverse(pending[1..] + TransitiveTypeDescriptions(d), seen + {d.baseType}, stored + [d])
  }

  /** `Schema(types:)` */
  function SchemaOf(types: seq<TypeTerm>): (r: Result<Schema, StorageError>)
    requires |types| > 0 && forall k :: 0 <= k < |types| ==> IsStoredType(types[k])
  {
    var roots :- ClassifyRootsFrom(types, 0);
    Success(SchemaFrom(Traverse(roots, {}, [])))
  }

  /** `Schema(_ first:, _ types...)` */
  function SchemaOfTypes(first: TypeTerm, types: seq<TypeTerm>): (r: Result<Schema, StorageError>)
    requires IsStoredType(first) && forall k :: 0 <= k < |types| ==> IsStoredType(types[k])
    ensures r == SchemaOf([first] + types)
    ensures Classify(first).Failure? ==> r == Failure(Classify(first).error)
  {
    var all := [first] + types;
    if Classify(first).Failure? then
      FirstRootFailureAborts(all, 0, 0);
      SchemaOf(all)
    else
      SchemaOf(all)
  }

  /** The imperative `Schema(types:)`: classify every root, then drain the
      worklist. The worklist is never empty on entry because there is a root. */
  method BuildSchema(types: seq<TypeTerm>) returns (r: Result<Schema, StorageError>)
    requires |types| > 0 && forall k :: 0 <= k < |types| ==> IsStoredType(types[k])
    ensures r == SchemaOf(types)
  {
    var unprocessed: seq<TypeDescription> := [];
    for i := 0 to |types|
      invariant |unprocessed| == i
      invariant forall j :: 0 <= j < i ==>
                  Classify(types[j]).Success? && unprocessed[j] == Classify(types[j]).value
    {
      var d := Classify(types[i]);
      if d.Failure? {
        FirstRootFailureAborts(types, 0, i);
        return Failure(d.error);
      }
      unprocessed := unprocessed + [d.value];
    }
    ghost var roots := unprocessed;
    var spec := ClassifyRootsFrom(types, 0);
    assert spec.Success?;
    assert spec.value == roots;

    var processed: set<TypeTerm> := {};
    var stored: seq<TypeDescription> := [];
    while unprocessed != []
      invariant Traverse(unprocessed, processed, stored) == Traverse(roots, {}, [])
      decreases SizeAll(unprocessed)
    {
      StepShrinks(unprocessed);
      var d := unprocessed[0];
      unprocessed := unprocessed[1..];
      if d.baseType in processed {
        continue;
      }
      processed := processed + {d.baseType};
      stored := stored + [d];
      unprocessed := unprocessed + TransitiveTypeDescriptions(d);
    }
    return Success(SchemaFrom(stored));
  }

  // ---------------------------------------------------------------------------
  // Properties of the traversal

  /** What is already kept stays kept, in place: the result extends `stored`. */
  lemma {:induction false} TraverseExtends(pending: seq<TypeDescription>, seen: set<TypeTerm>,
                                           stored: seq<TypeDescription>)
    ensures |stored| <= |Traverse(pending, seen, stored)|
    ensures Traverse(pending, seen, stored)[..|stored|] == stored
    decreases SizeAll(pending)
  {
    if pending != [] {
      var d := pending[0];
      StepShrinks(pending);
      if d.baseType in seen {
        TraverseExtends(pending[1..], seen, stored);
      } else {
        TraverseExtends(pending[1..] + TransitiveTypeDescriptions(d), seen + {d.baseType}, stored + [d]);
        assert (stored + [d])[..|stored|] == stored;
      }
    }
  }

  /** Each base type is kept at most once, the seen set is the set of kept base
      types, and every pending description's base type ends up kept. */
  lemma {:induction false} TraverseKeepsDistinct(pending: seq<TypeDescription>, seen: set<TypeTerm>,
                                                 stored: seq<TypeDescription>)
    requires seen == BaseTypeSet(stored) && Distinct(stored)
    ensures Distinct(Traverse(pending, seen, stored))
    ensures forall x :: x in pending ==> x.baseType in BaseTypeSet(Traverse(pending, seen, stored))
    decreases SizeAll(pending)
  {
    var r := Traverse(pending, seen, stored);
    if pending != [] {
      var d := pending[0];
      StepShrinks(pending);
      if d.baseType in seen {
        TraverseKeepsDistinct(pending[1..], seen, stored);
        TraverseExtends(pending[1..], seen, stored);
        var e :| e in stored && e.baseType == d.baseType;
        assert e in r by { assert e == r[..|stored|][IndexIn(e, stored)]; }
      } else {
        var stored' := stored + [d];
        assert BaseTypeSet(stored') == seen + {d.baseType};
        TraverseKeepsDistinct(pending[1..] + TransitiveTypeDescriptions(d), seen + {d.baseType}, stored');
        TraverseExtends(pending[1..] + TransitiveTypeDescriptions(d), seen + {d.baseType}, stored');
        assert d == r[..|stored'|][|stored|];
      }
    }
  }

  /** Every child of a kept description is kept under its base type (or is
      still pending); `seen` tracks the kept base types. */
  ghost predicate ChildrenCovered(stored: seq<TypeDescription>, pending: seq<TypeDescription>, seen: set<TypeTerm>) {
    forall d, c :: d in stored && c in TransitiveTypeDescriptions(d) ==> c.baseType in seen || c in pending
  }

  /** The base type of every child of a member is the base type of a member. */
  ghost predicate ClosedUnderChildren(ds: seq<TypeDescription>) {
    forall d, c :: d in ds && c in TransitiveTypeDescriptions(d) ==> c.baseType in BaseTypeSet(ds)
  }

  lemma {:induction false} TraverseIsClosed(pending: seq<TypeDescription>, seen: set<TypeTerm>,
                                            stored: seq<TypeDescription>)
    requires seen == BaseTypeSet(stored) && ChildrenCovered(stored, pending, seen)
    ensures ClosedUnderChildren(Traverse(pending, seen, stored))
    decreases SizeAll(pending)
  {
    if pending != [] {
      var d := pending[0];
      StepShrinks(pending);
      if d.baseType in seen {
        assert ChildrenCovered(stored, pending[1..], seen) by {
          forall e, c | e in stored && c in TransitiveTypeDescriptions(e)
            ensures c.baseType in seen || c in pending[1..]
          {
          }
        }
        TraverseIsClosed(pending[1..], seen, stored);
      } else {
        var stored' := stored + [d];
        var seen' := seen + {d.baseType};
        var pending' := pending[1..] + TransitiveTypeDescriptions(d);
        assert BaseTypeSet(stored') == seen';
        assert ChildrenCovered(stored', pending', seen') by {
          forall e, c | e in stored' && c in TransitiveTypeDescriptions(e)
            ensures c.baseType in seen' || c in pending'
          {
            if e != d {
              assert e in stored;
            }
          }
        }
        TraverseIsClosed(pending', seen', stored');
      }
    }
  }

  /** Every kept description is a root or a child of a description kept before it. */
  ghost predicate DiscoveryOrdered(roots: seq<TypeDescription>, ds: seq<TypeDescription>) {
    forall j :: 0 <= j < |ds| ==>
      ds[j] in roots || exists i :: 0 <= i < j && ds[j] in TransitiveTypeDescriptions(ds[i])
  }

  /** Every pending description is a root or a child of a kept one. */
  ghost predicate PendingFromRoots(roots: seq<TypeDescription>, stored: seq<TypeDescription>, pending: seq<TypeDescription>) {
    forall x :: x in pending ==>
      x in roots || exists i :: 0 <= i < |stored| && x in TransitiveTypeDescriptions(stored[i])
  }

  lemma {:induction false} TraverseDiscovers(roots: seq<TypeDescription>, pending: seq<TypeDescription>,
                                             seen: set<TypeTerm>, stored: seq<TypeDescription>)
    requires PendingFromRoots(roots, stored, pending) && DiscoveryOrdered(roots, stored)
    ensures DiscoveryOrdered(roots, Traverse(pending, seen, stored))
    decreases SizeAll(pending)
  {
    if pending != [] {
      var d := pending[0];
      StepShrinks(pending);
      if d.baseType in seen {
        TraverseDiscovers(roots, pending[1..], seen, stored);
      } else {
        var stored' := stored + [d];
        var pending' := pending[1..] + TransitiveTypeDescriptions(d);
        assert PendingFromRoots(roots, stored', pending') by {
          forall x | x in pending'
            ensures x in roots || exists i :: 0 <= i < |stored'| && x in TransitiveTypeDescriptions(stored'[i])
          {
            if x in TransitiveTypeDescriptions(d) {
              assert stored'[|stored|] == d;
            } else {
              assert x in pending;
              if !(x in roots) {
                var i :| 0 <= i < |stored| && x in TransitiveTypeDescriptions(stored[i]);
                assert stored'[i] == stored[i];
              }
            }
          }
        }
        assert DiscoveryOrdered(roots, stored') by {
          forall j | 0 <= j < |stored'|
            ensures stored'[j] in roots || exists i :: 0 <= i < j && stored'[j] in TransitiveTypeDescriptions(stored'[i])
          {
            if j < |stored| {
              assert stored'[j] == stored[j];
              if stored[j] !in roots {
                var i :| 0 <= i < j && stored[j] in TransitiveTypeDescriptions(stored[i]);
                assert stored'[i] == stored[i];
              }
            } else if d !in roots {
              assert d in pending;
              var i :| 0 <= i < |stored| && d in TransitiveTypeDescriptions(stored[i]);
              assert stored'[i] == stored[i];
            }
          }
        }
        TraverseDiscovers(roots, pending', seen + {d.baseType}, stored');
      }
    }
  }

  /** The descriptions of `p` whose base type is new, each at its first
      occurrence, in order. */
  function NewIn(p: seq<TypeDescription>, seen: set<TypeTerm>): (r: seq<TypeDescription>)
    decreases |p|
  {
    if p == [] then []
    else if p[0].baseType in seen then NewIn(p[1..], seen)
    else [p[0]] + NewIn(p[1..], seen + {p[0].baseType})
  }

  /** The children of `ds`, one description after the other. */
  function ChildrenOfAll(ds: seq<TypeDescription>): seq<TypeDescription> {
    if ds == [] then [] else TransitiveTypeDescriptions(ds[0]) + ChildrenOfAll(ds[1..])
  }

  /** The worklist is drained in rounds, which is what makes the order
      breadth-first: the whole of `p` is dealt with before anything queued
      behind it, keeping its new descriptions in order, and the children of
      those are queued behind `q`. */
  lemma {:induction false} TraverseByRounds(p: seq<TypeDescription>, q: seq<TypeDescription>,
                                            seen: set<TypeTerm>, stored: seq<TypeDescription>)
    ensures Traverse(p + q, seen, stored) ==
            Traverse(q + ChildrenOfAll(NewIn(p, seen)), seen + BaseTypeSet(p), stored + NewIn(p, seen))
    decreases |p|
  {
    if p == [] {
      assert p + q == q;
      assert q + ChildrenOfAll(NewIn(p, seen)) == q;
      assert stored + NewIn(p, seen) == stored;
      assert seen + BaseTypeSet(p) == seen;
    } else {
      var d := p[0];
      var p' := p[1..];
      TraverseStep(p + q, seen, stored);
      assert (p + q)[0] == d;
      assert (p + q)[1..] == p' + q;
      BaseTypeSetCons(p);
      if d.baseType in seen {
        assert Traverse(p + q, seen, stored) == Traverse(p' + q, seen, stored);
        TraverseByRounds(p', q, seen, stored);
        assert NewIn(p, seen) == NewIn(p', seen);
        assert seen + BaseTypeSet(p) == seen + BaseTypeSet(p');
      } else {
        RoundKeepsHead(p, q, seen, stored);
      }
    }
  }

  lemma {:induction false} RoundKeepsHead(p: seq<TypeDescription>, q: seq<TypeDescription>,
                                          seen: set<TypeTerm>, stored: seq<TypeDescription>)
    requires p != [] && p[0].baseType !in seen
    requires Traverse(p + q, seen, stored) ==
             Traverse((p[1..] + q) + TransitiveTypeDescriptions(p[0]), seen + {p[0].baseType}, stored + [p[0]])
    requires BaseTypeSet(p) == {p[0].baseType} + BaseTypeSet(p[1..])
    ensures Traverse(p + q, seen, stored) ==
            Traverse(q + ChildrenOfAll(NewIn(p, seen)), seen + BaseTypeSet(p), stored + NewIn(p, seen))
    decreases |p|, 0
  {
    var d := p[0];
    var kids := TransitiveTypeDescriptions(d);
    var seen' := seen + {d.baseType};
    var rest := NewIn(p[1..], seen');
    KeptHeadShapes(p, q, seen, stored);
    assert seen' + BaseTypeSet(p[1..]) == seen + BaseTypeSet(p);
    TraverseByRounds(p[1..], q + kids, seen', stored + [d]);
  }

  /** The list identities behind one kept head. */
  lemma KeptHeadShapes(p: seq<TypeDescription>, q: seq<TypeDescription>,
                       seen: set<TypeTerm>, stored: seq<TypeDescription>)
    requires p != [] && p[0].baseType !in seen
    ensures (p[1..] + q) + TransitiveTypeDescriptions(p[0]) == p[1..] + (q + TransitiveTypeDescriptions(p[0]))
    ensures (q + TransitiveTypeDescriptions(p[0])) + ChildrenOfAll(NewIn(p[1..], seen + {p[0].baseType}))
            == q + ChildrenOfAll(NewIn(p, seen))
    ensures (stored + [p[0]]) + NewIn(p[1..], seen + {p[0].baseType}) == stored + NewIn(p, seen)
  {
    NewInKeepsHead(p, seen);
    var kids := TransitiveTypeDescriptions(p[0]);
    var rest := NewIn(p[1..], seen + {p[0].baseType});
    ConcatAssociates(p[1..], q, kids);
    ConcatAssociates(q, kids, ChildrenOfAll(rest));
    ConcatAssociates(stored, [p[0]], rest);
  }

  lemma ConcatAssociates<T>(a: seq<T>, b: seq<T>, c: seq<T>)
    ensures (a + b) + c == a + (b + c)
  {
  }

  lemma NewInKeepsHead(p: seq<TypeDescription>, seen: set<TypeTerm>)
    requires p != [] && p[0].baseType !in seen
    ensures NewIn(p, seen) == [p[0]] + NewIn(p[1..], seen + {p[0].baseType})
    ensures ChildrenOfAll(NewIn(p, seen)) ==
            TransitiveTypeDescriptions(p[0]) + ChildrenOfAll(NewIn(p[1..], seen + {p[0].baseType}))
  {
    var news := NewIn(p, seen);
    assert news[0] == p[0] && news[1..] == NewIn(p[1..], seen + {p[0].baseType});
  }

  /** One step of the worklist loop. */
  lemma TraverseStep(pending: seq<TypeDescription>, seen: set<TypeTerm>, stored: seq<TypeDescription>)
    requires pending != []
    ensures pending[0].baseType in seen ==> Traverse(pending, seen, stored) == Traverse(pending[1..], seen, stored)
    ensures pending[0].baseType !in seen ==>
              Traverse(pending, seen, stored) ==
              Traverse(pending[1..] + TransitiveTypeDescriptions(pending[0]), seen + {pending[0].baseType},
                       stored + [pending[0]])
  {
  }

  lemma BaseTypeSetCons(p: seq<TypeDescription>)
    requires p != []
    ensures BaseTypeSet(p) == {p[0].baseType} + BaseTypeSet(p[1..])
  {
    assert p == [p[0]] + p[1..];
  }

  /** A kept description reached from canonical roots is canonical. */
  lemma {:induction false} CanonicalAt(roots: seq<TypeDescription>, ds: seq<TypeDescription>, j: nat)
    requires forall x :: x in roots ==> Canonical(x)
    requires DiscoveryOrdered(roots, ds) && j < |ds|
    ensures Canonical(ds[j])
    decreases j
  {
    if ds[j] !in roots {
      var i :| 0 <= i < j && ds[j] in TransitiveTypeDescriptions(ds[i]);
      CanonicalAt(roots, ds, i);
      ChildrenOfCanonicalAreCanonical(ds[i]);
    }
  }

  /** `NewIn` keeps exactly one description per new base type of `p`, from `p`. */
  lemma {:induction false} NewInKeepsFirstOccurrences(p: seq<TypeDescription>, seen: set<TypeTerm>)
    ensures forall d :: d in NewIn(p, seen) ==> d in p && d.baseType !in seen
    ensures Distinct(NewIn(p, seen))
    ensures BaseTypeSet(NewIn(p, seen)) == BaseTypeSet(p) - seen
    decreases |p|
  {
    if p != [] {
      var d := p[0];
      BaseTypeSetCons(p);
      if d.baseType in seen {
        NewInKeepsFirstOccurrences(p[1..], seen);
      } else {
        NewInKeepsFirstOccurrences(p[1..], seen + {d.baseType});
        NewInKeepsHead(p, seen);
        var rest := NewIn(p[1..], seen + {d.baseType});
        BaseTypeSetCons([d] + rest);
        assert ([d] + rest)[1..] == rest;
      }
    }
  }

  /** Filtering keeps distinctness. */
  lemma {:induction false} CompositesKeepDistinct(ds: seq<TypeDescription>)
    requires Distinct(ds)
    ensures Distinct(Composites(ds))
  {
    if ds != [] {
      CompositesKeepDistinct(ds[1..]);
      var rest := Composites(ds[1..]);
      forall c | c in rest
        ensures c.baseType != ds[0].baseType
      {
        var k := IndexIn(c, ds[1..]);
        assert ds[k + 1] == c;
      }
    }
  }

  /** With distinct base types, the lookup answers exactly the composite of the
      asked type, and nothing when there is none. */
  lemma LookupFindsComposites(stored: seq<TypeDescription>, t: TypeTerm)
    requires Distinct(stored)
    ensures DescriptionFor(SchemaFrom(stored), t).Some? ==>
              DescriptionFor(SchemaFrom(stored), t).value in SchemaFrom(stored).compositeTypes
              && DescriptionFor(SchemaFrom(stored), t).value.baseType == t
    ensures DescriptionFor(SchemaFrom(stored), t).None? <==>
              forall c :: c in SchemaFrom(stored).compositeTypes ==> c.baseType != t
    ensures forall c :: c in SchemaFrom(stored).compositeTypes && c.baseType == t ==>
              DescriptionFor(SchemaFrom(stored), t) == Some(c)
  {
    var cs := Composites(stored);
    CompositesKeepDistinct(stored);
    forall c | c in cs && c.baseType == t
      ensures DescriptionFor(SchemaFrom(stored), t) == Some(c)
    {
      var i := IndexIn(c, cs);
      assert t in LookupOf(cs);
      var found := LookupOf(cs)[t];
      var j := IndexIn(found, cs);
      assert i == j;
    }
    if DescriptionFor(SchemaFrom(stored), t).None? {
      forall c | c in cs
        ensures c.baseType != t
      {
        var i := IndexIn(c, cs);
      }
    }
  }

  // ---------------------------------------------------------------------------
  // Properties of `Schema(types:)`

  /** The schema exists exactly when every root classifies; otherwise the first
      root that fails decides the error. */
  lemma RootErrorsAbort(types: seq<TypeTerm>)
    requires |types| > 0 && forall k :: 0 <= k < |types| ==> IsStoredType(types[k])
    ensures SchemaOf(types).Success? <==> forall k :: 0 <= k < |types| ==> Classify(types[k]).Success?
    ensures forall i :: 0 <= i < |types| && Classify(types[i]).Failure?
                        && (forall k :: 0 <= k < i ==> Classify(types[k]).Success?) ==>
              SchemaOf(types) == Failure(Classify(types[i]).error)
  {
    forall i | 0 <= i < |types| && Classify(types[i]).Failure?
               && (forall k :: 0 <= k < i ==> Classify(types[k]).Success?)
      ensures SchemaOf(types) == Failure(Classify(types[i]).error)
    {
      FirstRootFailureAborts(types, 0, i);
    }
  }

  /** The classified roots, when all of them classify. */
  function Roots(types: seq<TypeTerm>): (roots: seq<TypeDescription>)
    requires forall k :: 0 <= k < |types| ==> IsStoredType(types[k])
    requires forall k :: 0 <= k < |types| ==> Classify(types[k]).Success?
    ensures |roots| == |types|
    ensures forall k :: 0 <= k < |types| ==> roots[k] == Classify(types[k]).value && roots[k].baseType == types[k]
  {
    ClassifyRootsFrom(types, 0).value
  }

  /** `storedTypes` holds each base type once, every root's type among them,
      and `baseTypes` is their base types in the same order; the composites are
      distinct too, so building the lookup never meets a duplicate key. */
  lemma SchemaIsDeduplicated(types: seq<TypeTerm>)
    requires |types| > 0 && forall k :: 0 <= k < |types| ==> IsStoredType(types[k])
    requires SchemaOf(types).Success?
    ensures Distinct(SchemaOf(types).value.storedTypes)
    ensures Distinct(SchemaOf(types).value.compositeTypes)
    ensures forall k :: 0 <= k < |types| ==> types[k] in SchemaOf(types).value.baseTypes
    ensures SchemaOf(types).value.baseTypes == BaseTypes(SchemaOf(types).value.storedTypes)
  {
    RootErrorsAbort(types);
    var roots := Roots(types);
    var stored := Traverse(roots, {}, []);
    assert BaseTypeSet([]) == {};
    TraverseKeepsDistinct(roots, {}, []);
    CompositesKeepDistinct(stored);
    forall k | 0 <= k < |types|
      ensures types[k] in BaseTypes(stored)
    {
      assert roots[k] in roots;
      var d :| d in stored && d.baseType == types[k];
      var i := IndexIn(d, stored);
      assert BaseTypes(stored)[i] == types[k];
    }
  }

  /** Every child of a stored description is itself stored; every stored
      description is what its own base type is described as; and each is a root
      or a child of a description stored before it. */
  lemma SchemaIsClosed(types: seq<TypeTerm>)
    requires |types| > 0 && forall k :: 0 <= k < |types| ==> IsStoredType(types[k])
    requires SchemaOf(types).Success?
    ensures forall d, c :: d in SchemaOf(types).value.storedTypes && c in TransitiveTypeDescriptions(d) ==>
              c in SchemaOf(types).value.storedTypes
    ensures forall d :: d in SchemaOf(types).value.storedTypes ==> Canonical(d)
    ensures forall j :: 0 <= j < |SchemaOf(types).value.storedTypes| ==>
              || SchemaOf(types).value.storedTypes[j].baseType in types
              || exists i :: 0 <= i < j && SchemaOf(types).value.storedTypes[j] in
                                              TransitiveTypeDescriptions(SchemaOf(types).value.storedTypes[i])
  {
    RootErrorsAbort(types);
    var roots := Roots(types);
    var stored := Traverse(roots, {}, []);
    assert stored == SchemaOf(types).value.storedTypes;
    assert BaseTypeSet([]) == {};
    TraverseIsClosed(roots, {}, []);
    TraverseDiscovers(roots, roots, {}, []);
    assert forall x :: x in roots ==> Canonical(x) by {
      forall x | x in roots
        ensures Canonical(x)
      {
        var k := IndexIn(x, roots);
      }
    }
    forall j | 0 <= j < |stored|
      ensures Canonical(stored[j])
      ensures stored[j] in roots ==> stored[j].baseType in types
    {
      CanonicalAt(roots, stored, j);
      if stored[j] in roots {
        var k := IndexIn(stored[j], roots);
      }
    }
    forall d, c | d in stored && c in TransitiveTypeDescriptions(d)
      ensures c in stored
    {
      var i := IndexIn(d, stored);
      ChildrenOfCanonicalAreCanonical(d);
      var e :| e in stored && e.baseType == c.baseType;
      var k := IndexIn(e, stored);
      SameBaseTypeSameDescription(e, c);
    }
  }

  /** Breadth-first order: the distinct roots come first, in their order, and
      then the traversal of their children continues behind them. */
  lemma SchemaStartsWithRoots(types: seq<TypeTerm>)
    requires |types| > 0 && forall k :: 0 <= k < |types| ==> IsStoredType(types[k])
    requires SchemaOf(types).Success?
    ensures forall k :: 0 <= k < |types| ==> Classify(types[k]).Success?
    ensures SchemaOf(types).value.storedTypes ==
            Traverse(ChildrenOfAll(NewIn(Roots(types), {})), set k | 0 <= k < |types| :: types[k], NewIn(Roots(types), {}))
    ensures |NewIn(Roots(types), {})| <= |SchemaOf(types).value.storedTypes|
    ensures SchemaOf(types).value.storedTypes[..|NewIn(Roots(types), {})|] == NewIn(Roots(types), {})
  {
    RootErrorsAbort(types);
    var roots := Roots(types);
    SchemaTraversesRoots(types);
    var news := NewIn(roots, {});
    TraverseByRounds(roots, [], {}, []);
    assert roots + [] == roots;
    assert [] + ChildrenOfAll(news) == ChildrenOfAll(news);
    assert [] + news == news;
    RootBaseTypes(types);
    assert {} + BaseTypeSet(roots) == BaseTypeSet(roots);
    TraverseExtends(ChildrenOfAll(news), BaseTypeSet(roots), news);
  }

  lemma SchemaTraversesRoots(types: seq<TypeTerm>)
    requires |types| > 0 && forall k :: 0 <= k < |types| ==> IsStoredType(types[k])
    requires forall k :: 0 <= k < |types| ==> Classify(types[k]).Success?
    ensures SchemaOf(types) == Success(SchemaFrom(Traverse(Roots(types), {}, [])))
  {
    RootErrorsAbort(types);
  }

  lemma RootBaseTypes(types: seq<TypeTerm>)
    requires forall k :: 0 <= k < |types| ==> IsStoredType(types[k])
    requires forall k :: 0 <= k < |types| ==> Classify(types[k]).Success?
    ensures BaseTypeSet(Roots(types)) == set k | 0 <= k < |types| :: types[k]
  {
    var roots := Roots(types);
    forall t | t in BaseTypeSet(roots)
      ensures t in set k | 0 <= k < |types| :: types[k]
    {
      var d :| d in roots && d.baseType == t;
      var k := IndexIn(d, roots);
    }
    forall k | 0 <= k < |types|
      ensures types[k] in BaseTypeSet(roots)
    {
      assert roots[k] in roots;
    }
  }

  /** The position of an element of a sequence. */
  function IndexIn(x: TypeDescription, ds: seq<TypeDescription>): (i: nat)
    requires x in ds
    ensures i < |ds| && ds[i] == x
  {
    if ds[0] == x then 0 else 1 + IndexIn(x, ds[1..])
  }
}
