/** `Bimap`: a pair of dictionaries, left to right and right to left. The two
    initialisers build them as inverses of each other; each subscript setter
    updates only its own direction. */
module Bimaps {
  import opened Wrappers

  /** No two pairs share a left element. */
  ghost predicate UniqueLefts<L, R>(pairs: seq<(L, R)>) {
    forall i, j :: 0 <= i < j < |pairs| ==> pairs[i].0 != pairs[j].0
  }

  /** No two pairs share a right element. */
  ghost predicate UniqueRights<L, R>(pairs: seq<(L, R)>) {
    forall i, j :: 0 <= i < j < |pairs| ==> pairs[i].1 != pairs[j].1
  }

  /** `Dictionary(uniqueKeysWithValues: pairs)`, which traps on a repeated key. */
  function MapOf<K, V>(pairs: seq<(K, V)>): (m: map<K, V>)
    requires UniqueLefts(pairs)
    ensures m.Keys == set i | 0 <= i < |pairs| :: pairs[i].0
    ensures forall i :: 0 <= i < |pairs| ==> pairs[i].0 in m && m[pairs[i].0] == pairs[i].1
  {
    if pairs == [] then map[]
    else
      var front := pairs[..|pairs| - 1];
      assert UniqueLefts(front);
      MapOf(front)[pairs[|pairs| - 1].0 := pairs[|pairs| - 1].1]
  }

  /** `pairs.map { ($1, $0) }` */
  function Flipped<L, R>(pairs: seq<(L, R)>): (r: seq<(R, L)>)
    ensures |r| == |pairs|
    ensures forall i :: 0 <= i < |pairs| ==> r[i] == (pairs[i].1, pairs[i].0)
  {
    seq(|pairs|, i requires 0 <= i < |pairs| => (pairs[i].1, pairs[i].0))
  }

  /** Two maps that undo each other. */
  ghost predicate AreInverse<L, R>(forward: map<L, R>, backward: map<R, L>) {
    && (forall l :: l in forward ==> forward[l] in backward && backward[forward[l]] == l)
    && (forall r :: r in backward ==> backward[r] in forward && forward[backward[r]] == r)
  }

  /** Built from pairs whose lefts and rights are both unique, the two
      dictionaries are inverses of each other. */
  lemma PairMapsAreInverse<L, R>(pairs: seq<(L, R)>)
    requires UniqueLefts(pairs) && UniqueRights(pairs)
    ensures UniqueLefts(Flipped(pairs))
    ensures AreInverse(MapOf(pairs), MapOf(Flipped(pairs)))
  {
    var forward := MapOf(pairs);
    var flipped := Flipped(pairs);
    var backward := MapOf(flipped);
    forall l | l in forward
      ensures forward[l] in backward && backward[forward[l]] == l
    {
      var i :| 0 <= i < |pairs| && pairs[i].0 == l;
      assert flipped[i].0 == pairs[i].1;
    }
    forall r | r in backward
      ensures backward[r] in forward && forward[backward[r]] == r
    {
      var i :| 0 <= i < |flipped| && flipped[i].0 == r;
      assert pairs[i].0 == flipped[i].1;
    }
  }

  class Bimap<L(==), R(==)> {
    var leftToRight: map<L, R>
    var rightToLeft: map<R, L>

    /** `init()` */
    constructor Empty()
      ensures leftToRight == map[] && rightToLeft == map[]
      ensures forall l :: Left(l) == None
      ensures forall r :: Right(r) == None
    {
      leftToRight := map[];
      rightToLeft := map[];
    }

    /** `init(_ elements:)`: both directions built from the same pairs. */
    constructor FromPairs(elements: seq<(L, R)>)
      requires UniqueLefts(elements) && UniqueRights(elements)
      ensures leftToRight == MapOf(elements) && rightToLeft == MapOf(Flipped(elements))
      ensures forall i :: 0 <= i < |elements| ==>
                Left(elements[i].0) == Some(elements[i].1) && Right(elements[i].1) == Some(elements[i].0)
      ensures AreInverse(leftToRight, rightToLeft)
    {
      PairMapsAreInverse(elements);
      leftToRight := MapOf(elements);
      rightToLeft := MapOf(Flipped(elements));
      new;
      forall i | 0 <= i < |elements|
        ensures Right(elements[i].1) == Some(elements[i].0)
      {
        assert Flipped(elements)[i] == (elements[i].1, elements[i].0);
      }
    }

    /** `subscript(left:)` get */
    function Left(l: L): Option<R>
      reads this
    {
      if l in leftToRight then Some(leftToRight[l]) else None
    }

    /** `subscript(right:)` get */
    function Right(r: R): Option<L>
      reads this
    {
      if r in rightToLeft then Some(rightToLeft[r]) else None
    }

    /** `subscript(left:)` set: assigning nil removes the key. Only the
        left-to-right dictionary changes, so the old partner's reverse lookup
        still answers `l`. */
    method SetLeft(l: L, newValue: Option<R>)
      modifies this
      ensures leftToRight == (if newValue.Some? then old(leftToRight)[l := newValue.value] else old(leftToRight) - {l})
      ensures rightToLeft == old(rightToLeft)
      ensures Left(l) == newValue
    {
      if newValue.Some? {
        leftToRight := leftToRight[l := newValue.value];
      } else {
        leftToRight := leftToRight - {l};
      }
    }

    /** `subscript(right:)` set: the mirror image of `SetLeft`. */
    method SetRight(r: R, newValue: Option<L>)
      modifies this
      ensures rightToLeft == (if newValue.Some? then old(rightToLeft)[r := newValue.value] else old(rightToLeft) - {r})
      ensures leftToRight == old(leftToRight)
      ensures Right(r) == newValue
    {
      if newValue.Some? {
        rightToLeft := rightToLeft[r := newValue.value];
      } else {
        rightToLeft := rightToLeft - {r};
      }
    }
  }

  /** Clearing a left key of `Bimap([(1, "a")])` forgets the forward lookup
      but not the reverse one: the setters do not keep the two directions in
      step. */
  method ClearedLeftStillFoundFromRight() returns (forward: Option<string>, backward: Option<int>)
    ensures forward == None && backward == Some(1)
  {
    var b := new Bimap.FromPairs([(1, "a")]);
    b.SetLeft(1, None);
    forward := b.Left(1);
    backward := b.Right("a");
  }
}
