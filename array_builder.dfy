/** `ArrayBuilder`: the result builder that turns a block of expressions,
    optionals, conditionals and loops into one array. */
module ArrayBuilders {
  import opened Wrappers

  /** `components.flatMap { $0 }` */
  function Flatten<T>(components: seq<seq<T>>): (r: seq<T>)
    ensures |r| == TotalLength(components)
    ensures |components| == 1 ==> r == components[0]
  {
    if components == [] then [] else Flatten(components[..|components| - 1]) + components[|components| - 1]
  }

  /** The sum of the component lengths. */
  function TotalLength<T>(components: seq<seq<T>>): nat {
    if components == [] then 0 else TotalLength(components[..|components| - 1]) + |components[|components| - 1]|
  }

  /** `buildExpression(_: T)` */
  function BuildExpression<T>(expression: T): seq<T> {
    [expression]
  }

  /** `buildExpression(_: Array<T>)` */
  function BuildArrayExpression<T>(expression: seq<T>): seq<T> {
    expression
  }

  /** `buildBlock()` */
  function BuildEmptyBlock<T>(): seq<T> {
    []
  }

  /** `buildBlock(_: T...)` */
  function BuildBlock<T>(components: seq<T>): seq<T> {
    components
  }

  /** `buildBlock(_: Array<T>...)` */
  function BuildBlockOfArrays<T>(components: seq<seq<T>>): seq<T> {
    Flatten(components)
  }

  /** `buildArray(_:)` */
  function BuildArray<T>(components: seq<seq<T>>): seq<T> {
    Flatten(components)
  }

  /** `buildExpression(_: T?)` */
  function BuildOptionalExpression<T>(expression: Option<T>): seq<T> {
    match expression
    case Some(x) => [x]
    case None => []
  }

  /** `buildExpression(_: Array<T>?)` */
  function BuildOptionalArrayExpression<T>(expression: Option<seq<T>>): seq<T> {
    expression.GetOr([])
  }

  /** `buildEither(first:)` */
  function BuildEitherFirst<T>(component: seq<T>): seq<T> {
    component
  }

  /** `buildEither(second:)` */
  function BuildEitherSecond<T>(component: seq<T>): seq<T> {
    component
  }

  /** `buildLimitedAvailability(_:)` */
  function BuildLimitedAvailability<T>(component: seq<T>): seq<T> {
    component
  }

  /** `buildFinalResult(_:)` */
  function BuildFinalResult<T>(component: seq<T>): seq<T> {
    component
  }

  /** Flattening distributes over concatenation: two blocks built one after
      the other give their results one after the other. */
  lemma {:induction false} FlattenAppend<T>(a: seq<seq<T>>, b: seq<seq<T>>)
    ensures Flatten(a + b) == Flatten(a) + Flatten(b)
    decreases |b|
  {
    if b == [] {
      assert a + b == a;
    } else {
      var front := b[..|b| - 1];
      assert (a + b)[..|a + b| - 1] == a + front;
      assert (a + b)[|a + b| - 1] == b[|b| - 1];
      FlattenAppend(a, front);
      assert Flatten(a + b) == Flatten(a + front) + b[|b| - 1];
    }
  }

  /** Every element of the result comes from a component, and every element
      of every component is in the result. */
  lemma {:induction false} FlattenKeepsElements<T>(components: seq<seq<T>>, x: T)
    ensures x in Flatten(components) <==> exists i :: 0 <= i < |components| && x in components[i]
  {
    if components != [] {
      var front := components[..|components| - 1];
      var last := components[|components| - 1];
      FlattenKeepsElements(front, x);
      assert Flatten(components) == Flatten(front) + last;
      if x in Flatten(front) {
        var i :| 0 <= i < |front| && x in front[i];
        assert components[i] == front[i];
      }
      if exists i :: 0 <= i < |components| && x in components[i] {
        var i :| 0 <= i < |components| && x in components[i];
        if i < |components| - 1 {
          assert front[i] == components[i];
        }
      }
    }
  }

  /** A block of single expressions gives the expressions themselves, in
      order. */
  lemma {:induction false} SingleExpressionsRoundTrip<T>(xs: seq<T>)
    ensures BuildBlockOfArrays(seq(|xs|, i requires 0 <= i < |xs| => BuildExpression(xs[i]))) == BuildBlock(xs)
  {
    if xs != [] {
      var front := xs[..|xs| - 1];
      SingleExpressionsRoundTrip(front);
      var all := seq(|xs|, i requires 0 <= i < |xs| => BuildExpression(xs[i]));
      assert all[..|all| - 1] == seq(|front|, i requires 0 <= i < |front| => BuildExpression(front[i]));
      assert xs == front + [xs[|xs| - 1]];
    }
  }

  /** An `if`/`else` among a block's components contributes the elements of
      the branch taken, and nothing of the other, at its own position; an
      availability check around the branch changes nothing. */
  lemma ConditionalComponentTakesItsBranch<T>(before: seq<seq<T>>, cond: bool, xs: seq<T>, ys: seq<T>, after: seq<seq<T>>)
    ensures var branch := if cond then BuildEitherFirst(BuildBlock(xs)) else BuildEitherSecond(BuildBlock(ys));
            BuildFinalResult(BuildBlockOfArrays(before + [branch] + after))
            == Flatten(before) + (if cond then xs else ys) + Flatten(after)
    ensures var branch := if cond then BuildEitherFirst(BuildBlock(xs)) else BuildEitherSecond(BuildBlock(ys));
            BuildFinalResult(BuildBlockOfArrays(before + [BuildLimitedAvailability(branch)] + after))
            == Flatten(before) + (if cond then xs else ys) + Flatten(after)
  {
    var taken := if cond then xs else ys;
    FlattenAppend(before + [taken], after);
    FlattenAppend(before, [taken]);
  }

  /** The values that are present, in order. */
  function Present<T>(os: seq<Option<T>>): seq<T> {
    if os == [] then []
    else Present(os[..|os| - 1]) + (match os[|os| - 1] case Some(x) => [x] case None => [])
  }

  /** A block of optional expressions keeps exactly the values that are
      there, in order, and drops the nils. */
  lemma {:induction false} OptionalExpressionsKeepPresentValues<T>(os: seq<Option<T>>)
    ensures BuildBlockOfArrays(seq(|os|, i requires 0 <= i < |os| => BuildOptionalExpression(os[i]))) == Present(os)
    ensures |Present(os)| <= |os|
    ensures (forall i :: 0 <= i < |os| ==> os[i].Some?) ==> |Present(os)| == |os|
  {
    if os != [] {
      var front := os[..|os| - 1];
      OptionalExpressionsKeepPresentValues(front);
      var all := seq(|os|, i requires 0 <= i < |os| => BuildOptionalExpression(os[i]));
      assert all[..|all| - 1] == seq(|front|, i requires 0 <= i < |front| => BuildOptionalExpression(front[i]));
    }
  }

  /** A present optional array passes through like an array expression; a
      nil one, like an empty block of arrays, is the empty block. */
  lemma OptionalArraysDefaultToEmpty<T>(a: seq<T>)
    ensures BuildOptionalArrayExpression(Some(a)) == BuildArrayExpression(a)
    ensures BuildOptionalArrayExpression(None) == BuildEmptyBlock<T>()
    ensures BuildBlockOfArrays<T>([]) == BuildEmptyBlock<T>()
    ensures BuildArray([BuildArrayExpression(a)]) == a
  {
    assert [a][..0] == [];
  }
}
