/**
 * The tie-breaking arg-max shared by epsilon-greedy exploitation and UCB1
 * selection: `xs.index(max(xs))`, the smallest index holding the maximum.
 */
module TieBreak {

  /** `i` holds the maximum of `xs` and no earlier index does. */
  predicate IsFirstMax(xs: seq<real>, i: int) {
    && 0 <= i < |xs|
    && (forall j :: 0 <= j < |xs| ==> xs[j] <= xs[i])
    && (forall j :: 0 <= j < i ==> xs[j] < xs[i])
  }

  /** The largest element, scanning from the left as `max` does (a later
      element replaces the current one only when strictly greater). */
  function Max(xs: seq<real>): (m: real)
    requires |xs| > 0
    ensures m in xs
    ensures forall j :: 0 <= j < |xs| ==> xs[j] <= m
  {
    if |xs| == 1 then xs[0]
    else
      var prefix := xs[..|xs| - 1];
      var m := Max(prefix);
      assert m in xs by { assert prefix == xs[..|xs| - 1]; }
      if xs[|xs| - 1] > m then xs[|xs| - 1] else m
  }

  /** The first position holding `x`, as `list.index` returns it. */
  function IndexOf(xs: seq<real>, x: real): (i: nat)
    requires x in xs
    ensures i < |xs| && xs[i] == x
    ensures forall j :: 0 <= j < i ==> xs[j] != x
  {
    if xs[0] == x then 0 else 1 + IndexOf(xs[1..], x)
  }

  /** `xs.index(max(xs))`. */
  function ArgMax(xs: seq<real>): (i: nat)
    requires |xs| > 0
    ensures IsFirstMax(xs, i)
  {
    IndexOf(xs, Max(xs))
  }

  /** The first-on-tie maximum is unique, so `ArgMax` is the only index with
      that property. */
  lemma ArgMaxCharacterised(xs: seq<real>, i: int)
    requires |xs| > 0
    ensures IsFirstMax(xs, i) <==> i == ArgMax(xs)
  {
  }
}
