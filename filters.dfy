/**
 * The list comprehension `[x for x in xs if p(x)]` every store uses to remove and to select
 * records: the elements that pass, each as often as it occurs, in their original order.
 */
module Filters {

  /** `[x for x in xs if p(x)]`. */
  function Keep<T>(xs: seq<T>, p: T -> bool): (r: seq<T>)
    ensures |r| <= |xs|
  {
    if xs == [] then [] else Keep(xs[..|xs| - 1], p) + (if p(xs[|xs| - 1]) then [xs[|xs| - 1]] else [])
  }

  /**
   * Keep is the sub-list of the elements that pass: each passing element as often as it occurs
   * and no other, in order (cutting the input anywhere cuts the result there), and it is shorter
   * exactly when one fails.
   */
  lemma KeepMembers<T(!new)>(xs: seq<T>, p: T -> bool)
    ensures forall x :: x in Keep(xs, p) <==> x in xs && p(x)
    ensures forall x :: multiset(Keep(xs, p))[x] == if p(x) then multiset(xs)[x] else 0
    ensures forall k :: 0 <= k <= |xs| ==> Keep(xs, p) == Keep(xs[..k], p) + Keep(xs[k..], p)
    ensures |Keep(xs, p)| < |xs| <==> exists k :: 0 <= k < |xs| && !p(xs[k])
  {
    KeepCounts(xs, p);
    KeepIn(xs, p);
    KeepSplit(xs, p);
    KeepShrinks(xs, p);
  }

  lemma KeepIn<T>(xs: seq<T>, p: T -> bool)
    ensures forall x :: x in Keep(xs, p) <==> x in xs && p(x)
  {
    KeepCounts(xs, p);
    forall x ensures x in Keep(xs, p) <==> x in xs && p(x) {
      assert x in Keep(xs, p) <==> x in multiset(Keep(xs, p));
      assert x in xs <==> x in multiset(xs);
    }
  }

  lemma KeepSplit<T>(xs: seq<T>, p: T -> bool)
    ensures forall k :: 0 <= k <= |xs| ==> Keep(xs, p) == Keep(xs[..k], p) + Keep(xs[k..], p)
  {
    forall k | 0 <= k <= |xs| ensures Keep(xs, p) == Keep(xs[..k], p) + Keep(xs[k..], p) {
      KeepCut(xs, k, p);
    }
  }

  lemma KeepCut<T>(xs: seq<T>, k: nat, p: T -> bool)
    requires k <= |xs|
    ensures Keep(xs, p) == Keep(xs[..k], p) + Keep(xs[k..], p)
  {
    var a, b := xs[..k], xs[k..];
    assert a + b == xs;
    KeepConcat(a, b, p);
  }

  lemma {:induction false} KeepCounts<T>(xs: seq<T>, p: T -> bool)
    ensures forall x :: multiset(Keep(xs, p))[x] == if p(x) then multiset(xs)[x] else 0
  {
    if xs != [] {
      var front, last := xs[..|xs| - 1], xs[|xs| - 1];
      KeepCounts(front, p);
      assert xs == front + [last];
      assert multiset(xs) == multiset(front) + multiset{last};
      var tail := if p(last) then [last] else [];
      assert multiset(Keep(xs, p)) == multiset(Keep(front, p)) + multiset(tail);
    }
  }

  /** Filtering two pieces one after the other is filtering their concatenation. */
  lemma {:induction false} KeepConcat<T>(a: seq<T>, b: seq<T>, p: T -> bool)
    ensures Keep(a + b, p) == Keep(a, p) + Keep(b, p)
    decreases |b|
  {
    if b == [] {
      assert a + b == a;
    } else {
      var front, last := b[..|b| - 1], b[|b| - 1];
      KeepConcat(a, front, p);
      var ab := a + b;
      assert ab[..|ab| - 1] == a + front && ab[|ab| - 1] == last;
      var tail := if p(last) then [last] else [];
      assert Keep(ab, p) == Keep(a, p) + Keep(front, p) + tail;
      assert Keep(b, p) == Keep(front, p) + tail;
    }
  }

  lemma {:induction false} KeepShrinks<T>(xs: seq<T>, p: T -> bool)
    ensures |Keep(xs, p)| < |xs| <==> exists k :: 0 <= k < |xs| && !p(xs[k])
  {
    if xs != [] {
      var front := xs[..|xs| - 1];
      assert forall k :: 0 <= k < |front| ==> front[k] == xs[k];
      KeepShrinks(front, p);
    }
  }

  lemma KeepStep<T>(xs: seq<T>, i: nat, p: T -> bool)
    requires i < |xs|
    ensures Keep(xs[..i + 1], p) == Keep(xs[..i], p) + (if p(xs[i]) then [xs[i]] else [])
  {
    var q := xs[..i + 1];
    assert q[..|q| - 1] == xs[..i] && q[|q| - 1] == xs[i];
  }

  lemma {:induction false} KeepAll<T>(xs: seq<T>, p: T -> bool)
    requires forall k :: 0 <= k < |xs| ==> p(xs[k])
    ensures Keep(xs, p) == xs
  {
    if xs != [] {
      KeepAll(xs[..|xs| - 1], p);
      assert xs == xs[..|xs| - 1] + [xs[|xs| - 1]];
    }
  }

  lemma {:induction false} KeepNone<T>(xs: seq<T>, p: T -> bool)
    requires forall k :: 0 <= k < |xs| ==> !p(xs[k])
    ensures Keep(xs, p) == []
  {
    if xs != [] {
      KeepNone(xs[..|xs| - 1], p);
    }
  }

  /** A filter that drops nothing gives the list back unchanged. */
  lemma KeepSame<T>(xs: seq<T>, p: T -> bool)
    requires |Keep(xs, p)| >= |xs|
    ensures Keep(xs, p) == xs
  {
    KeepShrinks(xs, p);
    KeepAll(xs, p);
  }

  /** The list comprehension `[x for x in xs if p(x)]` as a loop. */
  method Filter<T>(xs: seq<T>, p: T -> bool) returns (kept: seq<T>)
    ensures kept == Keep(xs, p)
  {
    kept := [];
    var i := 0;
    while i < |xs|
      invariant 0 <= i <= |xs| && kept == Keep(xs[..i], p)
    {
      KeepStep(xs, i, p);
      if p(xs[i]) {
        kept := kept + [xs[i]];
      }
      i := i + 1;
    }
    assert xs[..i] == xs;
  }
}
