/** Python's `list.sort(key=...)`: a stable sort by a key, modelled as insertion sort on sequences. */
module Sorting {

  /** `le` is total and transitive: the order Python's `<` gives on the key values the stores sort by. */
  ghost predicate TotalPreorder<K(!new)>(le: (K, K) -> bool) {
    && (forall a, b :: le(a, b) || le(b, a))
    && (forall a, b, c :: le(a, b) && le(b, c) ==> le(a, c))
  }

  predicate SortedBy<T, K>(xs: seq<T>, key: T -> K, le: (K, K) -> bool) {
    forall i, j :: 0 <= i < j < |xs| ==> le(key(xs[i]), key(xs[j]))
  }

  /** Places `x` before the first element whose key is not below its own. */
  function Insert<T, K>(x: T, xs: seq<T>, key: T -> K, le: (K, K) -> bool): (r: seq<T>)
    ensures multiset(r) == multiset(xs) + multiset{x}
    ensures |r| == |xs| + 1
  {
    if xs == [] || le(key(x), key(xs[0])) then [x] + xs
    else
      assert xs == [xs[0]] + xs[1..];
      [xs[0]] + Insert(x, xs[1..], key, le)
  }

  /** `sorted(xs, key=key)`: a permutation of `xs`; elements with equal keys keep their order. */
  function SortBy<T, K>(xs: seq<T>, key: T -> K, le: (K, K) -> bool): (r: seq<T>)
    ensures multiset(r) == multiset(xs)
    ensures |r| == |xs|
  {
    if xs == [] then []
    else
      assert xs == [xs[0]] + xs[1..];
      Insert(xs[0], SortBy(xs[1..], key, le), key, le)
  }

  lemma {:induction false} InsertSorted<T, K(!new)>(x: T, xs: seq<T>, key: T -> K, le: (K, K) -> bool)
    requires TotalPreorder(le) && SortedBy(xs, key, le)
    ensures SortedBy(Insert(x, xs, key, le), key, le)
  {
    if xs != [] && !le(key(x), key(xs[0])) {
      var tail := xs[1..];
      InsertSorted(x, tail, key, le);
      var r := Insert(x, xs, key, le);
      var rt := Insert(x, tail, key, le);
      assert r == [xs[0]] + rt;
      forall k | 0 <= k < |rt| ensures le(key(xs[0]), key(rt[k])) {
        assert rt[k] in multiset(rt);
        assert rt[k] == x || rt[k] in multiset(tail);
        if rt[k] != x {
          var j :| 0 <= j < |tail| && tail[j] == rt[k];
          assert tail[j] == xs[j + 1];
        }
      }
    }
  }

  /** `list.sort` leaves the list ordered by its keys. */
  lemma {:induction false} SortBySorted<T, K(!new)>(xs: seq<T>, key: T -> K, le: (K, K) -> bool)
    requires TotalPreorder(le)
    ensures SortedBy(SortBy(xs, key, le), key, le)
  {
    if xs != [] {
      SortBySorted(xs[1..], key, le);
      InsertSorted(xs[0], SortBy(xs[1..], key, le), key, le);
    }
  }

  /** A list already in key order is left as it is. */
  lemma {:induction false} SortByOrderedUnchanged<T, K>(xs: seq<T>, key: T -> K, le: (K, K) -> bool)
    requires SortedBy(xs, key, le)
    ensures SortBy(xs, key, le) == xs
  {
    if xs != [] {
      var tail := xs[1..];
      assert SortedBy(tail, key, le) by {
        forall i, j | 0 <= i < j < |tail| ensures le(key(tail[i]), key(tail[j])) {
          assert tail[i] == xs[i + 1] && tail[j] == xs[j + 1];
        }
      }
      SortByOrderedUnchanged(tail, key, le);
      assert tail == [] || le(key(xs[0]), key(tail[0]));
    }
  }

  /** The elements whose key is equivalent to `k` (at most and at least it), in their order in `xs`. */
  function KeyClass<T, K>(xs: seq<T>, key: T -> K, le: (K, K) -> bool, k: K): seq<T> {
    if xs == [] then []
    else (if InClass(xs[0], key, le, k) then [xs[0]] else []) + KeyClass(xs[1..], key, le, k)
  }

  /** Whether `a` lies in the key class of `k`. */
  predicate InClass<T, K>(a: T, key: T -> K, le: (K, K) -> bool, k: K) {
    le(key(a), k) && le(k, key(a))
  }

  lemma KeyClassCons<T, K>(a: T, xs: seq<T>, key: T -> K, le: (K, K) -> bool, k: K)
    ensures KeyClass([a] + xs, key, le, k) == (if InClass(a, key, le, k) then [a] else []) + KeyClass(xs, key, le, k)
  {
    assert ([a] + xs)[1..] == xs;
  }

  /** Inserting passes over no element of `x`'s own key class. */
  lemma {:induction false} InsertKeyClass<T, K(!new)>(x: T, xs: seq<T>, key: T -> K, le: (K, K) -> bool, k: K)
    requires TotalPreorder(le)
    ensures KeyClass(Insert(x, xs, key, le), key, le, k) ==
      (if InClass(x, key, le, k) then [x] else []) + KeyClass(xs, key, le, k)
  {
    if xs == [] || le(key(x), key(xs[0])) {
      KeyClassCons(x, xs, key, le, k);
    } else {
      var y, rest := xs[0], xs[1..];
      assert xs == [y] + rest;
      var cx := if InClass(x, key, le, k) then [x] else [];
      var cy := if InClass(y, key, le, k) then [y] else [];
      InsertKeyClass(x, rest, key, le, k);
      KeyClassCons(y, Insert(x, rest, key, le), key, le, k);
      KeyClassCons(y, rest, key, le, k);
      if InClass(x, key, le, k) && InClass(y, key, le, k) {
        // then key(x) <= k <= key(y), and the insertion would have stopped before y
        assert false;
      }
      assert cy + cx == cx + cy;
      assert KeyClass(Insert(x, xs, key, le), key, le, k) == cy + (cx + KeyClass(rest, key, le, k));
    }
  }

  /**
   * The sort is stable: for every key, the elements with an equivalent key come out in the
   * order they went in.
   */
  lemma {:induction false} SortByStable<T, K(!new)>(xs: seq<T>, key: T -> K, le: (K, K) -> bool, k: K)
    requires TotalPreorder(le)
    ensures KeyClass(SortBy(xs, key, le), key, le, k) == KeyClass(xs, key, le, k)
  {
    if xs != [] {
      SortByStable(xs[1..], key, le, k);
      InsertKeyClass(xs[0], SortBy(xs[1..], key, le), key, le, k);
    }
  }
}
