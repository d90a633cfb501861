// Reading a stored list page by page (packages/storage/src/run-bundle.ts, apps/lab/src/sim/replay-run-source.ts), against the
// query contracts of packages/storage/src/ports.ts.
module Paging {
  import opened Wrappers

  const PAGE := 10000

  function Filter<T(!new)>(p: T -> bool, xs: seq<T>): (r: seq<T>)
    ensures |r| <= |xs|
  {
    if xs == [] then [] else (if p(xs[0]) then [xs[0]] else []) + Filter(p, xs[1..])
  }

  lemma {:induction false} FilterMembers<T(!new)>(p: T -> bool, xs: seq<T>)
    ensures forall x :: x in Filter(p, xs) <==> x in xs && p(x)
  {
    if xs != [] {
      FilterMembers(p, xs[1..]);
      assert xs == [xs[0]] + xs[1..];
    }
  }

  lemma {:induction false} FilterConcat<T(!new)>(p: T -> bool, a: seq<T>, b: seq<T>)
    ensures Filter(p, a + b) == Filter(p, a) + Filter(p, b)
  {
    if a == [] {
      assert a + b == b;
    } else {
      assert (a + b)[1..] == a[1..] + b && (a + b)[0] == a[0];
      FilterConcat(p, a[1..], b);
      var one := if p(a[0]) then [a[0]] else [];
      assert Filter(p, a) == one + Filter(p, a[1..]) && Filter(p, a + b) == one + Filter(p, a[1..] + b);
      hide Filter;
      assert one + (Filter(p, a[1..]) + Filter(p, b)) == one + Filter(p, a[1..]) + Filter(p, b);
    }
  }

  lemma {:induction false} FilterAll<T(!new)>(p: T -> bool, xs: seq<T>)
    requires forall x :: x in xs ==> p(x)
    ensures Filter(p, xs) == xs
  {
    if xs != [] {
      FilterAll(p, xs[1..]);
      assert xs == [xs[0]] + xs[1..];
    }
  }

  lemma {:induction false} FilterNone<T(!new)>(p: T -> bool, xs: seq<T>)
    requires forall x :: x in xs ==> !p(x)
    ensures Filter(p, xs) == []
  {
    if xs != [] { FilterNone(p, xs[1..]); }
  }

  // Two filters that agree on every element give the same.
  lemma {:induction false} FilterSame<T(!new)>(p: T -> bool, q: T -> bool, xs: seq<T>)
    requires forall x :: x in xs ==> p(x) == q(x)
    ensures Filter(p, xs) == Filter(q, xs)
  {
    if xs != [] { FilterSame(p, q, xs[1..]); }
  }

  // ---- by key ----------------------------------------------------------------------------------------------------------------------

  // The keys go up, in an order that has no circles.
  ghost predicate Ascending<T(!new), K(!new)>(less: (K, K) -> bool, key: T -> K, items: seq<T>) {
    forall i, j :: 0 <= i < j < |items| ==> less(key(items[i]), key(items[j])) && !less(key(items[j]), key(items[i]))
  }

  ghost predicate Irreflexive<K(!new)>(less: (K, K) -> bool) { forall k :: !less(k, k) }

  // What a query continued after a key selects, and the page it returns.
  function Behind<T(!new), K(!new)>(less: (K, K) -> bool, key: T -> K, items: seq<T>, after: Option<K>): seq<T> {
    Filter(IsBehind(less, key, after), items)
  }

  function IsBehind<T(!new), K(!new)>(less: (K, K) -> bool, key: T -> K, after: Option<K>): T -> bool {
    x => after.None? || less(after.value, key(x))
  }

  function Query<T(!new), K(!new)>(less: (K, K) -> bool, key: T -> K, items: seq<T>, after: Option<K>, limit: nat): seq<T> {
    var found := Behind(less, key, items, after);
    if |found| <= limit then found else found[..limit]
  }

  // What is behind the element at place n is what follows it.
  lemma BehindElement<T(!new), K(!new)>(less: (K, K) -> bool, key: T -> K, items: seq<T>, n: nat)
    requires Ascending(less, key, items) && Irreflexive(less) && n < |items|
    ensures Behind(less, key, items, Some(key(items[n]))) == items[n + 1..]
  {
    var q := IsBehind(less, key, Some(key(items[n])));
    var head, tail := items[..n + 1], items[n + 1..];
    assert items == head + tail;
    FilterConcat(q, head, tail);
    assert forall k :: 0 <= k <= n ==> !q(head[k]);
    hide IsBehind, Filter;
    FilterNone(q, head);
    FilterAll(q, tail);
  }

  // Every stored item behind the cursor, once, in order.
  method ReadAll<T(!new), K(!new)>(less: (K, K) -> bool, key: T -> K, items: seq<T>, after: Option<K>, limit: nat) returns (out: seq<T>)
    requires Ascending(less, key, items) && Irreflexive(less) && limit > 0
    requires BehindIsTail(less, key, items, after)
    ensures out == Behind(less, key, items, after)
  {
    hide Ascending, Irreflexive, Behind;
    out := [];
    var cursor := after;
    ghost var from := TailOf(less, key, items, after);
    ghost var n := from;
    while true
      invariant from <= n <= |items| && out == items[from..n] && Behind(less, key, items, cursor) == items[n..]
      decreases |items| - n
    {
      var page := Query(less, key, items, cursor, limit);
      assert page == items[n..n + |page|];
      out := out + page;
      n := n + |page|;
      if |page| < limit { break; }
      cursor := Some(key(page[|page| - 1]));
      BehindElement(less, key, items, n - 1);
    }
    assert items[from..n] == items[from..];
  }

  // The cursor stands somewhere in the order of the items: what is behind it is an end of them.
  ghost predicate BehindIsTail<T(!new), K(!new)>(less: (K, K) -> bool, key: T -> K, items: seq<T>, after: Option<K>) {
    exists n :: 0 <= n <= |items| && Behind(less, key, items, after) == items[n..]
  }

  ghost function TailOf<T(!new), K(!new)>(less: (K, K) -> bool, key: T -> K, items: seq<T>, after: Option<K>): (n: nat)
    requires BehindIsTail(less, key, items, after)
    ensures n <= |items| && Behind(less, key, items, after) == items[n..]
  {
    var n :| 0 <= n <= |items| && Behind(less, key, items, after) == items[n..];
    n
  }

  // From the beginning it reads everything.
  lemma FromTheStart<T(!new), K(!new)>(less: (K, K) -> bool, key: T -> K, items: seq<T>)
    ensures Behind(less, key, items, None) == items && BehindIsTail(less, key, items, None)
  {
    FilterAll(IsBehind(less, key, None), items);
    assert items[0..] == items;
  }
}
