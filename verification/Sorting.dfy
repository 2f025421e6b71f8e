/** The stable sort and the filter the source leaves to its runtime, with what the proofs need of them. */
module Sorting {

  ghost predicate TotalPreorder<T(!new)>(leq: (T, T) -> bool) {
    && (forall x, y :: leq(x, y) || leq(y, x))
    && (forall x, y, z :: leq(x, y) && leq(y, z) ==> leq(x, z))
  }

  ghost predicate Sorted<T>(s: seq<T>, leq: (T, T) -> bool) {
    forall i, j :: 0 <= i < j < |s| ==> leq(s[i], s[j])
  }

  /** Before the first element it does not come after. */
  function Insert<T>(x: T, s: seq<T>, leq: (T, T) -> bool): (r: seq<T>)
    ensures multiset(r) == multiset{x} + multiset(s)
  {
    if s == [] || leq(x, s[0]) then [x] + s
    else
      assert s == [s[0]] + s[1..];
      [s[0]] + Insert(x, s[1..], leq)
  }

  function Sort<T>(s: seq<T>, leq: (T, T) -> bool): (r: seq<T>)
    ensures multiset(r) == multiset(s) && |r| == |s|
  {
    if s == [] then [] else
      var r := Insert(s[0], Sort(s[1..], leq), leq);
      assert s == [s[0]] + s[1..];
      assert |multiset(r)| == |multiset(s)|;
      r
  }

  lemma SameMembers<T>(s: seq<T>, r: seq<T>)
    requires multiset(r) == multiset(s)
    ensures forall x :: x in r <==> x in s
  {
    forall x ensures x in r <==> x in s { assert x in multiset(r) <==> x in multiset(s); }
  }

  lemma {:induction false} InsertSorts<T(!new)>(x: T, s: seq<T>, leq: (T, T) -> bool)
    requires TotalPreorder(leq) && Sorted(s, leq)
    ensures Sorted(Insert(x, s, leq), leq)
    decreases |s|
  {
    if s != [] && !leq(x, s[0]) {
      var rest := Insert(x, s[1..], leq);
      InsertSorts(x, s[1..], leq);
      SameMembers([x] + s[1..], rest);
      assert forall y :: y in rest ==> y in [x] + s[1..];
      assert forall k :: 0 <= k < |rest| ==> rest[k] in rest;
    }
  }

  lemma {:induction false} SortSorts<T(!new)>(s: seq<T>, leq: (T, T) -> bool)
    requires TotalPreorder(leq)
    ensures Sorted(Sort(s, leq), leq)
    decreases |s|
  {
    if s != [] {
      SortSorts(s[1..], leq);
      InsertSorts(s[0], Sort(s[1..], leq), leq);
    }
  }

  lemma {:induction false} SortedIsFixed<T>(s: seq<T>, leq: (T, T) -> bool)
    requires Sorted(s, leq)
    ensures Sort(s, leq) == s
    decreases |s|
  {
    if s != [] {
      SortedIsFixed(s[1..], leq);
      assert s == [s[0]] + s[1..];
    }
  }

  function Filter<T(!new)>(s: seq<T>, p: T -> bool): (r: seq<T>)
    ensures forall x :: x in r <==> x in s && p(x)
    ensures |r| <= |s|
  {
    if s == [] then [] else
      var r := Filter(s[1..], p);
      assert s == [s[0]] + s[1..];
      if p(s[0]) then [s[0]] + r else r
  }

  lemma HeadIsMember<T>(s: seq<T>)
    ensures s == [] || s[0] in s
  {
  }

  lemma {:induction false} FilterConcat<T(!new)>(a: seq<T>, b: seq<T>, p: T -> bool)
    ensures Filter(a + b, p) == Filter(a, p) + Filter(b, p)
    decreases |a|
  {
    if a == [] { assert a + b == b; } else {
      assert (a + b)[1..] == a[1..] + b;
      FilterConcat(a[1..], b, p);
    }
  }

  /** `p` picks out elements no two of which the order tells apart. */
  ghost predicate AllEqual<T(!new)>(s: seq<T>, leq: (T, T) -> bool, p: T -> bool) {
    forall x, y :: x in s && y in s && p(x) && p(y) ==> leq(x, y)
  }

  /** Equal elements keep their order: a class of mutually equal elements comes out as it went in. */
  lemma {:induction false} SortIsStable<T(!new)>(s: seq<T>, leq: (T, T) -> bool, p: T -> bool)
    requires AllEqual(s, leq, p)
    ensures Filter(Sort(s, leq), p) == Filter(s, p)
    decreases |s|
  {
    if s != [] {
      var r := Sort(s[1..], leq);
      assert AllEqual(s[1..], leq, p) by { assert forall x :: x in s[1..] ==> x in s; }
      SortIsStable(s[1..], leq, p);
      assert forall y :: y in r && p(s[0]) && p(y) ==> leq(s[0], y) by {
        SameMembers(s[1..], r);
        assert forall y :: y in r ==> y in s;
      }
      InsertIsStable(s[0], r, leq, p);
    }
  }

  lemma {:induction false} InsertIsStable<T(!new)>(x: T, s: seq<T>, leq: (T, T) -> bool, p: T -> bool)
    requires forall y :: y in s && p(x) && p(y) ==> leq(x, y)
    ensures Filter(Insert(x, s, leq), p) == (if p(x) then [x] else []) + Filter(s, p)
    decreases |s|
  {
    if s == [] || leq(x, s[0]) {
      assert ([x] + s)[1..] == s;
    } else {
      InsertIsStable(x, s[1..], leq, p);
      var r := Insert(x, s[1..], leq);
      assert ([s[0]] + r)[1..] == r;
    }
  }

  lemma {:induction false} SameFilter<T(!new)>(s: seq<T>, p: T -> bool, q: T -> bool)
    requires forall x :: x in s ==> p(x) == q(x)
    ensures Filter(s, p) == Filter(s, q)
    decreases |s|
  {
    if s != [] {
      assert s[0] in s && forall x :: x in s[1..] ==> x in s;
      SameFilter(s[1..], p, q);
    }
  }

  lemma {:induction false} SameSort<T(!new)>(s: seq<T>, a: (T, T) -> bool, b: (T, T) -> bool)
    requires forall x, y :: a(x, y) == b(x, y)
    ensures Sort(s, a) == Sort(s, b)
    decreases |s|
  {
    if s != [] {
      SameSort(s[1..], a, b);
      SameInsert(s[0], Sort(s[1..], a), a, b);
    }
  }

  lemma {:induction false} SameInsert<T(!new)>(x: T, s: seq<T>, a: (T, T) -> bool, b: (T, T) -> bool)
    requires forall x, y :: a(x, y) == b(x, y)
    ensures Insert(x, s, a) == Insert(x, s, b)
    decreases |s|
  {
    if s != [] { SameInsert(x, s[1..], a, b); }
  }

  lemma InsertInFront<T>(x: T, s: seq<T>, leq: (T, T) -> bool)
    requires s == [] || leq(x, s[0])
    ensures Insert(x, s, leq) == [x] + s
  {
  }

  lemma InsertBehind<T>(x: T, y: T, leq: (T, T) -> bool)
    requires !leq(x, y)
    ensures Insert(x, [y], leq) == [y, x]
  {
    assert [y][1..] == [];
  }

  lemma SortStep<T>(s: seq<T>, leq: (T, T) -> bool)
    requires s != []
    ensures Sort(s, leq) == Insert(s[0], Sort(s[1..], leq), leq)
  {
  }

  lemma SortTwo<T>(b: T, c: T, leq: (T, T) -> bool)
    ensures Sort([b, c], leq) == if leq(b, c) then [b, c] else [c, b]
  {
    hide Sort, Insert;
    SortStep([b, c], leq);
    assert [b, c][1..] == [c];
    SortOne(c, leq);
    if leq(b, c) { InsertInFront(b, [c], leq); } else { InsertBehind(b, c, leq); }
  }

  lemma SortOne<T>(c: T, leq: (T, T) -> bool)
    ensures Sort([c], leq) == [c]
  {
  }

  /** A short sort: the first stays in front of two. */
  lemma SortThree<T>(a: T, b: T, c: T, leq: (T, T) -> bool)
    requires leq(a, b) && leq(a, c)
    ensures Sort([a, b, c], leq) == if leq(b, c) then [a, b, c] else [a, c, b]
  {
    hide Sort, Insert;
    SortStep([a, b, c], leq);
    assert [a, b, c][1..] == [b, c];
    SortTwo(b, c, leq);
    if leq(b, c) { InsertInFront(a, [b, c], leq); } else { InsertInFront(a, [c, b], leq); }
  }

  lemma {:induction false} FilterCounts<T(!new)>(s: seq<T>, p: T -> bool)
    ensures forall x :: multiset(Filter(s, p))[x] == if p(x) then multiset(s)[x] else 0
    decreases |s|
  {
    if s != [] {
      assert s == [s[0]] + s[1..];
      FilterCounts(s[1..], p);
    }
  }

  lemma FilterSize<T(!new)>(a: seq<T>, b: seq<T>, p: T -> bool)
    requires multiset(a) == multiset(b)
    ensures multiset(Filter(a, p)) == multiset(Filter(b, p)) && |Filter(a, p)| == |Filter(b, p)|
  {
    FilterCounts(a, p);
    FilterCounts(b, p);
    assert |multiset(Filter(a, p))| == |Filter(a, p)| && |multiset(Filter(b, p))| == |Filter(b, p)|;
  }

  // ---------------------------------------------------------------------------
  // A list and the places it was picked from
  // ---------------------------------------------------------------------------

  /** The places of a list that were picked, in their order. */
  ghost predicate Places(at: seq<nat>, n: nat) {
    (forall i :: 0 <= i < |at| ==> at[i] < n) && forall i, j :: 0 <= i < j < |at| ==> at[i] < at[j]
  }

  ghost predicate Picks<T>(at: seq<nat>, s: seq<T>, p: T -> bool) {
    Places(at, |s|) && forall k: nat :: k in at <==> k < |s| && p(s[k])
  }

  /** The elements at these places. */
  ghost predicate AreAt<T>(r: seq<T>, s: seq<T>, at: seq<nat>)
    requires Places(at, |s|)
  {
    |r| == |at| && forall i :: 0 <= i < |at| ==> r[i] == s[at[i]]
  }

  lemma OneMorePlace(before: seq<nat>, n: nat)
    requires Places(before, n)
    ensures Places(before, n + 1) && Places(before + [n], n + 1)
    ensures forall k: nat :: k in before + [n] <==> k in before || k == n
  {
  }

  lemma OneMorePick<T>(before: seq<nat>, s: seq<T>, x: T, p: T -> bool)
    requires Picks(before, s, p)
    ensures Picks(before + if p(x) then [|s|] else [], s + [x], p)
  {
    OneMorePlace(before, |s|);
    assert forall k: nat :: k < |s| ==> (s + [x])[k] == s[k];
    assert p(x) || before + [] == before;
  }

  lemma OneMoreAt<T>(r: seq<T>, s: seq<T>, x: T, before: seq<nat>, more: bool)
    requires Places(before, |s|) && AreAt(r, s, before)
    ensures var at := before + if more then [|s|] else [];
      Places(at, |s| + 1) && AreAt(r + if more then [x] else [], s + [x], at)
  {
    OneMorePlace(before, |s|);
    assert before + [] == before && r + [] == r;
  }

  /** A filter's result is the kept elements in the order of their places. */
  lemma {:induction false} Picked<T(!new)>(s: seq<T>, p: T -> bool) returns (at: seq<nat>)
    ensures Picks(at, s, p) && AreAt(Filter(s, p), s, at)
    decreases |s|
  {
    hide Places, Filter;
    if s == [] { at := []; NonePicked(s, p); return; }
    var n := |s| - 1;
    var before := Picked(s[..n], p);
    assert s == s[..n] + [s[n]];
    FilterOneMore(s[..n], s[n], p);
    OneMorePick(before, s[..n], s[n], p);
    OneMoreAt(Filter(s[..n], p), s[..n], s[n], before, p(s[n]));
    at := before + if p(s[n]) then [n] else [];
  }

  lemma NonePicked<T(!new)>(s: seq<T>, p: T -> bool)
    requires s == []
    ensures Picks([], s, p) && AreAt(Filter(s, p), s, [])
  {
  }

  lemma FilterOneMore<T(!new)>(s: seq<T>, x: T, p: T -> bool)
    ensures Filter(s + [x], p) == Filter(s, p) + if p(x) then [x] else []
  {
    FilterConcat(s, [x], p);
    assert Filter([x], p) == if p(x) then [x] else [];
  }

  lemma {:induction false} FilterTwice<T(!new)>(s: seq<T>, p: T -> bool, q: T -> bool, both: T -> bool)
    requires forall x :: both(x) <==> p(x) && q(x)
    ensures Filter(Filter(s, p), q) == Filter(s, both)
    decreases |s|
  {
    if s != [] {
      FilterTwice(s[1..], p, q, both);
      var r := Filter(s[1..], p);
      assert p(s[0]) ==> ([s[0]] + r)[1..] == r;
    }
  }

  /** Kept alone: the one element at the one place the filter lets through. */
  ghost predicate OnlyOne<T>(s: seq<T>, p: T -> bool, i: nat) {
    i < |s| && forall k: nat :: k < |s| ==> (p(s[k]) <==> k == i)
  }

  lemma OneIsKept<T(!new)>(s: seq<T>, p: T -> bool)
    ensures |Filter(s, p)| == 1 <==> exists i: nat :: OnlyOne(s, p, i)
    ensures forall i: nat :: OnlyOne(s, p, i) ==> |Filter(s, p)| == 1 && Filter(s, p)[0] == s[i]
  {
    hide Filter;
    var at := Picked(s, p);
    if |at| == 1 {
      var first := at[0];
      assert first in at;
      forall k: nat | k < |s| ensures p(s[k]) <==> k == first { assert k in at <==> p(s[k]); OnlyMember(at, k); }
      assert OnlyOne(s, p, first);
    }
    forall i: nat | OnlyOne(s, p, i) ensures |at| == 1 && at[0] == i {
      assert i in at;
      forall k | 0 <= k < |at| ensures at[k] == i { assert at[k] in at; }
      OneOf(at, |s|, i);
    }
  }

  lemma OneOf(at: seq<nat>, n: nat, i: nat)
    requires Places(at, n) && at != [] && forall k :: 0 <= k < |at| ==> at[k] == i
    ensures at == [i]
  {
    if |at| > 1 { TwoOf(at, n); }
  }

  lemma TwoOf(at: seq<nat>, n: nat)
    requires Places(at, n) && |at| > 1
    ensures at[0] < at[1]
  {
  }

  lemma OnlyMember(at: seq<nat>, k: nat)
    requires |at| == 1
    ensures k in at <==> k == at[0]
  {
  }
}
