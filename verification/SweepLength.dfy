/** How long a sweep cycle takes when the model stands still (packages/live/src/verifier.ts). */
module SweepLength {
  import opened Prelude
  import opened Sorting
  import opened Sweep

  ghost predicate NoDuplicates(s: seq<string>) { forall i, j :: 0 <= i < j < |s| ==> s[i] != s[j] }

  /** No two functions at one address, no two types under one name in one category. */
  ghost predicate DistinctKeys(lists: Lists) { NoDuplicates(lists.functions) && NoDuplicates(lists.dataTypes) }

  /** Steps over n keys, b at a time, and the one that finds none left. */
  function Steps(n: nat, b: nat): (r: nat)
    requires b > 0
    ensures r >= 1
  {
    if n == 0 then 1 else 1 + Steps(if n < b then 0 else n - b, b)
  }

  /** That is, ceil(n / b) + 1. */
  lemma {:induction false} StepsIsCeiling(n: nat, b: nat)
    requires b > 0
    ensures n <= (Steps(n, b) - 1) * b < n + b
    decreases n
  {
    if n > 0 {
      var fewer := if n < b then 0 else n - b;
      StepsIsCeiling(fewer, b);
      assert (Steps(n, b) - 1) * b == (Steps(fewer, b) - 1) * b + b;
    }
  }

  function CycleSteps(cfg: Config, lists: Lists): nat
    requires Positive(cfg)
  {
    Steps(|lists.functions|, cfg.functions) + Steps(|lists.dataTypes|, cfg.dataTypes) + Steps(|Distinct(lists.globals)|, cfg.globals)
  }

  /** Steps still to make from here to the end of the cycle. */
  function Remaining(cfg: Config, lists: Lists, s: State): nat
    requires Positive(cfg)
  {
    Steps(|Upcoming(lists, s)|, BatchOf(cfg, s.phase))
    + (if s.phase == Functions then Steps(|lists.dataTypes|, cfg.dataTypes) else 0)
    + (if s.phase != Globals then Steps(|Distinct(lists.globals)|, cfg.globals) else 0)
  }

  predicate Effective(o: Outcome) { o.Verified? || o.CycleComplete? }

  function EffectiveSteps(os: seq<Outcome>): nat {
    if os == [] then 0 else EffectiveSteps(os[..|os| - 1]) + if Effective(os[|os| - 1]) then 1 else 0
  }

  lemma {:induction false} DuplicatesCount(s: seq<string>)
    ensures NoDuplicates(s) <==> forall k :: multiset(s)[k] <= 1
    decreases |s|
  {
    if s != [] {
      var rest := s[1..];
      DuplicatesCount(rest);
      assert s == [s[0]] + rest;
      assert multiset(s) == multiset{s[0]} + multiset(rest);
      assert multiset(rest)[s[0]] > 0 <==> s[0] in rest;
      if NoDuplicates(s) {
        assert NoDuplicates(rest);
        assert s[0] !in rest;
      } else {
        var i, j :| 0 <= i < j < |s| && s[i] == s[j];
        if i == 0 {
          assert rest[j - 1] == s[0];
          assert multiset(s)[s[0]] > 1;
        } else {
          assert rest[i - 1] == rest[j - 1];
          var k :| multiset(rest)[k] > 1;
          assert multiset(s)[k] > 1;
        }
      }
    }
  }

  /** The sorted list of a phase has each key once, strictly in order. */
  lemma ListedIsStrict(lists: Lists, p: Phase)
    requires DistinctKeys(lists)
    ensures forall i, j :: 0 <= i < j < |Listed(lists, p)| ==> OrderOf(p)(Listed(lists, p)[i], Listed(lists, p)[j])
    ensures |Listed(lists, p)| == if p == Globals then |Distinct(lists.globals)| else |KeysOf(lists, p)|
  {
    hide StrictOrder, OrderOf, AtMost, Distinct;
    OrderIsStrict(p);
    ListedIsSorted(lists, p);
    var keys := if p == Globals then Distinct(lists.globals) else KeysOf(lists, p);
    DuplicatesCount(keys);
    DuplicatesCount(Listed(lists, p));
    StrictWhenDistinct(Listed(lists, p), OrderOf(p));
  }

  lemma StrictWhenDistinct(s: seq<string>, less: Less)
    requires StrictOrder(less) && Sorted(s, AtMost(less)) && NoDuplicates(s)
    ensures forall i, j :: 0 <= i < j < |s| ==> less(s[i], s[j])
  {
    hide StrictOrder;
    forall i, j | 0 <= i < j < |s| ensures less(s[i], s[j]) {
      assert AtMost(less)(s[i], s[j]);
      OneOrOther(less, s[i], s[j]);
    }
  }

  /** A filter that a place in the list decides is what follows that place. */
  lemma {:induction false} FilterFrom(s: seq<string>, p: string -> bool, c: nat)
    requires c <= |s| && forall m :: 0 <= m < |s| ==> (p(s[m]) <==> m >= c)
    ensures Filter(s, p) == s[c..]
    decreases |s|
  {
    if s != [] {
      assert forall m :: 0 <= m < |s[1..]| ==> s[1..][m] == s[m + 1];
      FilterFrom(s[1..], p, if c == 0 then 0 else c - 1);
      assert s == [s[0]] + s[1..];
    }
  }

  /** What a cursor has left is a stretch at the end of the list. */
  lemma UpcomingIsSuffix(lists: Lists, s: State) returns (c: nat)
    requires DistinctKeys(lists)
    ensures c <= |Listed(lists, s.phase)| && Upcoming(lists, s) == Listed(lists, s.phase)[c..]
  {
    hide Listed, OrderOf, StrictOrder;
    var all, less := Listed(lists, s.phase), OrderOf(s.phase);
    c := 0;
    if s.key.Some? {
      ListedIsStrict(lists, s.phase);
      OrderIsStrict(s.phase);
      while c < |all| && !less(s.key.value, all[c])
        invariant c <= |all| && forall m :: 0 <= m < c ==> !less(s.key.value, all[m])
      {
        c := c + 1;
      }
      AboveFrom(all, less, s.key.value, c);
      FilterFrom(all, (k: string) => less(s.key.value, k), c);
    }
  }

  lemma AboveFrom(all: seq<string>, less: Less, key: string, c: nat)
    requires StrictOrder(less) && c <= |all| && forall i, j :: 0 <= i < j < |all| ==> less(all[i], all[j])
    requires c < |all| ==> less(key, all[c])
    ensures forall m :: c <= m < |all| ==> less(key, all[m])
  {
    hide StrictOrder;
    forall m | c <= m < |all| ensures less(key, all[m]) {
      if m > c { InARow(less, key, all[c], all[m]); }
    }
  }

  /** A verified batch leaves exactly the keys after it. */
  lemma BatchLeaves(cfg: Config, lists: Lists, s: State)
    requires Positive(cfg) && DistinctKeys(lists) && NextKeys(cfg, lists, s) != []
    ensures var keys := NextKeys(cfg, lists, s);
      |keys| <= |Upcoming(lists, s)|
      && |Upcoming(lists, s.(key := Some(keys[|keys| - 1])))| == |Upcoming(lists, s)| - |keys|
  {
    hide Listed, OrderOf, StrictOrder;
    var all, less, keys := Listed(lists, s.phase), OrderOf(s.phase), NextKeys(cfg, lists, s);
    var c := UpcomingIsSuffix(lists, s);
    var n := |keys|;
    assert keys[n - 1] == all[c + n - 1];
    ListedIsStrict(lists, s.phase);
    OrderIsStrict(s.phase);
    PastOne(all, less, c + n - 1);
    FilterFrom(all, (k: string) => less(keys[n - 1], k), c + n);
  }

  lemma PastOne(all: seq<string>, less: Less, i: nat)
    requires StrictOrder(less) && i < |all| && forall i, j :: 0 <= i < j < |all| ==> less(all[i], all[j])
    ensures forall m :: 0 <= m < |all| ==> (less(all[i], all[m]) <==> m >= i + 1)
  {
    hide StrictOrder;
    forall m | 0 <= m < |all| ensures less(all[i], all[m]) <==> m >= i + 1 {
      OneWay(less, all[m], all[i]);
    }
  }

  lemma OneBatchLess(n: nat, taken: nat, b: nat)
    requires b > 0 && 0 < taken <= n && taken == if n < b then n else b
    ensures Steps(n, b) == Steps(n - taken, b) + 1
  {
  }

  lemma NoneLeft(b: nat)
    requires b > 0
    ensures Steps(0, b) == 1
  {
  }

  /** Every step that is not interrupted brings the end one step nearer, and no other does. */
  lemma StepLowers(cfg: Config, lists: Lists, s: State, w: World)
    requires Positive(cfg) && DistinctKeys(lists) && w.lists == lists
    ensures var (t, o) := Step(cfg, s, w);
      if o == CycleComplete then Remaining(cfg, lists, s) == 1
      else Remaining(cfg, lists, t) == Remaining(cfg, lists, s) - if Effective(o) then 1 else 0
  {
    hide Listed, OrderOf, Distinct, Steps;
    var (t, o) := Step(cfg, s, w);
    if w.idle {
      var started := Started(s);
      var keys, up := NextKeys(cfg, lists, started), Upcoming(lists, started);
      assert up == Upcoming(lists, s);
      NoneLeft(BatchOf(cfg, s.phase));
      if keys == [] {
        assert up == [];
        if o.Verified? {
          ListedIsStrict(lists, t.phase);
          assert Upcoming(lists, t) == Listed(lists, t.phase);
        }
      } else {
        BatchLeaves(cfg, lists, started);
        OneBatchLess(|up|, |keys|, BatchOf(cfg, s.phase));
        assert o.Verified? ==> Upcoming(lists, t) == Upcoming(lists, started.(key := Some(keys[|keys| - 1])));
      }
    }
  }

  ghost predicate StandsStill(run: seq<World>, lists: Lists) { forall i :: 0 <= i < |run| ==> run[i].lists == lists }

  /** On a model that stands still, what has been done and what remains add up. */
  lemma {:induction false} StepsAddUp(cfg: Config, lists: Lists, s: State, run: seq<World>)
    requires Positive(cfg) && DistinctKeys(lists) && StandsStill(run, lists) && AllInside(cfg, s, run)
    ensures EffectiveSteps(Outcomes(cfg, s, run)) + Remaining(cfg, lists, After(cfg, s, run)) == Remaining(cfg, lists, s)
    decreases |run|
  {
    hide Step, Remaining, Effective;
    if run != [] {
      var m := |run| - 1;
      var os := Outcomes(cfg, s, run);
      assert os[..m] == Outcomes(cfg, s, run[..m]) && os[m] in os;
      assert forall o :: o in os[..m] ==> o in os;
      StepsAddUp(cfg, lists, s, run[..m]);
      StepLowers(cfg, lists, After(cfg, s, run[..m]), run[m]);
    }
  }

  /**
   * Cycle length: however many steps are busy or interrupted, a cycle on a model that stands
   * still takes ceil(n/b) + 1 effective steps for each phase.
   */
  lemma CycleLength(cfg: Config, lists: Lists, cycle: nat, swept: nat, run: seq<World>, last: World)
    requires Positive(cfg) && DistinctKeys(lists) && StandsStill(run, lists) && last.lists == lists
    requires AllInside(cfg, FRESH.(cycle := cycle, swept := swept), run)
    ensures var s := FRESH.(cycle := cycle, swept := swept);
      Step(cfg, After(cfg, s, run), last).1 == CycleComplete <==>
        Effective(Step(cfg, After(cfg, s, run), last).1) && EffectiveSteps(Outcomes(cfg, s, run)) + 1 == CycleSteps(cfg, lists)
  {
    hide Step, Steps, Listed;
    var s := FRESH.(cycle := cycle, swept := swept);
    StepsAddUp(cfg, lists, s, run);
    StepLowers(cfg, lists, After(cfg, s, run), last);
    ListedIsStrict(lists, Functions);
    assert Remaining(cfg, lists, s) == CycleSteps(cfg, lists);
    AlwaysOneMore(cfg, lists, Step(cfg, After(cfg, s, run), last).0);
  }

  lemma AlwaysOneMore(cfg: Config, lists: Lists, s: State)
    requires Positive(cfg)
    ensures Remaining(cfg, lists, s) >= 1
  {
    hide Steps, Upcoming;
  }

  // ---------------------------------------------------------------------------
  // Keys that stand twice
  // ---------------------------------------------------------------------------

  lemma {:induction false} FewerSteps(n: nat, m: nat, b: nat)
    requires b > 0 && n <= m
    ensures Steps(n, b) <= Steps(m, b)
    decreases m
  {
    if n > 0 { FewerSteps(if n < b then 0 else n - b, if m < b then 0 else m - b, b); }
  }

  lemma {:induction false} FilterTwice(s: seq<string>, p: string -> bool, q: string -> bool)
    requires forall k :: q(k) ==> p(k)
    ensures Filter(Filter(s, p), q) == Filter(s, q)
    decreases |s|
  {
    if s != [] {
      FilterTwice(s[1..], p, q);
      assert ([s[0]] + Filter(s[1..], p))[1..] == Filter(s[1..], p);
    }
  }

  /** None of a batch is past its last key, so at most the keys behind the batch are. */
  lemma PastTheBatch(up: seq<string>, n: nat, past: string -> bool)
    requires n <= |up| && forall k :: k in up[..n] ==> !past(k)
    ensures |Filter(up, past)| <= |up| - n
  {
    FilterConcat(up[..n], up[n..], past);
    assert up == up[..n] + up[n..];
    assert Filter(up[..n], past) == [] by {
      if Filter(up[..n], past) != [] { HeadIsMember(Filter(up[..n], past)); }
    }
  }

  /** A verified batch leaves no more than the keys after it: a key that stands again goes with its batch. */
  lemma BatchLeavesAtMost(cfg: Config, lists: Lists, s: State)
    requires Positive(cfg) && NextKeys(cfg, lists, s) != []
    ensures var keys := NextKeys(cfg, lists, s);
      |keys| <= |Upcoming(lists, s)|
      && |Upcoming(lists, s.(key := Some(keys[|keys| - 1])))| <= |Upcoming(lists, s)| - |keys|
  {
    hide Listed, OrderOf, StrictOrder;
    var all, less, keys, up := Listed(lists, s.phase), OrderOf(s.phase), NextKeys(cfg, lists, s), Upcoming(lists, s);
    var n := |keys|;
    var past := (k: string) => less(keys[n - 1], k);
    forall k | k in keys ensures !past(k) { BatchIs(cfg, lists, s, k); }
    PastTheBatch(up, n, past);
    if s.key.Some? {
      forall k | past(k) ensures less(s.key.value, k) { KeepsPassed(cfg, lists, s, k); }
      FilterTwice(all, (k: string) => less(s.key.value, k), past);
    }
  }

  lemma FewerBatches(left: nat, n: nat, taken: nat, b: nat)
    requires b > 0 && 0 < taken <= n && taken == (if n < b then n else b) && left <= n - taken
    ensures Steps(left, b) + 1 <= Steps(n, b)
  {
    FewerSteps(left, n - taken, b);
    OneBatchLess(n, taken, b);
  }

  lemma ListedLength(lists: Lists, p: Phase)
    ensures |Listed(lists, p)| == if p == Globals then |Distinct(lists.globals)| else |KeysOf(lists, p)|
  {
    hide OrderOf, AtMost, Distinct;
  }

  lemma StepLowersAtLeast(cfg: Config, lists: Lists, s: State, w: World)
    requires Positive(cfg) && w.lists == lists
    ensures var (t, o) := Step(cfg, s, w);
      o != CycleComplete ==> Remaining(cfg, lists, t) + (if Effective(o) then 1 else 0) <= Remaining(cfg, lists, s)
  {
    hide Listed, OrderOf, Distinct, Steps;
    var (t, o) := Step(cfg, s, w);
    if w.idle {
      var started := Started(s);
      var keys, up := NextKeys(cfg, lists, started), Upcoming(lists, started);
      assert up == Upcoming(lists, s);
      NoneLeft(BatchOf(cfg, s.phase));
      if keys == [] {
        assert up == [];
        if o.Verified? {
          ListedLength(lists, t.phase);
          assert Upcoming(lists, t) == Listed(lists, t.phase);
        }
      } else {
        BatchLeavesAtMost(cfg, lists, started);
        FewerBatches(|Upcoming(lists, started.(key := Some(keys[|keys| - 1])))|, |up|, |keys|, BatchOf(cfg, s.phase));
        assert o.Verified? ==> Upcoming(lists, t) == Upcoming(lists, started.(key := Some(keys[|keys| - 1])));
      }
    }
  }

  lemma {:induction false} StepsAddUpToNoMore(cfg: Config, lists: Lists, s: State, run: seq<World>)
    requires Positive(cfg) && StandsStill(run, lists) && AllInside(cfg, s, run)
    ensures EffectiveSteps(Outcomes(cfg, s, run)) + Remaining(cfg, lists, After(cfg, s, run)) <= Remaining(cfg, lists, s)
    decreases |run|
  {
    hide Step, Remaining, Effective;
    if run != [] {
      var m := |run| - 1;
      var os := Outcomes(cfg, s, run);
      assert os[..m] == Outcomes(cfg, s, run[..m]) && os[m] in os;
      assert forall o :: o in os[..m] ==> o in os;
      StepsAddUpToNoMore(cfg, lists, s, run[..m]);
      StepLowersAtLeast(cfg, lists, After(cfg, s, run[..m]), run[m]);
    }
  }

  /** With any lists, keys that stand twice among them, a cycle ends within that many effective steps. */
  lemma CycleEndsInTime(cfg: Config, lists: Lists, cycle: nat, swept: nat, run: seq<World>)
    requires Positive(cfg) && StandsStill(run, lists)
    requires AllInside(cfg, FRESH.(cycle := cycle, swept := swept), run)
    ensures EffectiveSteps(Outcomes(cfg, FRESH.(cycle := cycle, swept := swept), run)) < CycleSteps(cfg, lists)
  {
    hide Step, Steps, Listed;
    var s := FRESH.(cycle := cycle, swept := swept);
    StepsAddUpToNoMore(cfg, lists, s, run);
    ListedLength(lists, Functions);
    assert Remaining(cfg, lists, s) == CycleSteps(cfg, lists);
    AlwaysOneMore(cfg, lists, After(cfg, s, run));
  }
}
