/**
 * The rolling sweep (packages/live/src/verifier.ts): functions, then types, then globals, a
 * few keys a step, from a persisted cursor over lists that change between steps.
 */
module Sweep {
  import opened Prelude
  import opened Sorting

  // ---------------------------------------------------------------------------
  // The orders of keys
  // ---------------------------------------------------------------------------

  /** Strings by their characters, as the language compares them. */
  predicate LexLess(a: string, b: string) {
    b != [] && (a == [] || a[0] < b[0] || (a[0] == b[0] && LexLess(a[1..], b[1..])))
  }

  /** `compareAddressKeys`: shorter first, then by digits. */
  predicate AddressLess(a: string, b: string) { |a| < |b| || (|a| == |b| && LexLess(a, b)) }

  type Less = (string, string) -> bool

  ghost predicate StrictOrder(less: Less) {
    && (forall a :: !less(a, a))
    && (forall a, b, c :: less(a, b) && less(b, c) ==> less(a, c))
    && (forall a, b :: less(a, b) || a == b || less(b, a))
  }

  lemma {:induction false} LexIsStrict(a: string, b: string, c: string)
    ensures !LexLess(a, a)
    ensures LexLess(a, b) && LexLess(b, c) ==> LexLess(a, c)
    ensures LexLess(a, b) || a == b || LexLess(b, a)
    decreases |a|
  {
    if a != [] {
      LexIsStrict(a[1..], if b == [] then [] else b[1..], if c == [] then [] else c[1..]);
      assert b != [] && a[0] == b[0] && a[1..] == b[1..] ==> a == [a[0]] + a[1..] == [b[0]] + b[1..] == b;
    }
  }

  lemma KeyOrdersAreStrict()
    ensures StrictOrder(LexLess) && StrictOrder(AddressLess)
  {
    forall a, b, c
      ensures !LexLess(a, a) && (LexLess(a, b) && LexLess(b, c) ==> LexLess(a, c)) && (LexLess(a, b) || a == b || LexLess(b, a))
    {
      LexIsStrict(a, b, c);
    }
  }

  lemma InARow(less: Less, a: string, b: string, c: string)
    requires StrictOrder(less) && less(a, b) && less(b, c)
    ensures less(a, c)
  {
  }

  lemma OneWay(less: Less, a: string, b: string)
    requires StrictOrder(less)
    ensures !less(a, a) && (less(a, b) ==> !less(b, a))
  {
  }

  lemma OneOrOther(less: Less, a: string, b: string)
    requires StrictOrder(less)
    ensures less(a, b) || a == b || less(b, a)
  {
  }

  /** A hex digit's value; address keys are spelled in lower case. */
  function HexDigit(c: char): (d: nat)
    ensures d < 16
  {
    if '0' <= c <= '9' then c as int - '0' as int
    else if 'a' <= c <= 'f' then c as int - 'a' as int + 10
    else 0
  }

  predicate IsHex(s: string) { s != "" && forall i :: 0 <= i < |s| ==> '0' <= s[i] <= '9' || 'a' <= s[i] <= 'f' }

  function Place(n: nat): (p: nat)
    ensures p > 0
  {
    if n == 0 then 1 else 16 * Place(n - 1)
  }

  function HexValue(s: string): nat { if s == "" then 0 else HexDigit(s[0]) * Place(|s| - 1) + HexValue(s[1..]) }

  lemma DigitsDecide(d: nat, e: nat, place: nat, v: nat)
    requires d < e && v < place
    ensures d * place + v < e * place
  {
    assert (d + 1) * place <= e * place;
  }

  lemma {:induction false} HexBounds(s: string)
    ensures HexValue(s) < Place(|s|)
    ensures s != "" && HexDigit(s[0]) > 0 ==> HexValue(s) >= Place(|s| - 1)
    decreases |s|
  {
    if s != "" {
      HexBounds(s[1..]);
      var d, place, v := HexDigit(s[0]), Place(|s| - 1), HexValue(s[1..]);
      assert HexValue(s) == d * place + v && Place(|s|) == 16 * place && v < place by { hide HexDigit; }
      hide *;
      DigitsDecide(d, 16, place, v);
      if d > 0 { AtLeastOne(d, place); }
    }
  }

  lemma AtLeastOne(d: nat, place: nat)
    requires d > 0
    ensures d * place >= place
  {
  }

  lemma {:induction false} SameLengthByDigits(a: string, b: string)
    requires |a| == |b| && (a != "" ==> IsHex(a) && IsHex(b))
    ensures LexLess(a, b) <==> HexValue(a) < HexValue(b)
    decreases |a|
  {
    if a != "" {
      var x, y, place := a[1..], b[1..], Place(|a| - 1);
      SameLengthByDigits(x, y);
      HexBounds(x);
      HexBounds(y);
      if a[0] < b[0] { DigitsDecide(HexDigit(a[0]), HexDigit(b[0]), place, HexValue(x)); }
      if b[0] < a[0] { DigitsDecide(HexDigit(b[0]), HexDigit(a[0]), place, HexValue(y)); }
    }
  }

  lemma {:induction false} PlacesGrow(m: nat, n: nat)
    requires m <= n
    ensures Place(m) <= Place(n)
    decreases n
  {
    if m < n { PlacesGrow(m, n - 1); }
  }

  /** Between addresses of one length, or with no leading zero on the longer, the order is that of their numbers. */
  lemma AddressOrderIsNumeric(a: string, b: string)
    requires IsHex(a) && IsHex(b) && (|a| < |b| ==> b[0] != '0') && (|b| < |a| ==> a[0] != '0')
    ensures AddressLess(a, b) <==> HexValue(a) < HexValue(b)
  {
    HexBounds(a);
    HexBounds(b);
    if |a| < |b| {
      PlacesGrow(|a|, |b| - 1);
    } else if |b| < |a| {
      PlacesGrow(|b|, |a| - 1);
    } else {
      SameLengthByDigits(a, b);
    }
  }

  // ---------------------------------------------------------------------------
  // One step
  // ---------------------------------------------------------------------------

  datatype Phase = Functions | DataTypes | Globals

  function Later(p: Phase): nat { match p case Functions => 0 case DataTypes => 1 case Globals => 2 }

  function OrderOf(p: Phase): Less { if p == DataTypes then LexLess else AddressLess }

  /** The keys of the records each phase sweeps, as the model lists them at one moment. */
  datatype Lists = Lists(functions: seq<string>, dataTypes: seq<string>, globals: seq<string>)

  function KeysOf(lists: Lists, p: Phase): seq<string> {
    match p case Functions => lists.functions case DataTypes => lists.dataTypes case Globals => lists.globals
  }

  datatype Config = Config(functions: nat, dataTypes: nat, globals: nat)

  function BatchOf(cfg: Config, p: Phase): nat {
    match p case Functions => cfg.functions case DataTypes => cfg.dataTypes case Globals => cfg.globals
  }

  /** The settings are read with 1 as their least value. */
  predicate Positive(cfg: Config) { cfg.functions > 0 && cfg.dataTypes > 0 && cfg.globals > 0 }

  datatype State = State(phase: Phase, key: Option<string>, inCycle: bool, cycle: nat, swept: nat)

  const FRESH := State(Functions, None, false, 0, 0)

  /** What the world does to one step. */
  datatype World = World(lists: Lists, idle: bool, movedFirst: bool, disturbed: bool, movedLast: bool, listingFailed: bool)

  datatype Outcome = Busy | Interrupted | Verified(phase: Phase, keys: seq<string>) | CycleComplete

  /** A `Set` of the keys, first occurrences in order. */
  function Distinct(s: seq<string>): (r: seq<string>)
    ensures forall k :: k in r <==> k in s
    ensures forall i, j :: 0 <= i < j < |r| ==> r[i] != r[j]
    ensures (forall i, j :: 0 <= i < j < |s| ==> s[i] != s[j]) ==> r == s
  {
    if s == [] then [] else
      var n := |s| - 1;
      var r := Distinct(s[..n]);
      assert s == s[..n] + [s[n]];
      if s[n] in r then r else r + [s[n]]
  }

  function AtMost(less: Less): Less { (a, b) => !less(b, a) }

  function Listed(lists: Lists, p: Phase): seq<string> {
    Sort(if p == Globals then Distinct(lists.globals) else KeysOf(lists, p), AtMost(OrderOf(p)))
  }

  function PastKey(s: seq<string>, key: Option<string>, less: Less): seq<string> {
    if key.None? then s else Filter(s, (k: string) => less(key.value, k))
  }

  function Upcoming(lists: Lists, s: State): seq<string> { PastKey(Listed(lists, s.phase), s.key, OrderOf(s.phase)) }

  function First<T>(s: seq<T>, n: nat): seq<T> { if n <= |s| then s[..n] else s }

  function NextKeys(cfg: Config, lists: Lists, s: State): seq<string> { First(Upcoming(lists, s), BatchOf(cfg, s.phase)) }

  predicate SweepInterrupted(w: World) { w.movedFirst || w.disturbed || w.movedLast }

  /** Between functions and types the order of the type list is checked against one listing. */
  predicate OrderInterrupted(w: World) { w.movedFirst || (!w.listingFailed && (w.disturbed || w.movedLast)) }

  function Started(s: State): State {
    if s.inCycle then s else s.(inCycle := true, cycle := s.cycle + 1, swept := 0)
  }

  function Step(cfg: Config, s: State, w: World): (State, Outcome) {
    if !w.idle then (s, Busy) else
      var t := Started(s);
      var keys := NextKeys(cfg, w.lists, t);
      if keys == [] then
        if t.phase == Functions && OrderInterrupted(w) then (t, Interrupted)
        else if t.phase != Globals then
          (t.(phase := if t.phase == Functions then DataTypes else Globals, key := None), Verified(t.phase, []))
        else (t.(phase := Functions, key := None, inCycle := false), CycleComplete)
      else if SweepInterrupted(w) then (t, Interrupted)
      else (t.(key := Some(keys[|keys| - 1]), swept := t.swept + |keys|), Verified(t.phase, keys))
  }

  /** The verifier's persisted state, stepped in place. */
  class ModelVerifier {
    const cfg: Config
    var phase: Phase
    var key: Option<string>
    var inCycle: bool
    var cycle: nat
    var swept: nat

    function Value(): State
      reads this
    {
      State(phase, key, inCycle, cycle, swept)
    }

    constructor (cfg: Config)
      ensures this.cfg == cfg && Value() == FRESH
    {
      this.cfg := cfg;
      phase, key, inCycle, cycle, swept := Functions, None, false, 0, 0;
    }

    method DoStep(w: World) returns (outcome: Outcome)
      modifies this
      ensures (Value(), outcome) == Step(cfg, old(Value()), w)
    {
      hide NextKeys, OrderInterrupted, SweepInterrupted;
      if !w.idle { return Busy; }
      if !inCycle {
        cycle := cycle + 1;
        inCycle := true;
        swept := 0;
      }
      var keys := NextKeys(cfg, w.lists, Value());
      if |keys| == 0 {
        if phase == Functions && OrderInterrupted(w) { return Interrupted; }
        if phase != Globals {
          outcome := Verified(phase, []);
          phase, key := if phase == Functions then DataTypes else Globals, None;
          return;
        }
        EndCycle();
        return CycleComplete;
      }
      if SweepInterrupted(w) { return Interrupted; }
      key := Some(keys[|keys| - 1]);
      swept := swept + |keys|;
      return Verified(phase, keys);
    }

    method EndCycle()
      modifies this
      ensures Value() == old(Value()).(phase := Functions, key := None, inCycle := false)
    {
      phase, key := Functions, None;
      inCycle := false;
    }
  }

  // ---------------------------------------------------------------------------
  // Runs
  // ---------------------------------------------------------------------------

  /** The state after the first n steps, and what each step gave. */
  function After(cfg: Config, s: State, run: seq<World>): State {
    if run == [] then s else Step(cfg, After(cfg, s, run[..|run| - 1]), run[|run| - 1]).0
  }

  function Outcomes(cfg: Config, s: State, run: seq<World>): (r: seq<Outcome>)
    ensures |r| == |run|
  {
    if run == [] then [] else
      var n := |run| - 1;
      Outcomes(cfg, s, run[..n]) + [Step(cfg, After(cfg, s, run[..n]), run[n]).1]
  }

  predicate Covers(o: Outcome, p: Phase, k: string) { o.Verified? && o.phase == p && k in o.keys }

  /** In how many verified steps of its phase a key was. */
  function Times(os: seq<Outcome>, p: Phase, k: string): nat {
    if os == [] then 0 else Times(os[..|os| - 1], p, k) + if Covers(os[|os| - 1], p, k) then 1 else 0
  }

  /** The cursor has gone over this key, whether or not it was there to be seen. */
  predicate Passed(s: State, p: Phase, k: string) {
    Later(p) < Later(s.phase) || (p == s.phase && s.key.Some? && !OrderOf(p)(s.key.value, k))
  }

  ghost predicate AllInside(cfg: Config, s: State, run: seq<World>) { CycleComplete !in Outcomes(cfg, s, run) }

  ghost predicate PresentThroughout(run: seq<World>, p: Phase, k: string) {
    forall i :: 0 <= i < |run| ==> k in KeysOf(run[i].lists, p)
  }

  lemma OrderIsStrict(p: Phase)
    ensures StrictOrder(OrderOf(p))
  {
    KeyOrdersAreStrict();
  }

  lemma KeyOrdersAreTotal(p: Phase)
    ensures TotalPreorder(AtMost(OrderOf(p)))
  {
    KeyOrdersAreStrict();
    StrictIsTotal(OrderOf(p));
  }

  lemma StrictIsTotal(less: Less)
    requires StrictOrder(less)
    ensures TotalPreorder(AtMost(less))
  {
    forall a, b, c | AtMost(less)(a, b) && AtMost(less)(b, c) ensures AtMost(less)(a, c) {
      assert less(c, a) ==> less(b, a) || a == b || less(a, b);
    }
  }

  lemma ListedIsSorted(lists: Lists, p: Phase)
    ensures Sorted(Listed(lists, p), AtMost(OrderOf(p)))
    ensures forall k :: k in Listed(lists, p) <==> k in KeysOf(lists, p)
  {
    hide AtMost, OrderOf, Distinct;
    var keys := if p == Globals then Distinct(lists.globals) else KeysOf(lists, p);
    KeyOrdersAreTotal(p);
    SortSorts(keys, AtMost(OrderOf(p)));
    SameMembers(keys, Sort(keys, AtMost(OrderOf(p))));
  }

  lemma {:induction false} FilterSorted(s: seq<string>, leq: Less, p: string -> bool)
    requires Sorted(s, leq)
    ensures Sorted(Filter(s, p), leq)
    decreases |s|
  {
    if s != [] {
      FilterSorted(s[1..], leq, p);
      var r := Filter(s[1..], p);
      forall i | 0 <= i < |r| ensures leq(s[0], r[i]) {
        assert r[i] in r && r[i] in s[1..];
        var j :| 0 <= j < |s[1..]| && s[1..][j] == r[i];
        assert s[j + 1] == r[i];
      }
    }
  }

  /** What is upcoming: exactly the listed keys past the cursor, in order. */
  lemma UpcomingIs(lists: Lists, s: State)
    ensures Sorted(Upcoming(lists, s), AtMost(OrderOf(s.phase)))
    ensures forall k :: k in Upcoming(lists, s) <==>
      k in KeysOf(lists, s.phase) && (s.key.Some? ==> OrderOf(s.phase)(s.key.value, k))
  {
    ListedIsSorted(lists, s.phase);
    if s.key.Some? {
      FilterSorted(Listed(lists, s.phase), AtMost(OrderOf(s.phase)), (k: string) => OrderOf(s.phase)(s.key.value, k));
    }
  }

  /** A batch holds exactly the upcoming keys that the new cursor has gone over. */
  lemma BatchIs(cfg: Config, lists: Lists, s: State, k: string)
    requires Positive(cfg) && NextKeys(cfg, lists, s) != []
    ensures var keys := NextKeys(cfg, lists, s);
      var less := OrderOf(s.phase);
      k in keys <==> k in Upcoming(lists, s) && !less(keys[|keys| - 1], k)
  {
    hide StrictOrder, OrderOf, Upcoming;
    OrderIsStrict(s.phase);
    UpcomingIs(lists, s);
    var up, keys := Upcoming(lists, s), NextKeys(cfg, lists, s);
    var less, n := OrderOf(s.phase), |keys|;
    var last := keys[n - 1];
    assert forall i :: 0 <= i < n ==> keys[i] == up[i];
    OneWay(less, k, last);
    OneOrOther(less, k, last);
    if k in keys {
      var i :| 0 <= i < n && keys[i] == k;
      assert keys[i] in up;
      assert i < n - 1 ==> AtMost(less)(up[i], up[n - 1]);
    } else if k in up {
      var i :| 0 <= i < |up| && up[i] == k;
      assert i >= n && AtMost(less)(up[n - 1], up[i]);
      assert last in keys;
    }
  }

  /** The new cursor is past the old one: what was gone over stays so. */
  lemma KeepsPassed(cfg: Config, lists: Lists, s: State, k: string)
    requires NextKeys(cfg, lists, s) != []
    ensures var keys := NextKeys(cfg, lists, s);
      s.key.Some? && OrderOf(s.phase)(keys[|keys| - 1], k) ==> OrderOf(s.phase)(s.key.value, k)
  {
    hide StrictOrder, OrderOf, Upcoming;
    OrderIsStrict(s.phase);
    UpcomingIs(lists, s);
    var keys, less := NextKeys(cfg, lists, s), OrderOf(s.phase);
    var last := keys[|keys| - 1];
    assert last in Upcoming(lists, s);
    if s.key.Some? && less(last, k) { InARow(less, s.key.value, last, k); }
  }

  /** One step inside a cycle: a key counts once more exactly when the cursor goes over it while it is there. */
  lemma StepCovers(cfg: Config, s: State, w: World, p: Phase, k: string)
    requires Positive(cfg)
    ensures var (t, o) := Step(cfg, s, w);
      && (Passed(s, p, k) && o != CycleComplete ==> !Covers(o, p, k) && Passed(t, p, k))
      && (!Passed(s, p, k) && Covers(o, p, k) ==> Passed(t, p, k))
      && (!Passed(s, p, k) && Passed(t, p, k) && k in KeysOf(w.lists, p) ==> Covers(o, p, k))
      && (o == CycleComplete && k in KeysOf(w.lists, p) ==> Passed(s, p, k))
  {
    hide Upcoming, Listed, OrderOf;
    var (t, o) := Step(cfg, s, w);
    if w.idle {
      var started := Started(s);
      UpcomingIs(w.lists, started);
      if NextKeys(cfg, w.lists, started) == [] {
        assert Upcoming(w.lists, started) == [];
      } else {
        BatchIs(cfg, w.lists, started, k);
        KeepsPassed(cfg, w.lists, started, k);
      }
    }
  }

  /** At any point of a cycle: counted at most once, and exactly once when passed and always there. */
  lemma {:induction false} Coverage(cfg: Config, run: seq<World>, cycle: nat, swept: nat, p: Phase, k: string)
    requires Positive(cfg)
    requires AllInside(cfg, FRESH.(cycle := cycle, swept := swept), run)
    ensures var s := FRESH.(cycle := cycle, swept := swept);
      var n := Times(Outcomes(cfg, s, run), p, k);
      && n <= (if Passed(After(cfg, s, run), p, k) then 1 else 0)
      && (PresentThroughout(run, p, k) && Passed(After(cfg, s, run), p, k) ==> n == 1)
    decreases |run|
  {
    hide Step, Passed, Covers;
    var s := FRESH.(cycle := cycle, swept := swept);
    if run == [] {
      NothingPassed(s, p, k);
    } else {
      var m := |run| - 1;
      var os := Outcomes(cfg, s, run);
      assert os[..m] == Outcomes(cfg, s, run[..m]) && os[m] in os;
      assert forall o :: o in os[..m] ==> o in os;
      Coverage(cfg, run[..m], cycle, swept, p, k);
      StepCovers(cfg, After(cfg, s, run[..m]), run[m], p, k);
    }
  }

  // ---------------------------------------------------------------------------
  // What one step may count
  // ---------------------------------------------------------------------------

  /** Nothing happened from before the step's first look until after its last. */
  predicate Undisturbed(w: World) { w.idle && !w.movedFirst && !w.disturbed && !w.movedLast }

  /** A key of the phase lies past the cursor. */
  ghost predicate Left(lists: Lists, s: State, k: string) {
    && k in (if s.phase.Functions? then lists.functions else if s.phase.DataTypes? then lists.dataTypes else lists.globals)
    && (s.key.None? || OrderOf(s.phase)(s.key.value, k))
  }

  /** How many keys the phase takes at a time. */
  function Batch(cfg: Config, s: State): nat {
    if s.phase.Functions? then cfg.functions else if s.phase.DataTypes? then cfg.dataTypes else cfg.globals
  }

  /** The symbols this cycle counted before the step. */
  function SweptBefore(s: State): nat { if s.inCycle then s.swept else 0 }

  /** A step outside a cycle begins the next one. */
  function CycleNumber(s: State): nat { if s.inCycle then s.cycle else s.cycle + 1 }

  /**
   * While keys are left, a step is all or nothing: it verifies exactly when nothing happened
   * from first look to last, and then the keys it counts are the least ones left, as many
   * as the phase takes at a time or all of them, with the cursor on the last; any other step
   * gives up with phase, cursor and count where they were.
   */
  lemma StepIsAllOrNothing(cfg: Config, s: State, w: World, k: string)
    requires Positive(cfg) && Left(w.lists, s, k)
    ensures var (t, o) := Step(cfg, s, w);
      && t.phase == s.phase && (if w.idle then t.inCycle && t.cycle == CycleNumber(s) else t == s)
      && (o.Verified? <==> Undisturbed(w))
      && (!o.Verified? ==> o == (if w.idle then Interrupted else Busy) && t.key == s.key)
      && (!o.Verified? && w.idle ==> t.swept == SweptBefore(s))
      && (o.Verified? ==> o.phase == s.phase && 0 < |o.keys| <= Batch(cfg, s))
      && (o.Verified? ==> t.key == Some(o.keys[|o.keys| - 1]) && t.swept == SweptBefore(s) + |o.keys|)
      && (o.Verified? && k !in o.keys ==> |o.keys| == Batch(cfg, s) && OrderOf(s.phase)(o.keys[|o.keys| - 1], k))
      && (o.Verified? && k in o.keys ==> !OrderOf(s.phase)(o.keys[|o.keys| - 1], k))
      && (forall x :: o.Verified? && x in o.keys ==> Left(w.lists, s, x))
  {
    hide Upcoming, OrderOf, AtMost, StrictOrder;
    if w.idle {
      var started := Started(s);
      UpcomingIs(w.lists, started);
      assert k in Upcoming(w.lists, started);
      var keys := NextKeys(cfg, w.lists, started);
      BatchIs(cfg, w.lists, started, k);
      forall x | x in keys ensures Left(w.lists, s, x) { assert x in Upcoming(w.lists, started); }
      assert |keys| < BatchOf(cfg, s.phase) ==> keys == Upcoming(w.lists, started);
    }
  }

  /**
   * With no key left the step moves on with nothing counted: from functions to types unless
   * the version moved or the listing that came was disturbed, from types to globals always,
   * and from globals the cycle ends.
   */
  lemma StepMovesOn(cfg: Config, s: State, w: World)
    requires w.idle && forall k :: !Left(w.lists, s, k)
    ensures var (t, o) := Step(cfg, s, w);
      && t.swept == SweptBefore(s) && t.cycle == CycleNumber(s)
      && (s.phase == Functions ==>
            if !w.movedFirst && (w.listingFailed || Undisturbed(w))
            then o == Verified(Functions, []) && t.phase == DataTypes && t.key == None && t.inCycle
            else o == Interrupted && t.phase == Functions && t.key == s.key && t.inCycle)
      && (s.phase == DataTypes ==> o == Verified(DataTypes, []) && t.phase == Globals && t.key == None && t.inCycle)
      && (s.phase == Globals ==> o == CycleComplete && t.phase == Functions && t.key == None && !t.inCycle)
  {
    hide Upcoming, OrderOf;
    var started := Started(s);
    UpcomingIs(w.lists, started);
    var up := Upcoming(w.lists, started);
    assert forall x :: x in up ==> Left(w.lists, s, x);
    HeadIsMember(up);
  }

  predicate Canonical(s: string) { IsHex(s) && s[0] != '0' }

  /** A step goes through addresses by their numbers, and through type keys by their characters. */
  lemma VerifiedInOrder(cfg: Config, s: State, w: World, i: nat, j: nat)
    requires var o := Step(cfg, s, w).1; o.Verified? && i < j < |o.keys|
    ensures var (_, o) := Step(cfg, s, w);
      && (o.phase == DataTypes ==> !LexLess(o.keys[j], o.keys[i]))
      && (o.phase != DataTypes && Canonical(o.keys[i]) && Canonical(o.keys[j]) ==> HexValue(o.keys[i]) <= HexValue(o.keys[j]))
  {
    hide Upcoming, LexLess, AddressLess, IsHex, HexValue;
    var started := Started(s);
    UpcomingIs(w.lists, started);
    var up, keys := Upcoming(w.lists, started), NextKeys(cfg, w.lists, started);
    assert keys[i] == up[i] && keys[j] == up[j] && AtMost(OrderOf(s.phase))(up[i], up[j]);
    if Canonical(keys[i]) && Canonical(keys[j]) { AddressOrderIsNumeric(keys[j], keys[i]); }
  }

  /** A key was counted only by a step nothing happened to. */
  lemma CountedUndisturbed(cfg: Config, s: State, w: World, p: Phase, k: string)
    requires Positive(cfg) && Covers(Step(cfg, s, w).1, p, k)
    ensures Undisturbed(w) && p == s.phase && Left(w.lists, s, k)
  {
    hide Upcoming, OrderOf;
    var started := Started(s);
    UpcomingIs(w.lists, started);
    assert k in Upcoming(w.lists, started);
    StepIsAllOrNothing(cfg, s, w, k);
  }

  lemma {:induction false} OutcomeAt(cfg: Config, s: State, run: seq<World>, i: nat)
    requires i < |run|
    ensures Outcomes(cfg, s, run)[i] == Step(cfg, After(cfg, s, run[..i]), run[i]).1
    decreases |run|
  {
    hide Step;
    var n := |run| - 1;
    if i < n {
      OutcomeAt(cfg, s, run[..n], i);
      assert run[..n][..i] == run[..i];
    }
  }

  lemma RunCountsUndisturbed(cfg: Config, s: State, run: seq<World>, p: Phase, k: string)
    requires Positive(cfg)
    ensures var os := Outcomes(cfg, s, run); forall i :: 0 <= i < |os| && Covers(os[i], p, k) ==> Undisturbed(run[i])
  {
    hide Step, Covers, Undisturbed, Left;
    var os := Outcomes(cfg, s, run);
    forall i | 0 <= i < |os| && Covers(os[i], p, k) ensures Undisturbed(run[i]) {
      OutcomeAt(cfg, s, run, i);
      CountedUndisturbed(cfg, After(cfg, s, run[..i]), run[i], p, k);
    }
  }

  lemma NothingPassed(s: State, p: Phase, k: string)
    requires s.phase == Functions && s.key == None
    ensures !Passed(s, p, k)
  {
  }

  /**
   * Sweep coverage: over a whole cycle, with any lists at any step and any interruptions, a
   * key that is there throughout is in exactly one verified step of its phase, and no key is
   * in two; and a step that counted a key was undisturbed from its first look to its last.
   */
  lemma CycleCoverage(cfg: Config, run: seq<World>, last: World, cycle: nat, swept: nat, p: Phase, k: string)
    requires Positive(cfg)
    requires var s := FRESH.(cycle := cycle, swept := swept);
      AllInside(cfg, s, run) && Step(cfg, After(cfg, s, run), last).1 == CycleComplete
    ensures var times := Times(Outcomes(cfg, FRESH.(cycle := cycle, swept := swept), run + [last]), p, k);
      times <= 1 && (PresentThroughout(run + [last], p, k) ==> times == 1)
    ensures var os := Outcomes(cfg, FRESH.(cycle := cycle, swept := swept), run + [last]);
      forall i :: 0 <= i < |os| && Covers(os[i], p, k) ==> Undisturbed((run + [last])[i])
  {
    hide Step, Passed, Undisturbed;
    var s := FRESH.(cycle := cycle, swept := swept);
    Coverage(cfg, run, cycle, swept, p, k);
    StepCovers(cfg, After(cfg, s, run), last, p, k);
    assert (run + [last])[..|run|] == run;
    var os := Outcomes(cfg, s, run + [last]);
    assert os == Outcomes(cfg, s, run) + [CycleComplete] && os[..|run|] == Outcomes(cfg, s, run);
    assert forall i :: 0 <= i < |run| ==> run[i] == (run + [last])[i];
    assert last == (run + [last])[|run|];
    RunCountsUndisturbed(cfg, s, run + [last], p, k);
  }
}
