/**
 * Attribution: what ordinary tasks applied and what was committed in contributors' names
 * have nothing in common, and no two contributors share an event. Exactly when that is so,
 * over any run; and what the hypotheses of `LiveLoop.Allowed` leave of the exceptions.
 */
module LoopAttribution {
  import opened Prelude
  import opened LiveLoop
  import opened LoopLine
  import opened LoopHistory
  import opened LoopRecord
  import opened LoopSafety
  import opened LoopSegments
  import WQ = WorkQueue
  import B = Boundary

  predicate InWindow(n: nat, w: B.Uncommitted) { w.since < n <= w.until }

  predicate Apart(a: B.Uncommitted, b: B.Uncommitted) { a.until <= b.since || b.until <= a.since }

  ghost predicate Reaches(events: set<nat>, w: B.Uncommitted) { exists n :: n in events && InWindow(n, w) }

  /** No event of a committed window was applied by an ordinary task, and no two commits' windows overlap. */
  ghost predicate AttributionSafe(b: Book) {
    && (forall w :: w in b.windows ==> !Reaches(b.ordinary, w))
    && (forall i, j :: 0 <= i < j < |b.windows| ==> Apart(b.windows[i], b.windows[j]))
  }

  // ---------------------------------------------------------------------------
  // The two trespasses
  // ---------------------------------------------------------------------------

  ghost function Claimed(s: State): iset<B.Uncommitted> { iset u | Claims(s, u) }

  /** Those of `claims` the events reach into. */
  ghost function Into(claims: iset<B.Uncommitted>, events: set<nat>): iset<B.Uncommitted> {
    iset u | u in claims && Reaches(events, u)
  }

  /** The windows an ordinary task reached into while they were applied but uncommitted. */
  ghost function Reached(host: Host, steps: seq<Step>): iset<B.Uncommitted> {
    if steps == [] then iset{} else
      var before := steps[..|steps|-1];
      var s := Run(Init(host), before);
      Reached(host, before) + Into(Claimed(s), Brings(s, steps[|steps|-1]))
  }

  /** An ordinary task applies an event of a window that is already committed. */
  ghost predicate AppliesLate(s: State, step: Step) {
    exists w :: w in s.book.windows && Reaches(Brings(s, step), w)
  }

  /** A retry commits a window an ordinary task has reached into meanwhile, or one that is already committed. */
  ghost predicate LandsTaken(host: Host, before: seq<Step>, step: Step) {
    var s := Run(Init(host), before);
    step.RunRetry? && Landing(s, step).Some? &&
    (Landing(s, step).value in Reached(host, before) || Landing(s, step).value in s.book.windows)
  }

  ghost predicate Trespasses(host: Host, before: seq<Step>, step: Step) {
    AppliesLate(Run(Init(host), before), step) || LandsTaken(host, before, step)
  }

  /** A section's window is published with the model at its start. */
  predicate AtStart(s: State, step: Step) {
    step.RunSection? && RunsSection(s) && RunningCall(s).ready ==> s.book.modelSeq == RunningCall(s).window.since
  }

  // ---------------------------------------------------------------------------
  // One step, on the record alone
  // ---------------------------------------------------------------------------

  /**
   * Uncommitted windows are over what the model holds, clear of each other and of committed
   * ones, and hold an ordinarily applied event exactly when one reached in meanwhile.
   */
  ghost predicate Ledger(b: Book, claims: iset<B.Uncommitted>, reached: iset<B.Uncommitted>) {
    && (forall u :: u in claims ==> u.since < u.until <= b.modelSeq)
    && (forall u, v :: u in claims && v in claims ==> u == v || Apart(u, v))
    && (forall u, w :: u in claims && w in b.windows ==> u == w || Apart(u, w))
    && (forall u :: u in claims ==> (Reaches(b.ordinary, u) <==> u in reached))
    && (forall u :: u in reached ==> u.until <= b.modelSeq)
  }

  /** A step as the record sees it. */
  ghost predicate Recorded(b: Book, b': Book, claims: iset<B.Uncommitted>, events: set<nat>, landed: Option<B.Uncommitted>, left: Option<B.Uncommitted>) {
    && BookWhole(b) && BookWhole(b')
    && b'.ordinary == b.ordinary + events && b'.windows == WithLanding(b.windows, landed) && b.modelSeq <= b'.modelSeq
    && (landed.Some? || left.Some? ==> events == {}) && (landed.Some? ==> left.None?)
    && (landed.Some? ==> landed.value in claims || landed.value.since == b.modelSeq)
    && (left.Some? ==> left.value.since == b.modelSeq)
  }

  lemma ReachesUnion(a: set<nat>, b: set<nat>, w: B.Uncommitted)
    ensures Reaches(a + b, w) <==> Reaches(a, w) || Reaches(b, w)
  {
    if Reaches(a, w) { var n :| n in a && InWindow(n, w); assert n in a + b; }
    if Reaches(b, w) { var n :| n in b && InWindow(n, w); assert n in a + b; }
  }

  /** What the model holds ends where a window begins that starts at its position. */
  lemma NotReached(b: Book, w: B.Uncommitted)
    requires BookWhole(b) && b.modelSeq <= w.since
    ensures !Reaches(b.ordinary, w) && forall v :: v in b.windows ==> Apart(v, w)
  {
    hide SegmentsWhole;
  }

  lemma LedgerKept(b: Book, b': Book, claims: iset<B.Uncommitted>, claims': iset<B.Uncommitted>, reached: iset<B.Uncommitted>,
                   events: set<nat>, landed: Option<B.Uncommitted>, left: Option<B.Uncommitted>)
    requires Ledger(b, claims, reached) && Recorded(b, b', claims, events, landed, left)
    requires forall u :: u in claims' ==> u in claims || left == Some(u)
    requires forall u :: u in claims' ==> u.since < u.until <= b'.modelSeq
    ensures Ledger(b', claims', reached + Into(claims, events))
  {
    hide BookWhole, Reaches;
    forall u | u in claims' ensures Reaches(b'.ordinary, u) <==> u in reached + Into(claims, events) {
      ReachesUnion(b.ordinary, events, u);
      if u !in claims { NotReached(b, u); NothingReached(u); }
    }
    if left.Some? { NotReached(b, left.value); }
    if landed.Some? { NotLate(b, claims, landed.value, b'.windows); }
    assert landed.None? ==> b'.windows == b.windows;
  }

  lemma NothingReached(u: B.Uncommitted)
    ensures !Reaches({}, u)
  {
  }

  lemma NotLate(b: Book, claims: iset<B.Uncommitted>, w: B.Uncommitted, windows: seq<B.Uncommitted>)
    requires forall u :: u in claims ==> u.until <= b.modelSeq
    requires forall u, v :: u in claims && v in claims ==> u == v || Apart(u, v)
    requires forall u, v :: u in claims && v in b.windows ==> u == v || Apart(u, v)
    requires w in claims || w.since == b.modelSeq
    requires windows == b.windows + [w]
    ensures forall u, v :: u in claims && v in windows ==> u == v || Apart(u, v)
  {
  }

  /** Attribution stays safe but for a late application or a commit of a window that is taken. */
  lemma SafetyKept(b: Book, b': Book, claims: iset<B.Uncommitted>, reached: iset<B.Uncommitted>,
                   events: set<nat>, landed: Option<B.Uncommitted>, left: Option<B.Uncommitted>)
    requires Ledger(b, claims, reached) && Recorded(b, b', claims, events, landed, left)
    ensures AttributionSafe(b') <==>
      && AttributionSafe(b) && !(exists w :: w in b.windows && Reaches(events, w))
      && (landed.Some? && landed.value in claims ==> landed.value !in reached && landed.value !in b.windows)
  {
    hide BookWhole, Reaches, Ledger;
    forall w ensures Reaches(b'.ordinary, w) <==> Reaches(b.ordinary, w) || Reaches(events, w) { ReachesUnion(b.ordinary, events, w); }
    if landed.None? { assert b'.windows == b.windows; } else {
      var w := landed.value;
      NothingLate(b);
      assert b'.ordinary == b.ordinary;
      Joined(b, b', w);
      if w in claims { LandedClaim(b, claims, reached, w); } else { NotReached(b, w); }
    }
  }

  lemma NothingLate(b: Book)
    ensures !(exists w :: w in b.windows && Reaches({}, w))
  {
  }

  lemma LandedClaim(b: Book, claims: iset<B.Uncommitted>, reached: iset<B.Uncommitted>, w: B.Uncommitted)
    requires Ledger(b, claims, reached) && w in claims
    ensures (forall v :: v in b.windows ==> Apart(v, w)) <==> w !in b.windows
    ensures Reaches(b.ordinary, w) <==> w in reached
  {
    hide Reaches;
  }

  lemma Joined(b: Book, b': Book, w: B.Uncommitted)
    requires b'.ordinary == b.ordinary && b'.windows == b.windows + [w]
    ensures AttributionSafe(b') <==> AttributionSafe(b) && !Reaches(b.ordinary, w) && forall v :: v in b.windows ==> Apart(v, w)
  {
    hide Reaches, Apart;
    var ws, ws' := b.windows, b'.windows;
    assert forall v :: v in ws' <==> v in ws || v == w;
    assert forall i :: 0 <= i < |ws| ==> ws'[i] == ws[i] && ws[i] in ws;
    if AttributionSafe(b') {
      forall v | v in ws ensures Apart(v, w) { var i :| 0 <= i < |ws| && ws[i] == v; assert Apart(ws'[i], ws'[|ws|]); }
      forall i, j | 0 <= i < j < |ws| ensures Apart(ws[i], ws[j]) { assert Apart(ws'[i], ws'[j]); }
    }
  }

  // ---------------------------------------------------------------------------
  // One step
  // ---------------------------------------------------------------------------

  lemma ClaimsFit(s: State)
    requires History(s)
    ensures forall u :: u in Claimed(s) ==> u.since < u.until <= s.book.modelSeq
  {
    hide BookWhole, StreamFits;
    forall u | u in Claimed(s) ensures u.since < u.until <= s.book.modelSeq {
      if s.boundary.unattributed != Some(u) {
        var k :| k in s.calls && s.calls[k] == Retrying(u);
        assert CallFits(s, s.calls[k]);
      }
    }
  }

  lemma LandingIs(s: State, step: Step)
    requires AtStart(s, step) && Landing(s, step).Some?
    ensures Brings(s, step) == {} && Leaves(s, step).None?
    ensures if step.RunRetry? then Landing(s, step).value in Claimed(s) else Landing(s, step).value.since == s.book.modelSeq
  {
    if step.RunRetry? { assert s.calls[RunningJob(s).value.slot] == Retrying(Landing(s, step).value); }
  }

  lemma LeavingIs(s: State, step: Step)
    requires AtStart(s, step) && Leaves(s, step).Some?
    ensures Brings(s, step) == {} && Landing(s, step).None? && Leaves(s, step).value.since == s.book.modelSeq
  {
  }

  lemma StepIsRecorded(s: State, step: Step)
    requires Sound(s) && Sound(Next(s, step)) && AtStart(s, step)
    ensures Recorded(s.book, Next(s, step).book, Claimed(s), Brings(s, step), Landing(s, step), Leaves(s, step))
    ensures forall u :: u in Claimed(Next(s, step)) ==> u in Claimed(s) || Leaves(s, step) == Some(u)
  {
    hide LineInv, BookWhole, StreamFits, CallsFit, Next, AtStart, Brings, Landing, Leaves, Claims;
    StepRecords(s, step);
    StepBooks(s, step);
    if Landing(s, step).Some? { LandingIs(s, step); }
    if Leaves(s, step).Some? { LeavingIs(s, step); }
  }

  lemma {:induction false} LedgerStep(host: Host, before: seq<Step>, step: Step)
    requires var s := Run(Init(host), before); Sound(s) && AtStart(s, step) && Ledger(s.book, Claimed(s), Reached(host, before))
    ensures var s, s' := Run(Init(host), before), Next(Run(Init(host), before), step);
      && Ledger(s'.book, Claimed(s'), Reached(host, before) + Into(Claimed(s), Brings(s, step)))
      && (AttributionSafe(s'.book) <==> AttributionSafe(s.book) && !Trespasses(host, before, step))
  {
    hide Run, Reached, Next, Sound, Ledger, AtStart, Claimed, AttributionSafe, Brings, Landing, Leaves, Recorded, Into;
    var s, s' := Run(Init(host), before), Next(Run(Init(host), before), step);
    StepKeepsHistory(s, step);
    StepIsRecorded(s, step);
    SoundClaims(s');
    LedgerKept(s.book, s'.book, Claimed(s), Claimed(s'), Reached(host, before), Brings(s, step), Landing(s, step), Leaves(s, step));
    SafetyKept(s.book, s'.book, Claimed(s), Reached(host, before), Brings(s, step), Landing(s, step), Leaves(s, step));
    if Landing(s, step).Some? { LandingIs(s, step); FreshIsUnclaimed(s, Landing(s, step).value); }
  }

  lemma SoundClaims(s: State)
    requires Sound(s)
    ensures forall u :: u in Claimed(s) ==> u.since < u.until <= s.book.modelSeq
  {
    hide History;
    ClaimsFit(s);
  }

  lemma FreshIsUnclaimed(s: State, w: B.Uncommitted)
    requires Sound(s)
    ensures w.since == s.book.modelSeq ==> w !in Claimed(s)
  {
    hide Sound, Claimed;
    SoundClaims(s);
  }

  // ---------------------------------------------------------------------------
  // Whole runs
  // ---------------------------------------------------------------------------

  ghost predicate NoTrespass(host: Host, steps: seq<Step>) {
    forall i :: 0 <= i < |steps| ==> !Trespasses(host, steps[..i], steps[i])
  }

  predicate AtStartThroughout(host: Host, steps: seq<Step>) {
    forall i :: 0 <= i < |steps| ==> AtStart(Run(Init(host), steps[..i]), steps[i])
  }

  lemma PrefixAndLast(host: Host, steps: seq<Step>)
    requires steps != []
    ensures NoTrespass(host, steps) <==> NoTrespass(host, steps[..|steps|-1]) && !Trespasses(host, steps[..|steps|-1], steps[|steps|-1])
    ensures AtStartThroughout(host, steps) ==> AtStartThroughout(host, steps[..|steps|-1]) && AtStart(Run(Init(host), steps[..|steps|-1]), steps[|steps|-1])
  {
    hide Run, Trespasses, AtStart;
    var k := |steps| - 1;
    assert forall i :: 0 <= i < k ==> steps[..k][..i] == steps[..i];
  }

  lemma {:induction false} LedgerHolds(host: Host, steps: seq<Step>)
    requires AtStartThroughout(host, steps)
    ensures var s := Run(Init(host), steps); Ledger(s.book, Claimed(s), Reached(host, steps))
    ensures AttributionSafe(Run(Init(host), steps).book) <==> NoTrespass(host, steps)
    decreases |steps|
  {
    hide Ledger, Sound, Next, Trespasses, AttributionSafe, NoTrespass, AtStartThroughout, AtStart, Into, Claimed, Brings;
    if steps == [] { NothingAtStart(host); } else {
      var before := steps[..|steps|-1];
      PrefixAndLast(host, steps);
      LedgerHolds(host, before);
      HistoryIsComplete(host, before);
      LedgerStep(host, before, steps[|steps|-1]);
    }
  }

  lemma NothingAtStart(host: Host)
    ensures Ledger(BLANK, Claimed(Init(host)), iset{}) && AttributionSafe(BLANK) && NoTrespass(host, [])
  {
  }

  /**
   * Exactly when attribution is safe, over every run in which sections publish their windows
   * at the model's position: no ordinary task applied an event of a window already committed,
   * and no retry committed a window that an ordinary task had reached into while it waited,
   * or that was committed before.
   */
  lemma AttributionExactly(host: Host, steps: seq<Step>)
    requires AtStartThroughout(host, steps)
    ensures AttributionSafe(Run(Init(host), steps).book) <==> NoTrespass(host, steps)
  {
    LedgerHolds(host, steps);
  }

  /** The daemon's own host sees to that by itself: for it the condition is exact with no hypothesis at all. */
  lemma MainLoopAttribution(steps: seq<Step>)
    ensures AttributionSafe(Run(Init(MainLoop), steps).book) <==> NoTrespass(MainLoop, steps)
  {
    hide Run, AttributionSafe, NoTrespass, Sound;
    forall i | 0 <= i < |steps| ensures AtStart(Run(Init(MainLoop), steps[..i]), steps[i]) {
      HistoryIsComplete(MainLoop, steps[..i]);
      RunsOnItsHost(MainLoop, steps[..i]);
      ReadyIsAtStart(Run(Init(MainLoop), steps[..i]), steps[i]);
    }
    AttributionExactly(MainLoop, steps);
  }

  lemma ReadyIsAtStart(s: State, step: Step)
    requires Sound(s) && s.host == MainLoop
    ensures AtStart(s, step)
  {
    hide LineInv, BookWhole, StreamFits;
    if step.RunSection? && RunsSection(s) { assert CallFits(s, RunningCall(s)); }
  }

  // ---------------------------------------------------------------------------
  // Allowed runs
  // ---------------------------------------------------------------------------

  lemma PositionedIsAtStart(s: State, step: Step)
    requires Positions(s)
    ensures AtStart(s, step)
  {
  }

  lemma NothingReachedInto(s: State, step: Step)
    requires Core(s)
    ensures Into(Claimed(s), Brings(s, step)) == iset{}
  {
    hide Sound, Ordered, HoldInv, Brings, OwnersAgree;
    HeldClaims(s);
    if s.boundary.unattributed.Some? { NothingBrought(s, step); }
  }

  lemma {:induction false} NeverReached(host: Host, steps: seq<Step>)
    requires AllowedRun(Init(host), steps)
    ensures Reached(host, steps) == iset{}
    decreases |steps|
  {
    hide Run, Core, Allowed, Into, Claimed, Brings;
    if steps != [] {
      AllowedPrefix(Init(host), steps);
      NeverReached(host, steps[..|steps|-1]);
      RunKeepsCore(host, steps[..|steps|-1]);
      NothingReachedInto(Run(Init(host), steps[..|steps|-1]), steps[|steps|-1]);
    }
  }

  lemma NotYetCommitted(s: State, step: Step)
    requires Held(s) && step.RunRetry? && Landing(s, step).Some?
    ensures Landing(s, step).value !in s.book.windows
  {
    hide HoldInv, OwnersAgree;
    assert CallInv(s.boundary, s.book.windows, RunningCall(s));
  }

  /** Of the trespasses, the hypotheses leave the first. */
  lemma OnlyLate(host: Host, steps: seq<Step>, i: nat)
    requires AllowedRun(Init(host), steps) && WellStartedRun(Init(host), steps) && i < |steps|
    ensures var s := Run(Init(host), steps[..i]);
      Sound(s) && AtStart(s, steps[i]) && (Trespasses(host, steps[..i], steps[i]) <==> AppliesLate(s, steps[i]))
  {
    hide Run, Positions, Sound, Ordered, Held, AtStart, Allowed, StartsWell, AppliesLate, Reached;
    PrefixKeepsPositions(host, steps, i);
    PositionedIsAtStart(Run(Init(host), steps[..i]), steps[i]);
    NeverReached(host, steps[..i]) by { AllowedUpTo(host, steps, i); }
    if steps[i].RunRetry? && Landing(Run(Init(host), steps[..i]), steps[i]).Some? { NotYetCommitted(Run(Init(host), steps[..i]), steps[i]); }
  }

  /**
   * Attribution over whole allowed runs, for either host: for every interleaving of journal
   * growth, deliveries, batches, operator actions, blocks, failing publishes, begins, commits,
   * retries, aborts and expiries the hypotheses allow, it is safe if and only if no ordinary
   * task applied an event of a window that was committed before.
   */
  lemma AttributionSafety(host: Host, steps: seq<Step>)
    requires AllowedRun(Init(host), steps) && WellStartedRun(Init(host), steps)
    ensures AttributionSafe(Run(Init(host), steps).book)
      <==> forall i :: 0 <= i < |steps| ==> !AppliesLate(Run(Init(host), steps[..i]), steps[i])
  {
    hide Run, AttributionSafe, Trespasses, AtStart, AppliesLate, Sound, AllowedRun, WellStartedRun;
    forall i | 0 <= i < |steps|
      ensures AtStart(Run(Init(host), steps[..i]), steps[i])
      ensures Trespasses(host, steps[..i], steps[i]) <==> AppliesLate(Run(Init(host), steps[..i]), steps[i])
    {
      OnlyLate(host, steps, i);
    }
    AttributionExactly(host, steps);
  }

  /** A commit in a contributor's name that was made and then thrown over, so that its window is not marked consumed. */
  predicate ThrowsAfterLanding(s: State, step: Step) {
    ActOf(s, step).Some? && ActOf(s, step).value.owner.Some? && ActOf(s, step).value.outcome == ThrewLanded
  }

  ghost predicate AllConsumed(b: Book) { forall w :: w in b.windows ==> w.until <= b.consumed }

  lemma LandedIsConsumed(s: State, step: Step)
    requires AllConsumed(s.book) && !ThrowsAfterLanding(s, step)
    ensures AllConsumed(Next(s, step).book)
  {
    hide ActOf, Next, Landing, Brings;
    StepRecords(s, step);
    ConsumedGrows(s, step);
    assert forall w :: w in Next(s, step).book.windows ==> w in s.book.windows || Landing(s, step) == Some(w);
  }

  lemma ConsumedGrows(s: State, step: Step)
    requires !ThrowsAfterLanding(s, step)
    ensures s.book.consumed <= Next(s, step).book.consumed
    ensures Landing(s, step).Some? ==> Landing(s, step).value.until <= Next(s, step).book.consumed
  {
    hide SettleQueue, B.Finish, B.Steer, B.AfterPublish, SubmitJob, Unconsumed, Elems, CS.Returned, CS.Threw, CS.MarkApplied, Publish, Ordinary,
      Release, Proceed, EnterSection, AllRejected, WQ.Unblock;
    SettlesOnly(s);
    PublishMarksNothing(s.book);
    if !step.RunApply? && !step.RunOwn? && !step.RunSection? && !step.RunRetry? { OtherwiseIdles(s, step); }
  }

  lemma PublishMarksNothing(b: Book)
    ensures forall events, upto, owner, outcome :: Publish(b, events, upto, owner, outcome).consumed == b.consumed
    ensures forall events, upto, outcome :: Ordinary(b, events, upto, outcome).consumed == b.consumed
  {
  }

  lemma ConsumedIsNotLate(s: State, step: Step)
    requires Sound(s) && AllConsumed(s.book)
    ensures !AppliesLate(s, step)
  {
    hide LineInv, StreamFits, CallsFit, SegmentsWhole;
  }

  /** When no publish throws after its commit was made, attribution is safe in every allowed run. */
  lemma SafeUnlessThrown(host: Host, steps: seq<Step>)
    requires AllowedRun(Init(host), steps) && WellStartedRun(Init(host), steps)
    requires forall i :: 0 <= i < |steps| ==> !ThrowsAfterLanding(Run(Init(host), steps[..i]), steps[i])
    ensures AttributionSafe(Run(Init(host), steps).book)
  {
    hide Run, AttributionSafe, AppliesLate, Sound, AllowedRun, WellStartedRun, ThrowsAfterLanding;
    forall i | 0 <= i < |steps| ensures !AppliesLate(Run(Init(host), steps[..i]), steps[i]) {
      AllConsumedUpTo(host, steps, i);
      HistoryIsComplete(host, steps[..i]);
      ConsumedIsNotLate(Run(Init(host), steps[..i]), steps[i]);
    }
    AttributionSafety(host, steps);
  }

  lemma {:induction false} AllConsumedUpTo(host: Host, steps: seq<Step>, i: nat)
    requires i <= |steps| && forall j :: 0 <= j < |steps| ==> !ThrowsAfterLanding(Run(Init(host), steps[..j]), steps[j])
    ensures AllConsumed(Run(Init(host), steps[..i]).book)
    decreases i
  {
    hide Next, ThrowsAfterLanding, AllConsumed;
    if i == 0 { NothingConsumed(host); } else {
      AllConsumedUpTo(host, steps, i - 1);
      assert steps[..i][..i-1] == steps[..i-1] && steps[..i][i-1] == steps[i-1];
      LandedIsConsumed(Run(Init(host), steps[..i-1]), steps[i-1]);
    }
  }

  lemma NothingConsumed(host: Host)
    ensures AllConsumed(BLANK)
  {
  }
}
