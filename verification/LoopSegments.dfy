/**
 * What lands in each commit. A rebuild commits everything the model holds past the tree, so
 * the question is whether what a commit carries under a contributor's name is exactly the
 * proposal's window.
 */
module LoopSegments {
  import opened Prelude
  import opened LiveLoop
  import opened LoopLine
  import opened LoopHistory
  import opened LoopRecord
  import opened LoopSafety
  import WQ = WorkQueue
  import CS = ChangeStream
  import B = Boundary

  /** What was committed in the owner's name is the owner's window, every event of it and no other. */
  ghost predicate ExactSegment(segment: Segment) {
    segment.owner.Some? && segment.landed ==>
      var w := segment.owner.value;
      segment.from == w.since && segment.to == w.until && segment.events == Range(w.since, w.until)
  }

  ghost predicate AllExact(b: Book) { forall segment :: segment in b.segments ==> ExactSegment(segment) }

  // ---------------------------------------------------------------------------
  // Any run, either host, no hypothesis
  // ---------------------------------------------------------------------------

  /**
   * The guard of an exact commit: the tree is at the window's start, and the model past
   * nothing but the window; a retry, which applies nothing, finds the whole window there.
   */
  predicate MakesExact(s: State, step: Step) {
    var w := Landing(s, step);
    w.Some? ==>
      && s.book.treeSeq == w.value.since
      && if step.RunSection? then s.book.modelSeq <= w.value.until else s.book.modelSeq == w.value.until
  }

  /** A publish that rebuilds adds one segment, from the tree's position to the model's new one. */
  lemma PublishCuts(b: Book, act: Act)
    requires BookWhole(b) && BookWhole(Booked(b, act))
    ensures var b' := Booked(b, act);
      if Rebuilds(act.outcome)
      then b'.segments == b.segments + [Segment(act.owner, b.treeSeq, Max(b.modelSeq, act.upto), Range(b.treeSeq, Max(b.modelSeq, act.upto)), Lands(act.outcome))]
      else b'.segments == b.segments
  {
    var b' := Booked(b, act);
    if Rebuilds(act.outcome) { assert SegmentWhole(b'.segments, |b.segments|); }
  }

  /** What is committed in a name is the running call's window. */
  lemma LandingIsTheCalls(s: State, step: Step)
    requires Sound(s) && ActOf(s, step).Some? && ActOf(s, step).value.owner.Some?
    ensures var w := ActOf(s, step).value.owner.value;
      && (RunsSection(s) || RunsRetry(s)) && w == RunningCall(s).window && w.since < w.until
      && ActOf(s, step).value.upto == (if step.RunSection? then w.until else 0)
  {
    hide LineInv, BookWhole, StreamFits;
    assert CallFits(s, RunningCall(s));
  }

  lemma OneMore(b: Book, b': Book, segment: Segment)
    requires b'.segments == b.segments + [segment]
    ensures AllExact(b') <==> AllExact(b) && ExactSegment(segment)
  {
    assert forall x :: x in b'.segments <==> x in b.segments || x == segment;
  }

  /** The commits so far stay; the next one is exact or not as the guard says. */
  lemma {:induction false} StepCuts(s: State, step: Step)
    requires Sound(s)
    ensures AllExact(Next(s, step).book) <==> AllExact(s.book) && MakesExact(s, step)
  {
    hide LineInv, StreamFits, CallsFit, Next, ActOf, Booked, AllExact, BookWhole;
    StepKeepsHistory(s, step);
    StepBooks(s, step);
    var b', act := Next(s, step).book, ActOf(s, step);
    if act.None? { SameSegments(s.book, b'); } else {
      TreeGrows(s.book, act.value);
      ConsumedMark(Booked(s.book, act.value), b');
      PublishCuts(s.book, act.value);
      if Rebuilds(act.value.outcome) {
        var to' := Max(s.book.modelSeq, act.value.upto);
        OneMore(s.book, b', Segment(act.value.owner, s.book.treeSeq, to', Range(s.book.treeSeq, to'), Lands(act.value.outcome)));
        if act.value.owner.Some? { LandingIsTheCalls(s, step); TreeBehind(s.book); }
      } else { SameSegments(s.book, b'); }
    }
  }

  lemma TreeGrows(b: Book, act: Act)
    requires BookWhole(b)
    ensures Booked(b, act).consumed <= Booked(b, act).treeSeq
  {
    hide SegmentsWhole;
  }

  lemma TreeBehind(b: Book)
    requires BookWhole(b)
    ensures b.treeSeq <= b.modelSeq
  {
  }

  lemma SameSegments(b: Book, b': Book)
    requires b'.segments == b.segments
    ensures AllExact(b) <==> AllExact(b')
  {
  }

  /** The mark of what was consumed aside, the book is whole. */
  lemma ConsumedMark(b: Book, b': Book)
    requires BookWhole(b') && b' == b.(consumed := b'.consumed) && b.consumed <= b.treeSeq
    ensures BookWhole(b)
  {
  }

  /**
   * Exactly when every commit under a contributor's name is exactly its window, over every
   * run of either host: at each step that makes one, the tree was at the window's start and
   * the model past nothing but the window.
   */
  lemma {:induction false} SegmentsExactly(host: Host, steps: seq<Step>)
    ensures AllExact(Run(Init(host), steps).book) <==> forall i :: 0 <= i < |steps| ==> MakesExact(Run(Init(host), steps[..i]), steps[i])
    decreases |steps|
  {
    hide Next, MakesExact, Sound;
    if steps != [] {
      var k := |steps| - 1;
      SegmentsExactly(host, steps[..k]);
      HistoryIsComplete(host, steps[..k]);
      StepCuts(Run(Init(host), steps[..k]), steps[k]);
      LastAndBefore(Init(host), steps);
    }
  }

  lemma LastAndBefore(s: State, steps: seq<Step>)
    requires steps != []
    ensures var k := |steps| - 1;
      (forall i :: 0 <= i < |steps| ==> MakesExact(Run(s, steps[..i]), steps[i]))
      <==> (forall i :: 0 <= i < k ==> MakesExact(Run(s, steps[..k][..i]), steps[..k][i])) && MakesExact(Run(s, steps[..k]), steps[k])
  {
    hide Run, MakesExact;
    var k := |steps| - 1;
    assert forall i :: 0 <= i < k ==> steps[..k][..i] == steps[..i];
  }

  // ---------------------------------------------------------------------------
  // Allowed runs
  // ---------------------------------------------------------------------------

  /** A caller who passes `sinceSeq` starts no earlier than the hold. */
  predicate StartsAtHold(s: State, step: Step) {
    (step.SubmitWindow? && step.isolated && step.slot in s.calls && s.calls[step.slot].Waiting? && s.boundary.hold.Some?) ==>
      s.boundary.hold.value.since <= s.calls[step.slot].since
  }

  /** What a run of this host is asked for beside `Allowed`. */
  predicate StartsWell(s: State, step: Step) { s.host.Contract? ==> StartsAtHold(s, step) }

  predicate WellStartedRun(s: State, steps: seq<Step>) {
    forall i :: 0 <= i < |steps| ==> StartsWell(Run(s, steps[..i]), steps[i])
  }

  ghost predicate SomeReady(calls: map<nat, Call>) { exists k :: k in calls && calls[k].Committing? && calls[k].ready }

  /** Under the hold nothing past its start reaches the model but the window. */
  ghost predicate HeldBack(s: State) {
    s.boundary.hold.Some? ==>
      var from := s.boundary.hold.value.since;
      && (s.book.modelSeq <= from || SomeReady(s.calls))
      && (forall n :: n in s.stream.batch ==> n <= from)
      && (forall k :: k in s.calls && s.calls[k].Committing? ==> from <= s.calls[k].window.since)
  }

  /** Where the model is while a section is at its window, or a proposal uncommitted. */
  ghost predicate Positions(s: State) {
    && (forall k :: k in s.calls && s.calls[k].Committing? && s.calls[k].ready ==> s.book.modelSeq == s.calls[k].window.since)
    && (s.boundary.unattributed.Some? ==> s.book.modelSeq == s.boundary.unattributed.value.until)
    && (s.host.Contract? ==> HeldBack(s))
  }

  /** Nothing that positions depend on has changed, but for what ended. */
  ghost predicate MovesOn(s: State, s': State) {
    && s'.host == s.host && s'.book.modelSeq == s.book.modelSeq
    && (s'.boundary.unattributed.Some? ==> s'.boundary.unattributed == s.boundary.unattributed)
    && (s'.boundary.hold.Some? ==> s'.boundary.hold == s.boundary.hold && (SomeReady(s.calls) ==> SomeReady(s'.calls)))
    && (forall k :: k in s'.calls && s'.calls[k].Committing? ==>
          (k in s.calls && s'.calls[k] == s.calls[k])
          || (!s'.calls[k].ready && (s.host.Contract? && s'.boundary.hold.Some? ==> s'.boundary.hold.value.since <= s'.calls[k].window.since)))
    && (forall n :: n in s'.stream.batch ==> n in s.stream.batch)
  }

  lemma MovedOn(s: State, s': State)
    requires Positions(s) && MovesOn(s, s')
    ensures Positions(s')
  {
    hide SomeReady;
  }

  lemma StillReady(s: State, s': State)
    requires forall k :: k in s.calls && s.calls[k].Committing? ==> k in s'.calls && s'.calls[k] == s.calls[k]
    ensures SomeReady(s.calls) ==> SomeReady(s'.calls)
  {
  }

  lemma BatchAtPosition(s: State, outcome: Outcome)
    requires Core(s) && Positions(s) && RunningJob(s).Some? && RunningJob(s).value.ApplyJob?
    ensures Positions(Next(s, RunApply(outcome)))
  {
    hide SettleQueue, WQ.Inv, LineFits, EntriesFit, BookWhole, StreamFits, CallsFit, Ordered, CallInv, HoldInv, CS.Returned, CS.Threw, Publish;
    RunningIsWanted(s);
    NoneReady(s);
    SettlesOnly(s);
    var events := Unconsumed(RunningJob(s).value.batch, s.book.consumed);
    HeardBatch(s.stream);
    ModelAfter(s.book, Act(Elems(events), MaxOf(0, events), None, outcome));
  }

  lemma HeardBatch(stream: CS.Stream)
    ensures CS.Returned(stream).batch == [] && CS.Threw(stream).batch == []
  {
  }

  lemma ModelAfter(b: Book, act: Act)
    ensures Booked(b, act).modelSeq == if Applies(act.outcome) then Max(b.modelSeq, act.upto) else b.modelSeq
  {
  }

  lemma OwnAtPosition(s: State, outcome: Outcome)
    requires Core(s) && Positions(s)
    ensures Positions(Next(s, RunOwn(outcome)))
  {
    hide SettleQueue, Sound, Ordered, CallInv, HoldInv, Publish, SomeReady, OwnersAgree;
    SettlesOnly(s);
    ModelAfter(s.book, Act({}, 0, None, outcome));
    assert Publish(s.book, {}, 0, None, outcome) == Ordinary(s.book, {}, 0, outcome) by { NothingOrdinary(s.book, outcome); }
    MovedOn(s, Next(s, RunOwn(outcome)));
  }

  /** The call is over and its hold with it: no position is promised any more. */
  lemma EndedAtPosition(s: State, slot: nat, proposal: nat)
    requires forall k :: k in s.calls ==> k == slot
    requires s.boundary.hold.Some? ==> s.boundary.hold.value.proposal == proposal
    requires s.boundary.unattributed.Some? ==> s.book.modelSeq == s.boundary.unattributed.value.until
    ensures Positions(EndCall(s, slot, proposal))
  {
  }

  lemma EarlierAtPosition(s: State, step: Step)
    requires Core(s) && Positions(s) && step.RunSection? && RunsSection(s) && !RunningCall(s).ready
    ensures Positions(Next(s, step))
  {
    hide SettleQueue, Sound, Ordered, HoldInv, EndCall, Report, Ordinary;
    var slot, w := RunningJob(s).value.slot, RunningCall(s).window;
    assert CallInv(s.boundary, s.book.windows, s.calls[slot]);
    SettlesOnly(s);
    var act := Act(Range(CommittedSeq(s), w.since), w.since, None, step.outcome);
    var s' := s.(book := Ordinary(s.book, act.events, w.since, step.outcome));
    ModelAfter(s.book, act);
    EndedAtPosition(SettleQueue(s, false), slot, w.proposal);
    EndedAtPosition(SettleQueue(s', false), slot, w.proposal);
    NotBehind(s, s', act);
    assert s.host.Contract? ==> s.book.modelSeq <= w.since by { NothingReady(s, slot); }
    if s.book.modelSeq == w.since { ReadyAtPosition(s, slot, w); }
    if s'.book.modelSeq == w.since { ReadyAtPosition(s', slot, w); }
  }

  lemma NothingReady(s: State, slot: nat)
    requires Held(s) && slot in s.calls && s.calls[slot].Committing? && !s.calls[slot].ready
    ensures !SomeReady(s.calls)
  {
  }

  lemma NotBehind(s: State, s': State, act: Act)
    requires Sound(s) && act.owner.None? && s' == s.(book := Booked(s.book, act))
    ensures s.book.treeSeq <= s.book.modelSeq && s'.book.treeSeq <= s'.book.modelSeq
  {
  }

  lemma ReadyAtPosition(s: State, slot: nat, w: B.Uncommitted)
    requires forall k :: k in s.calls ==> k == slot
    requires s.boundary.unattributed.None? && s.book.modelSeq == w.since
    requires s.host.Contract? && s.boundary.hold.Some? ==>
      s.boundary.hold.value.since <= w.since && forall n :: n in s.stream.batch ==> n <= s.boundary.hold.value.since
    ensures Positions(Ready(s, slot, w))
  {
    assert slot in Ready(s, slot, w).calls;
  }

  lemma WindowAtPosition(s: State, step: Step)
    requires Core(s) && Positions(s) && step.RunSection? && RunsSection(s) && RunningCall(s).ready
    ensures Positions(Next(s, step))
  {
    hide SettleQueue, LineInv, BookWhole, StreamFits, Ordered, HoldInv, EndCall, SomeReady;
    var slot, w := RunningJob(s).value.slot, RunningCall(s).window;
    assert CallInv(s.boundary, s.book.windows, s.calls[slot]) && CallFits(s, s.calls[slot]);
    SettlesOnly(s);
    EndedAtPosition(SettleQueue(s, false), slot, w.proposal);
    var s' := s.(book := Publish(s.book, Range(w.since, w.until), w.until, Some(w), step.outcome),
                 boundary := B.AfterPublish(s.boundary, w, Report(step.outcome)));
    var s'' := if B.Succeeded(Report(step.outcome)) then Consume(s', w) else s';
    EndedAtPosition(SettleQueue(s'', step.outcome == Committed), slot, w.proposal);
  }

  lemma RetryAtPosition(s: State, step: Step)
    requires Core(s) && Positions(s) && step.RunRetry? && RunsRetry(s)
    ensures Positions(Next(s, step))
  {
    hide SettleQueue, Sound, Ordered, HoldInv, EndCall;
    var slot, u := RunningJob(s).value.slot, RunningCall(s).window;
    assert CallInv(s.boundary, s.book.windows, s.calls[slot]);
    SettlesOnly(s);
    var s' := s.(book := Publish(s.book, {}, 0, Some(u), step.outcome));
    if step.clean && B.Succeeded(Report(step.outcome)) {
      EndedAtPosition(SettleQueue(Consume(s', u).(boundary := s.boundary.(unattributed := None)), step.outcome == Committed), slot, u.proposal);
    } else {
      MovedOn(s, Next(s, step));
    }
  }

  /** A rejected entry is no call's but its own. */
  ghost predicate RejectsOwn(calls: map<nat, Call>, entries: seq<WQ.Entry<Job>>) {
    forall e :: e in entries && e.job.RetryJob? && e.job.slot in calls ==> !calls[e.job.slot].Committing?
  }

  lemma {:induction false} RejectingAtPosition(s: State, entries: seq<WQ.Entry<Job>>)
    requires Held(s) && Positions(s) && RejectsOwn(s.calls, entries)
    ensures Positions(AllRejected(s, entries))
    decreases |entries|
  {
    hide Held, Positions, Rejected;
    if entries != [] {
      RejectedAtPosition(s, entries);
      RejectedHeld(s, entries[0].job);
      RejectingAtPosition(Rejected(s, entries[0].job), entries[1..]);
    }
  }

  lemma RejectedAtPosition(s: State, entries: seq<WQ.Entry<Job>>)
    requires Held(s) && Positions(s) && entries != [] && RejectsOwn(s.calls, entries)
    ensures Positions(Rejected(s, entries[0].job)) && RejectsOwn(Rejected(s, entries[0].job).calls, entries[1..])
  {
    hide HoldInv, CS.Threw, B.Steer;
    var job, s' := entries[0].job, Rejected(s, entries[0].job);
    HeardBatch(s.stream);
    assert entries[0] in entries;
    SteeredBatch(s);
    if job.RetryJob? { StillReady(s, s'); }
    if job.ProposalJob? && InSection(s, job.slot) { assert CallInv(s.boundary, s.book.windows, s.calls[job.slot]); }
    MovedOn(s, s');
  }

  lemma SteeredBatch(s: State)
    ensures forall c, paused :: B.Steer(s.stream, c, paused).batch == s.stream.batch
  {
  }

  lemma BlockAtPosition(s: State)
    requires Core(s) && Positions(s)
    ensures Positions(Next(s, BlockQueue))
  {
    hide Ordered, Held, History, AllRejected;
    var s' := s.(queue := WQ.Block(s.queue));
    assert Held(s') by { QueueHeld(s, s'); }
    WaitingRejectsOwn(s);
    RejectingAtPosition(s', s.queue.pending);
  }

  lemma WaitingRejectsOwn(s: State)
    requires LineInv(s)
    ensures RejectsOwn(s.calls, s.queue.pending)
  {
    var line := WQ.Line(s.queue);
    forall e | e in s.queue.pending && e.job.RetryJob? ensures e.job.slot in s.calls && s.calls[e.job.slot].Retrying? {
      assert e in line;
      var i :| 0 <= i < |line| && line[i] == e;
      assert Tags(line)[i] in Tags(line) && Tags(line)[i] == Retry(e.job.slot);
    }
  }

  lemma ReleaseAtPosition(s: State)
    requires Core(s) && Positions(s)
    ensures Positions(Release(s))
  {
    hide Sound, Ordered, SubmitJob, CallInv, SomeReady, OwnersAgree;
    SubmitsOnly(s);
    HeardBatch(CS.Fire(s.stream));
  }

  lemma AnsweredAtPosition(s: State, slot: nat, existing: bool, sinceSeq: Option<nat>)
    requires Positions(s) && slot in s.calls && s.calls[slot].Asked?
    ensures Positions(Proceed(s, slot, s.calls[slot].proposal, existing, sinceSeq))
  {
    hide Positions, SubmitJob, SomeReady, B.Steer, HasLanded;
    var s' := Proceed(s, slot, s.calls[slot].proposal, existing, sinceSeq);
    SubmitsOnly(s);
    SteeredBatch(s);
    StillReady(s, s');
    MovedOn(s, s');
  }

  lemma SubmittedAtPosition(s: State, step: Step)
    requires Core(s) && Positions(s) && step.SubmitWindow? && Allowed(s, step) && StartsWell(s, step)
    ensures Positions(Next(s, step))
  {
    hide Sound, Ordered, HoldInv, SubmitJob, OwnersAgree, B.Steer;
    SubmitsOnly(s);
    SteeredBatch(s);
    MovedOn(s, Next(s, step));
  }

  lemma CallAtPosition(s: State, step: Step)
    requires Core(s) && Positions(s) && (step.EnterCommit? || step.GiveUpWaiting? || step.SubmitOwn? || step.UnblockQueue?)
    ensures Positions(Next(s, step))
  {
    hide Sound, Ordered, HoldInv, SubmitJob, OwnersAgree, CallInv, WQ.Unblock, HeldBack;
    SubmitsOnly(s);
    StillReady(s, Next(s, step));
    MovedOn(s, Next(s, step));
  }

  /** A hold begins at the head, past everything the model and the stream's batch hold. */
  lemma BeginAtPosition(s: State, step: Step)
    requires Core(s) && Positions(s) && step.BeginProposal?
    ensures Positions(Next(s, step))
  {
    hide LineInv, BookWhole, CS.Gapless, CallsFit, Ordered, HoldInv, OwnersAgree, SomeReady, B.Steer;
    SteeredBatch(s);
  }

  lemma QuietAtPosition(s: State, step: Step)
    requires Core(s) && Positions(s) && IsQuiet(step) && !step.BeginProposal?
    ensures Positions(Next(s, step))
  {
    hide Sound, Ordered, HoldInv, OwnersAgree, CallInv, B.Steer, B.BeginPauses, B.BeginReads;
    QuietKeepsLine(s, step);
    StillReady(s, Next(s, step));
    MovedOn(s, Next(s, step));
  }

  lemma {:induction false} StepKeepsPositions(s: State, step: Step)
    requires Core(s) && Positions(s) && Allowed(s, step) && StartsWell(s, step)
    ensures Positions(Next(s, step))
  {
    hide Core, Positions, Allowed, StartsWell, WQ.Block, WQ.Unblock, WQ.Settle, AllRejected, FinishApply, FinishOwn, RunningSection, FinishRetry, Release, Proceed, EnterSection, SubmitJob;
    match step
    case TimerFires => if s.stream.armed { ReleaseAtPosition(s); }
    case RunApply(outcome) => if RunningJob(s).Some? && RunningJob(s).value.ApplyJob? { BatchAtPosition(s, outcome); }
    case RunOwn(outcome) => OwnAtPosition(s, outcome);
    case RunSection(_, _) =>
      if RunsSection(s) { if RunningCall(s).ready { WindowAtPosition(s, step); } else { EarlierAtPosition(s, step); } }
    case RunRetry(_, _) => if RunsRetry(s) { RetryAtPosition(s, step); }
    case BlockQueue => BlockAtPosition(s);
    case BeginProposal(_, _) => BeginAtPosition(s, step);
    case Answered(slot, existing, sinceSeq) => if slot in s.calls && s.calls[slot].Asked? { AnsweredAtPosition(s, slot, existing, sinceSeq); }
    case SubmitWindow(_, _, _) => SubmittedAtPosition(s, step);
    case SubmitOwn(_, _) => CallAtPosition(s, step);
    case UnblockQueue => CallAtPosition(s, step);
    case EnterCommit(_, _) => CallAtPosition(s, step);
    case GiveUpWaiting(_) => CallAtPosition(s, step);
    case _ => QuietAtPosition(s, step);
  }

  lemma StartsPrefix(s: State, steps: seq<Step>)
    requires WellStartedRun(s, steps) && steps != []
    ensures WellStartedRun(s, steps[..|steps|-1]) && StartsWell(Run(s, steps[..|steps|-1]), steps[|steps|-1])
  {
    hide Run, StartsWell;
    var init := steps[..|steps|-1];
    forall i | 0 <= i < |init| ensures StartsWell(Run(s, init[..i]), init[i]) { assert init[..i] == steps[..i]; }
  }

  lemma {:induction false} RunKeepsPositions(host: Host, steps: seq<Step>)
    requires AllowedRun(Init(host), steps) && WellStartedRun(Init(host), steps)
    ensures Core(Run(Init(host), steps)) && Positions(Run(Init(host), steps))
    decreases |steps|
  {
    hide Core, Next, Allowed, StartsWell, Positions;
    RunKeepsCore(host, steps);
    if steps == [] { PositionsAtStart(host); } else {
      AllowedPrefix(Init(host), steps);
      StartsPrefix(Init(host), steps);
      RunKeepsPositions(host, steps[..|steps|-1]);
      StepKeepsPositions(Run(Init(host), steps[..|steps|-1]), steps[|steps|-1]);
    }
  }

  lemma PositionsAtStart(host: Host)
    ensures Positions(Init(host))
  {
  }

  /** The tree is at the window's start at a step that commits one. */
  predicate TreeAtStart(s: State, step: Step) {
    Landing(s, step).Some? ==> s.book.treeSeq == Landing(s, step).value.since
  }

  /** In allowed runs the model is where the guard wants it. */
  lemma OnlyTheTree(s: State, step: Step)
    requires Core(s) && Positions(s)
    ensures MakesExact(s, step) <==> TreeAtStart(s, step)
  {
    hide LineInv, BookWhole, StreamFits, Ordered, HoldInv, HeldBack, OwnersAgree;
    if Landing(s, step).Some? {
      LandingIsTheCalls(s, step);
      var c := RunningCall(s);
      assert CallInv(s.boundary, s.book.windows, c) && CallFits(s, c);
    }
  }

  /**
   * Over whole allowed runs, for either host - with the contract's, of callers who start no
   * earlier than the hold - the commits in contributors' names, sections' and retries' alike,
   * are exact if and only if each finds the tree at its window's start.
   */
  lemma TreeDecides(host: Host, steps: seq<Step>)
    requires AllowedRun(Init(host), steps) && WellStartedRun(Init(host), steps)
    ensures AllExact(Run(Init(host), steps).book) <==> forall i :: 0 <= i < |steps| ==> TreeAtStart(Run(Init(host), steps[..i]), steps[i])
  {
    hide Run, Core, Positions, MakesExact, TreeAtStart, AllExact, AllowedRun, WellStartedRun;
    forall i | 0 <= i < |steps|
      ensures MakesExact(Run(Init(host), steps[..i]), steps[i]) <==> TreeAtStart(Run(Init(host), steps[..i]), steps[i])
    {
      PrefixKeepsPositions(host, steps, i);
      OnlyTheTree(Run(Init(host), steps[..i]), steps[i]);
    }
    SegmentsExactly(host, steps);
  }

  /**
   * The daemon's own host answers `model.seq`, which runs ahead of the tree after a failed
   * generation: the tree's place is then all that decides.
   */
  lemma MainLoopExactly(steps: seq<Step>)
    requires AllowedRun(Init(MainLoop), steps)
    ensures AllExact(Run(Init(MainLoop), steps).book) <==> forall i :: 0 <= i < |steps| ==> TreeAtStart(Run(Init(MainLoop), steps[..i]), steps[i])
  {
    hide Run, TreeAtStart, AllExact, StartsAtHold, AllowedRun;
    forall i | 0 <= i < |steps| ensures StartsWell(Run(Init(MainLoop), steps[..i]), steps[i]) { RunsOnItsHost(MainLoop, steps[..i]); }
    TreeDecides(MainLoop, steps);
  }

  lemma PrefixKeepsPositions(host: Host, steps: seq<Step>, i: nat)
    requires AllowedRun(Init(host), steps) && WellStartedRun(Init(host), steps) && i <= |steps|
    ensures var s := Run(Init(host), steps[..i]); Core(s) && Positions(s) && s.host == host
  {
    hide Run, Core, Positions, Allowed, StartsWell;
    var init := steps[..i];
    forall j | 0 <= j < |init| ensures Allowed(Run(Init(host), init[..j]), init[j]) && StartsWell(Run(Init(host), init[..j]), init[j]) {
      assert init[..j] == steps[..j];
    }
    RunKeepsPositions(host, init);
    RunsOnItsHost(host, init);
  }

  lemma {:induction false} RunsOnItsHost(host: Host, steps: seq<Step>)
    ensures Run(Init(host), steps).host == host
    decreases |steps|
  {
    hide Next;
    if steps != [] {
      RunsOnItsHost(host, steps[..|steps|-1]);
      HostStays(Run(Init(host), steps[..|steps|-1]), steps[|steps|-1]);
    }
  }

  // ---------------------------------------------------------------------------
  // A host that answers for the tree
  // ---------------------------------------------------------------------------

  /** No rebuild for a changed generator or foreign source while a proposal is applied but uncommitted. */
  predicate Undisturbed(s: State, step: Step) {
    step.RunOwn? && RunningJob(s).Some? && RunningJob(s).value == OwnJob(ForeignRebuild) ==> s.boundary.unattributed.None?
  }

  predicate UndisturbedRun(s: State, steps: seq<Step>) {
    forall i :: 0 <= i < |steps| ==> Undisturbed(Run(s, steps[..i]), steps[i])
  }

  /** The tree of an uncommitted proposal is where its section found it, until a commit of it is made. */
  ghost predicate TreeWaits(s: State) {
    s.boundary.unattributed.Some? ==>
      s.book.treeSeq == s.boundary.unattributed.value.since || s.boundary.unattributed.value in s.book.windows
  }

  /** A publish that leaves the tree as it is, or a retry's: it ends the wait, or makes the commit. */
  lemma PublishWaits(s: State, step: Step, u: B.Uncommitted)
    requires Core(s) && s.boundary.unattributed == Some(u) && Undisturbed(s, step)
    ensures ActOf(s, step).Some? && Rebuilds(ActOf(s, step).value.outcome) ==>
      Next(s, step).boundary.unattributed.None? || Landing(s, step) == Some(u)
  {
    hide Sound, Ordered, HoldInv, SettleQueue, Publish, Ordinary, B.Steer, Unconsumed;
    OnlyRetryRuns(s, step, u);
    SettlesOnly(s);
    if step.RunRetry? && RunsRetry(s) { assert CallInv(s.boundary, s.book.windows, RunningCall(s)); }
  }

  /** With a proposal uncommitted only its retry, or a task of the daemon's own, can publish. */
  lemma OnlyRetryRuns(s: State, step: Step, u: B.Uncommitted)
    requires Core(s) && s.boundary.unattributed == Some(u)
    ensures !RunsSection(s) && !(RunningJob(s).Some? && RunningJob(s).value.ApplyJob?)
  {
    hide History, LineFits, EntriesFit, HoldInv, Ordered;
    NothingBrought(s, RunOwn(Unchanged));
    if RunningJob(s).Some? { RunningIsWanted(s); }
  }

  /** A window that is left uncommitted leaves the tree at its start, when the host answers for the tree. */
  lemma LeftWaits(s: State, step: Step)
    requires Sound(s) && s.host == Contract && Leaves(s, step).Some?
    ensures Next(s, step).book.treeSeq == Leaves(s, step).value.since
  {
    hide LineInv, BookWhole, StreamFits, SettleQueue, B.Steer, B.Finish;
    assert CallFits(s, RunningCall(s));
    SettlesOnly(s);
  }

  lemma StillWaits(s: State, step: Step)
    requires Core(s) && s.host == Contract && TreeWaits(s) && Undisturbed(s, step)
    ensures TreeWaits(Next(s, step))
  {
    hide Sound, Ordered, Held, Next, ActOf, Landing, Leaves, Claims, Undisturbed;
    StepBooks(s, step);
    StepRecords(s, step);
    HeldClaims(s);
    var s' := Next(s, step);
    if s'.boundary.unattributed.Some? {
      var u := s'.boundary.unattributed.value;
      assert Claims(s', u) by { IsClaimed(s', u); }
      if s.boundary.unattributed == Some(u) {
        PublishWaits(s, step, u);
        WindowsStay(s.book.windows, Landing(s, step), u);
        TreeStays(s, step);
      } else {
        LeftWaits(s, step);
      }
    }
  }

  lemma IsClaimed(s: State, u: B.Uncommitted)
    requires s.boundary.unattributed == Some(u)
    ensures Claims(s, u)
  {
  }

  lemma WindowsStay(windows: seq<B.Uncommitted>, landed: Option<B.Uncommitted>, u: B.Uncommitted)
    ensures u in windows || landed == Some(u) ==> u in WithLanding(windows, landed)
  {
  }

  /** Only a rebuild moves the tree. */
  lemma TreeStays(s: State, step: Step)
    ensures ActOf(s, step).None? || !Rebuilds(ActOf(s, step).value.outcome) ==> Next(s, step).book.treeSeq == s.book.treeSeq
  {
    hide ActOf, Next;
    StepBooks(s, step);
  }

  lemma HeldClaims(s: State)
    requires Held(s)
    ensures forall u :: Claims(s, u) ==> s.boundary.unattributed == Some(u)
  {
    hide HoldInv, OwnersAgree;
    forall k | k in s.calls && s.calls[k].Retrying? ensures s.boundary.unattributed == Some(s.calls[k].window) {
      assert CallInv(s.boundary, s.book.windows, s.calls[k]);
    }
  }

  lemma {:induction false} AlwaysWaits(steps: seq<Step>, i: nat)
    requires AllowedRun(Init(Contract), steps) && UndisturbedRun(Init(Contract), steps) && i <= |steps|
    ensures TreeWaits(Run(Init(Contract), steps[..i]))
    decreases i
  {
    hide Next, Core, TreeWaits, Undisturbed, AllowedRun;
    if i == 0 { NothingWaits(); } else {
      AlwaysWaits(steps, i - 1);
      assert steps[..i][..i-1] == steps[..i-1] && steps[..i][i-1] == steps[i-1];
      AllowedUpTo(Contract, steps, i - 1);
      RunKeepsCore(Contract, steps[..i-1]);
      RunsOnItsHost(Contract, steps[..i-1]);
      StillWaits(Run(Init(Contract), steps[..i-1]), steps[i-1]);
    }
  }

  lemma NothingWaits()
    ensures TreeWaits(Init(Contract))
  {
  }

  lemma WaitingIsAtStart(s: State, step: Step)
    requires Core(s) && s.host == Contract && TreeWaits(s)
    ensures TreeAtStart(s, step)
  {
    hide LineInv, BookWhole, StreamFits, Ordered, HoldInv, OwnersAgree;
    if Landing(s, step).Some? {
      LandingIsTheCalls(s, step);
      assert CallInv(s.boundary, s.book.windows, RunningCall(s)) && CallFits(s, RunningCall(s));
    }
  }

  /**
   * Exact segments over whole allowed runs, for a host that answers `committedSeq` as the
   * interface documents, callers who start no earlier than the hold, and no foreign rebuild
   * while a proposal is uncommitted: every commit under a contributor's name, through its own
   * section or through a retry, carries its window and nothing else.
   */
  lemma ExactSegments(steps: seq<Step>)
    requires AllowedRun(Init(Contract), steps) && WellStartedRun(Init(Contract), steps) && UndisturbedRun(Init(Contract), steps)
    ensures AllExact(Run(Init(Contract), steps).book)
  {
    hide Run, Core, TreeWaits, TreeAtStart, AllExact, AllowedRun, WellStartedRun, UndisturbedRun;
    forall i | 0 <= i < |steps| ensures TreeAtStart(Run(Init(Contract), steps[..i]), steps[i]) {
      AlwaysWaits(steps, i);
      AllowedUpTo(Contract, steps, i);
      RunKeepsCore(Contract, steps[..i]);
      RunsOnItsHost(Contract, steps[..i]);
      WaitingIsAtStart(Run(Init(Contract), steps[..i]), steps[i]);
    }
    TreeDecides(Contract, steps);
  }
}
