/**
 * What every allowed run of the live loop keeps, for either host: the stream is held while it
 * must be, a batch is never behind a section, and a call in a section owns the boundary.
 */
module LoopSafety {
  import opened Prelude
  import opened LiveLoop
  import opened LoopLine
  import opened LoopHistory
  import opened LoopRecord
  import WQ = WorkQueue
  import CS = ChangeStream
  import B = Boundary

  /** A batch on the line when a section was submitted was there first. */
  ghost predicate Ordered(tags: seq<Tag>) {
    forall i, j :: 0 <= i < |tags| && 0 <= j < |tags| && tags[i] == Batch && tags[j].Section? ==> i < j
  }

  /** The stream is held exactly when there is a hold or an uncommitted proposal, or the operator paused it. */
  ghost predicate HoldInv(s: State) { s.stream.paused <==> s.operatorPaused || B.Holding(s.boundary) }

  /** A hold beside an uncommitted proposal is that proposal's. */
  predicate OwnersAgree(b: B.State) { b.hold.Some? && b.unattributed.Some? ==> b.hold.value.proposal == b.unattributed.value.proposal }

  ghost predicate CallInv(b: B.State, windows: seq<B.Uncommitted>, c: Call) {
    match c
    case Asked(p) => b.unattributed.Some? ==> b.unattributed.value.proposal == p
    case Waiting(_, _) => b.unattributed.None?
    case Committing(w, _) => b.unattributed.None? && b.hold.Some? && b.hold.value.proposal == w.proposal
    case Retrying(u) => b.unattributed == Some(u) && u !in windows
  }

  ghost predicate Held(s: State) {
    && s.begins == [] && HoldInv(s) && OwnersAgree(s.boundary)
    && (forall j, k :: j in s.calls && k in s.calls ==> j == k)
    && (forall k :: k in s.calls ==> CallInv(s.boundary, s.book.windows, s.calls[k]))
    // While a proposal is applied but uncommitted no ordinary batch is out.
    && (s.boundary.unattributed.Some? ==> !s.stream.draining)
  }

  ghost predicate Core(s: State) { Sound(s) && Ordered(Tags(WQ.Line(s.queue))) && Held(s) }

  // ---------------------------------------------------------------------------
  // The order of the line
  // ---------------------------------------------------------------------------

  lemma SettleOrdered(q: WQ.Queue<Job>, ok: bool)
    requires WQ.Inv(q) && q.running.Some? && Ordered(Tags(WQ.Line(q)))
    ensures Ordered(Tags(WQ.Line(WQ.Settle(q, ok))))
  {
    hide WQ.Settle;
    WQ.SettleKeepsLine(q, ok);
    assert Tags(WQ.Line(q)[1..]) == Tags(WQ.Line(q))[1..];
  }

  /** A newcomer goes to the end; a batch may not come behind a section. */
  lemma SubmitOrdered(s: State, kind: WQ.Kind, job: Job)
    requires LineInv(s) && KindFits(WQ.Entry(s.nextId, kind, job)) && Ordered(Tags(WQ.Line(s.queue)))
    requires TagOf(job) == Own || !Wanted(TagOf(job), s.stream.draining, s.calls)
    requires job.ApplyJob? ==> forall k :: k in s.calls ==> !s.calls[k].Committing?
    ensures Ordered(Tags(WQ.Line(SubmitJob(s, kind, job).0.queue)))
  {
    hide WQ.Submit;
    var e := WQ.Entry(s.nextId, kind, job);
    NotTaken(s, kind, job);
    WQ.SubmitKeepsLine(s.queue, e, AbsorbJob);
    TagsAppend(WQ.Line(s.queue), e);
    if job.ApplyJob? { NoSectionOnLine(s); }
  }

  lemma NoSectionOnLine(s: State)
    requires LineInv(s) && forall k :: k in s.calls ==> !s.calls[k].Committing?
    ensures forall i :: 0 <= i < |WQ.Line(s.queue)| ==> !Tags(WQ.Line(s.queue))[i].Section?
  {
    var tags := Tags(WQ.Line(s.queue));
    forall i | 0 <= i < |tags| ensures !tags[i].Section? { assert tags[i] in tags; }
  }

  /** With a section at the front no batch is on the line: first come, first served. */
  lemma RunningSectionIsAlone(s: State)
    requires LineInv(s) && Ordered(Tags(WQ.Line(s.queue))) && RunningJob(s).Some? && RunningJob(s).value.ProposalJob?
    ensures !s.stream.draining
  {
    var line := WQ.Line(s.queue);
    assert line[0] == s.queue.running.value && Tags(line)[0].Section?;
    assert Batch !in Tags(line);
  }

  lemma TaskOrdered(s: State, step: Step)
    requires LineInv(s) && Ordered(Tags(WQ.Line(s.queue)))
    requires step.RunApply? || step.RunOwn? || step.RunSection? || step.RunRetry?
    ensures Ordered(Tags(WQ.Line(Next(s, step).queue)))
  {
    hide WQ.Settle, Ordered, LineFits, EntriesFit, Publish, Report, B.Steer, B.Finish, Ordinary, CS.Returned, CS.Threw;
    if s.queue.running.Some? { SettleOrdered(s.queue, true); SettleOrdered(s.queue, false); }
  }

  lemma SubmissionOrdered(s: State, step: Step)
    requires LineInv(s) && Ordered(Tags(WQ.Line(s.queue))) && Held(s)
    requires step.TimerFires? || step.SubmitOwn? || step.Answered? || step.SubmitWindow?
    ensures Ordered(Tags(WQ.Line(Next(s, step).queue)))
  {
    hide SubmitJob, Ordered, LineInv, HasLanded, B.Steer, B.Finish;
    match step
    case TimerFires => ReleaseOrdered(s);
    case SubmitOwn(kind, work) => if !kind.Apply? && !kind.Proposal? { SubmitOrdered(s, kind, OwnJob(work)); }
    case Answered(slot, _, _) => if slot in s.calls && s.calls[slot].Asked? { SubmitOrdered(s, WQ.Proposal, RetryJob(slot)); }
    case SubmitWindow(slot, _, _) => if slot in s.calls && s.calls[slot].Waiting? { SubmitOrdered(s, WQ.Proposal, ProposalJob(slot)); }
  }

  lemma ReleaseOrdered(s: State)
    requires LineInv(s) && Ordered(Tags(WQ.Line(s.queue))) && Held(s)
    ensures Ordered(Tags(WQ.Line(Release(s).queue)))
  {
    hide WQ.Submit, Ordered, LineInv;
    var job := ApplyJob(CS.Fire(s.stream).batch);
    if !s.stream.draining && CS.Fire(s.stream).draining {
      assert !s.stream.paused;
      SubmitOrdered(s, WQ.Apply, job);
      assert SubmitJob(s.(stream := CS.Fire(s.stream)), WQ.Apply, job).0.queue == SubmitJob(s, WQ.Apply, job).0.queue;
    }
  }

  lemma BlockOrdered(s: State)
    ensures Ordered(Tags(WQ.Line(Next(s, BlockQueue).queue)))
  {
    RejectingKeepsQueue(s.(queue := WQ.Block(s.queue)), s.queue.pending);
  }

  lemma {:induction false} RejectingKeepsQueue(s: State, entries: seq<WQ.Entry<Job>>)
    ensures AllRejected(s, entries).queue == s.queue
    decreases |entries|
  {
    if entries != [] { RejectingKeepsQueue(Rejected(s, entries[0].job), entries[1..]); }
  }

  lemma StepOrdered(s: State, step: Step)
    requires LineInv(s) && Ordered(Tags(WQ.Line(s.queue))) && Held(s)
    ensures Ordered(Tags(WQ.Line(Next(s, step).queue)))
  {
    hide LineFits, EntriesFit, ReadyRuns, Ordered, Held, WQ.Unblock, WQ.Settle, AllRejected, FinishApply, FinishOwn, RunningSection, FinishRetry, Release, Proceed, EnterSection, SubmitJob;
    if step.RunApply? || step.RunOwn? || step.RunSection? || step.RunRetry? { TaskOrdered(s, step); }
    if step.TimerFires? || step.SubmitOwn? || step.Answered? || step.SubmitWindow? { SubmissionOrdered(s, step); }
    if step.BlockQueue? { BlockOrdered(s); }
    if step.UnblockQueue? {
      WQ.UnblockKeepsLine(s.queue);
      assert WQ.Line(WQ.Unblock(s.queue)) == WQ.Line(s.queue);
    }
    if IsQuiet(step) { QuietKeepsLine(s, step); }
  }

  // ---------------------------------------------------------------------------
  // The hold
  // ---------------------------------------------------------------------------

  /** The only call is over; `finish` restores the hold invariant. */
  lemma EndedHeld(s: State, slot: nat, proposal: nat)
    requires s.begins == [] && OwnersAgree(s.boundary) && (s.operatorPaused || B.Holding(s.boundary) ==> s.stream.paused)
    requires s.boundary.unattributed.Some? ==> !s.stream.draining
    requires forall k :: k in s.calls ==> k == slot
    ensures Held(EndCall(s, slot, proposal))
  {
  }

  /** A batch is over, or the daemon's own task. */
  lemma TaskHeld(s: State, step: Step)
    requires Held(s) && (step.RunApply? || step.RunOwn?)
    ensures Held(Next(s, step))
  {
    hide WQ.Settle, CallInv, B.Holding, OwnersAgree, Unconsumed, Elems, CS.Returned, CS.Threw;
    HeardFields(s.stream);
  }

  lemma HeardFields(stream: CS.Stream)
    ensures CS.Returned(stream).paused == stream.paused && !CS.Returned(stream).draining
    ensures CS.Threw(stream).paused == stream.paused && !CS.Threw(stream).draining
  {
  }

  lemma EarlierHeld(s: State, step: Step)
    requires Held(s) && step.RunSection? && RunsSection(s) && !RunningCall(s).ready
    ensures Held(Next(s, step))
  {
    hide SettleQueue, EndCall, B.Holding, Report, OwnersAgree, Ordinary;
    var slot, w := RunningJob(s).value.slot, RunningCall(s).window;
    SettlesOnly(s);
    var events := Range(CommittedSeq(s), w.since);
    OrdinaryMakesNoWindow(s.book, events, w.since, step.outcome);
    EndedHeld(SettleQueue(s, false), slot, w.proposal);
    EndedHeld(SettleQueue(s.(book := Ordinary(s.book, events, w.since, step.outcome)), false), slot, w.proposal);
  }

  lemma WindowHeld(s: State, step: Step)
    requires Held(s) && step.RunSection? && RunsSection(s) && RunningCall(s).ready && !s.stream.draining
    ensures Held(Next(s, step))
  {
    hide SettleQueue, EndCall, B.Finish, Publish;
    var slot, w := RunningJob(s).value.slot, RunningCall(s).window;
    SettlesOnly(s);
    EndedHeld(SettleQueue(s, false), slot, w.proposal);
    var s' := s.(book := Publish(s.book, Range(w.since, w.until), w.until, Some(w), step.outcome),
                 boundary := B.AfterPublish(s.boundary, w, Report(step.outcome)));
    var s'' := if B.Succeeded(Report(step.outcome)) then Consume(s', w) else s';
    EndedHeld(SettleQueue(s'', step.outcome == Committed), slot, w.proposal);
  }

  lemma RetryHeld(s: State, step: Step)
    requires Held(s) && step.RunRetry? && RunsRetry(s)
    ensures Held(Next(s, step))
  {
    hide SettleQueue, EndCall, B.Finish, Publish;
    var slot, u := RunningJob(s).value.slot, RunningCall(s).window;
    SettlesOnly(s);
    var s' := s.(book := Publish(s.book, {}, 0, Some(u), step.outcome));
    EndedHeld(SettleQueue(Consume(s', u).(boundary := s.boundary.(unattributed := None)), step.outcome == Committed), slot, u.proposal);
  }

  lemma ReleaseHeld(s: State)
    requires Held(s)
    ensures Held(Release(s))
  {
    hide SubmitJob, CallInv, OwnersAgree;
    SubmitsOnly(s);
  }

  lemma {:induction false} RejectingHeld(s: State, entries: seq<WQ.Entry<Job>>)
    requires Held(s)
    ensures Held(AllRejected(s, entries))
    decreases |entries|
  {
    if entries != [] {
      RejectedHeld(s, entries[0].job);
      RejectingHeld(Rejected(s, entries[0].job), entries[1..]);
    }
  }

  lemma RejectedHeld(s: State, job: Job)
    requires Held(s)
    ensures Held(Rejected(s, job))
  {
    hide EndCall, CallInv, CS.Threw;
    HeardFields(s.stream);
    if job.ProposalJob? && InSection(s, job.slot) { EndedHeld(s, job.slot, s.calls[job.slot].window.proposal); }
  }

  lemma AnsweredHeld(s: State, slot: nat, existing: bool, sinceSeq: Option<nat>)
    requires Held(s) && slot in s.calls && s.calls[slot].Asked?
    ensures Held(Proceed(s, slot, s.calls[slot].proposal, existing, sinceSeq))
  {
    hide EndCall, SubmitJob, B.Holding;
    EndedHeld(s, slot, s.calls[slot].proposal);
    SubmitsOnly(s);
  }

  lemma SectionHeld(s: State, slot: nat, w: B.Uncommitted, isolated: bool)
    requires Held(s) && slot in s.calls && s.calls[slot].Waiting?
    requires isolated ==> s.boundary.hold.Some? && s.boundary.hold.value.proposal == w.proposal
    ensures Held(EnterSection(s, slot, w, isolated))
  {
    hide EndCall, SubmitJob, B.Holding;
    SubmitsOnly(s);
    EndedHeld(s, slot, w.proposal);
    EndedHeld(SubmitJob(s, WQ.Proposal, ProposalJob(slot)).0, slot, w.proposal);
  }

  /** Begin, abort, expiry: what is allowed of them. */
  lemma BoundaryHeld(s: State, step: Step)
    requires Held(s) && Allowed(s, step) && (step.BeginProposal? || step.AbortProposal? || step.HoldExpires?)
    ensures Held(Next(s, step))
  {
  }

  lemma PlainHeld(s: State, step: Step)
    requires Held(s) && Allowed(s, step) && IsQuiet(step) && !step.BeginProposal? && !step.AbortProposal? && !step.HoldExpires?
    ensures Held(Next(s, step))
  {
    hide CallInv, OwnersAgree, B.BeginReads, B.BeginPauses;
  }

  lemma {:induction false} StepHeld(s: State, step: Step)
    requires Core(s) && Allowed(s, step)
    ensures Held(Next(s, step))
  {
    hide Sound, Ordered, Held, CallInv, HoldInv, Allowed, WQ.Block, WQ.Unblock, WQ.Settle, AllRejected, FinishApply, FinishOwn, RunningSection, FinishRetry, Release, Proceed, EnterSection, SubmitJob;
    match step
    case TimerFires => if s.stream.armed { ReleaseHeld(s); }
    case RunApply(_) => TaskHeld(s, step);
    case RunOwn(_) => TaskHeld(s, step);
    case RunSection(_, _) =>
      if RunsSection(s) {
        if RunningCall(s).ready { SectionAlone(s); WindowHeld(s, step); } else { EarlierHeld(s, step); }
      }
    case RunRetry(_, _) => if RunsRetry(s) { RetryHeld(s, step); }
    case SubmitOwn(_, _) => SubmitsOnly(s); QueueHeld(s, Next(s, step));
    case UnblockQueue => QueueHeld(s, Next(s, step));
    case BlockQueue =>
      QueueHeld(s, s.(queue := WQ.Block(s.queue)));
      RejectingHeld(s.(queue := WQ.Block(s.queue)), s.queue.pending);
    case EnterCommit(slot, proposal) => EnteredHeld(s, slot, proposal);
    case Answered(slot, existing, sinceSeq) => if slot in s.calls && s.calls[slot].Asked? { AnsweredHeld(s, slot, existing, sinceSeq); }
    case SubmitWindow(slot, until, isolated) => WindowSubmittedHeld(s, slot, until, isolated);
    case GiveUpWaiting(slot) => OverHeld(s, slot);
    case BeginProposal(_, _) => BoundaryHeld(s, step);
    case AbortProposal(_) => BoundaryHeld(s, step);
    case HoldExpires => BoundaryHeld(s, step);
    case _ => PlainHeld(s, step);
  }

  lemma SectionAlone(s: State)
    requires Core(s) && RunsSection(s)
    ensures !s.stream.draining
  {
    hide LineInv, History, Held, Ordered;
    RunningSectionIsAlone(s);
  }

  lemma QueueHeld(s: State, s': State)
    requires Held(s) && s' == s.(queue := s'.queue, nextId := s'.nextId)
    ensures Held(s')
  {
  }

  lemma OverHeld(s: State, slot: nat)
    requires Held(s)
    ensures Held(Over(s, slot))
  {
  }

  lemma EnteredHeld(s: State, slot: nat, proposal: nat)
    requires Held(s) && Allowed(s, EnterCommit(slot, proposal))
    ensures Held(Next(s, EnterCommit(slot, proposal)))
  {
  }

  lemma WindowSubmittedHeld(s: State, slot: nat, until: nat, isolated: bool)
    requires Held(s) && Allowed(s, SubmitWindow(slot, until, isolated))
    ensures Held(Next(s, SubmitWindow(slot, until, isolated)))
  {
    hide Held, EnterSection;
    if slot in s.calls && s.calls[slot].Waiting? && s.calls[slot].since < until <= s.head {
      SectionHeld(s, slot, B.Uncommitted(s.calls[slot].proposal, s.calls[slot].since, until), isolated);
    }
  }

  lemma {:induction false} StepKeepsCore(s: State, step: Step)
    requires Core(s) && Allowed(s, step)
    ensures Core(Next(s, step))
  {
    hide LineInv, History, Ordered, Held, Allowed, Next;
    StepKeepsHistory(s, step);
    StepOrdered(s, step);
    StepHeld(s, step);
  }

  // ---------------------------------------------------------------------------
  // Whole runs
  // ---------------------------------------------------------------------------

  lemma AllowedPrefix(s: State, steps: seq<Step>)
    requires AllowedRun(s, steps) && steps != []
    ensures AllowedRun(s, steps[..|steps|-1]) && Allowed(Run(s, steps[..|steps|-1]), steps[|steps|-1])
  {
    hide Run, Allowed;
    var init := steps[..|steps|-1];
    forall i | 0 <= i < |init| ensures Allowed(Run(s, init[..i]), init[i]) { assert init[..i] == steps[..i]; }
  }

  lemma AllowedUpTo(host: Host, steps: seq<Step>, i: nat)
    requires AllowedRun(Init(host), steps) && i <= |steps|
    ensures AllowedRun(Init(host), steps[..i])
  {
    hide Run, Allowed;
    assert forall j :: 0 <= j < i ==> steps[..i][..j] == steps[..j];
  }

  /** The core, the hold invariant in it, holds in every state of every allowed run, for either host. */
  lemma {:induction false} RunKeepsCore(host: Host, steps: seq<Step>)
    requires AllowedRun(Init(host), steps)
    ensures Core(Run(Init(host), steps))
    decreases |steps|
  {
    hide Core, Next, Allowed;
    if steps == [] { CoreAtStart(host); } else {
      AllowedPrefix(Init(host), steps);
      RunKeepsCore(host, steps[..|steps|-1]);
      StepKeepsCore(Run(Init(host), steps[..|steps|-1]), steps[|steps|-1]);
    }
  }

  lemma CoreAtStart(host: Host)
    ensures Core(Init(host))
  {
    SoundAtStart(host);
  }

  // ---------------------------------------------------------------------------
  // The hold outlives a failed generation
  // ---------------------------------------------------------------------------

  /** What ends the time a proposal is applied but uncommitted: a retry that rebuilt, or giving it up. */
  predicate Resolves(s: State, step: Step, u: B.Uncommitted) {
    || step == AbortProposal(u.proposal)
    || (step.RunRetry? && step.clean && B.Succeeded(Report(step.outcome)) && RunsRetry(s))
  }

  predicate Unresolved(s: State, steps: seq<Step>, u: B.Uncommitted) {
    forall i :: 0 <= i < |steps| ==> !Resolves(Run(s, steps[..i]), steps[i], u)
  }

  /** With a proposal uncommitted, neither a batch nor the ordinary part of a section can run. */
  lemma NothingBrought(s: State, step: Step)
    requires Core(s) && s.boundary.unattributed.Some?
    ensures Brings(s, step) == {} && !RunsSection(s)
  {
    hide WQ.Inv, EntriesFit, History, HoldInv, Ordered, Unconsumed;
    if RunningJob(s).Some? { RunningIsWanted(s); }
  }

  lemma StillUncommitted(s: State, step: Step, u: B.Uncommitted)
    requires Held(s) && !RunsSection(s) && s.boundary.unattributed == Some(u) && !Resolves(s, step, u)
    ensures Next(s, step).boundary.unattributed == Some(u)
  {
    hide SubmitJob, SettleQueue, AllRejected, WQ.Unblock, Publish, Ordinary, CS.Returned, CS.Threw;
    SubmitsOnly(s);
    SettlesOnly(s);
    if step.BlockQueue? { RejectingIdles(s.(queue := WQ.Block(s.queue)), s.queue.pending); }
  }

  /**
   * A publish that failed after applying keeps the stream held, and keeps ordinary tasks from
   * applying anything at all, until a retry succeeds or the proposal is given up.
   */
  lemma {:induction false} HeldUntilResolved(s: State, steps: seq<Step>, u: B.Uncommitted)
    requires Core(s) && s.boundary.unattributed == Some(u) && AllowedRun(s, steps) && Unresolved(s, steps, u)
    ensures var s' := Run(s, steps);
      Core(s') && s'.boundary.unattributed == Some(u) && s'.stream.paused && s'.book.ordinary == s.book.ordinary
    decreases |steps|
  {
    hide Sound, Ordered, CallInv, Allowed, Next, Resolves, Brings, RunsSection;
    if steps != [] {
      var k := |steps| - 1;
      AllowedPrefix(s, steps);
      forall i | 0 <= i < k ensures !Resolves(Run(s, steps[..k][..i]), steps[..k][i], u) { assert steps[..k][..i] == steps[..i]; }
      HeldUntilResolved(s, steps[..k], u);
      var before := Run(s, steps[..k]);
      StepKeepsCore(before, steps[k]);
      NothingBrought(before, steps[k]);
      StillUncommitted(before, steps[k], u);
      StepRecords(before, steps[k]);
    }
  }

  // ---------------------------------------------------------------------------
  // The dry run
  // ---------------------------------------------------------------------------

  /**
   * A dry run forecasts the commit: made right away on an idle queue and a clean tree, the
   * real call lands the window if and only if the dry run said it would and its publishes
   * come off: the ordinary one, where there is something to commit first, and the window's own.
   */
  lemma DryRunForecasts(s: State, slot: nat, until: nat, isolated: bool, first: Outcome, second: Outcome)
    requires Core(s) && s.host == MainLoop && s.queue.running.None? && !s.queue.blocked
    requires slot in s.calls && s.calls[slot].Waiting? && s.calls[slot].since < until <= s.head
    requires Allowed(s, SubmitWindow(slot, until, isolated))
    ensures
      var since := s.calls[slot].since;
      var s1 := Next(s, SubmitWindow(slot, until, isolated));
      var s2 := Next(s1, RunSection(true, first));
      var s3 := Next(s2, RunSection(true, second));
      s3.book.windows ==
        (if B.DryRunWouldCommit(isolated, CommittedSeq(s), since) && (CommittedSeq(s) < since ==> first in {Committed, Unchanged}) && Lands(second)
         then s.book.windows + [B.Uncommitted(s.calls[slot].proposal, since, until)] else s.book.windows)
  {
    hide LineFits, EntriesFit, History, Ordered, Held, WQ.Settle, WQ.Submit, B.Finish, B.Steer, HoldInv;
    if isolated {
      var w := B.Uncommitted(s.calls[slot].proposal, s.calls[slot].since, until);
      SubmitStartsOnIdle(s.queue, WQ.Entry(s.nextId, WQ.Proposal, ProposalJob(slot)));
      var s1 := Next(s, SubmitWindow(slot, until, isolated));
      assert RunningJob(s1) == Some(ProposalJob(slot)) && s1.calls[slot] == Committing(w, false) && s1.book == s.book;
      WQ.SettleKeepsLine(s1.queue, false);
      SectionLands(s1, slot, w, first, second);
    }
  }

  /** The section's first step, on a queue where nothing else waits. */
  lemma FirstStep(s: State, slot: nat, w: B.Uncommitted, first: Outcome)
    requires s.host == MainLoop && RunningJob(s) == Some(ProposalJob(slot)) && slot in s.calls && s.calls[slot] == Committing(w, false)
    requires WQ.Settle(s.queue, false).running.None?
    ensures
      var s' := Next(s, RunSection(true, first));
      && s'.book.windows == s.book.windows
      && if s.book.modelSeq <= w.since && (s.book.modelSeq < w.since ==> first in {Committed, Unchanged})
         then RunningJob(s') == Some(ProposalJob(slot)) && slot in s'.calls && s'.calls[slot] == Committing(w, true)
         else RunningJob(s').None?
  {
    hide WQ.Settle, B.Finish, B.Steer;
    OrdinaryMakesNoWindow(s.book, Range(CommittedSeq(s), w.since), w.since, first);
  }

  /** ... and its second. */
  lemma SectionLands(s: State, slot: nat, w: B.Uncommitted, first: Outcome, second: Outcome)
    requires s.host == MainLoop && RunningJob(s) == Some(ProposalJob(slot)) && slot in s.calls && s.calls[slot] == Committing(w, false)
    requires WQ.Settle(s.queue, false).running.None?
    ensures
      var s' := Next(s, RunSection(true, first));
      var s'' := Next(s', RunSection(true, second));
      s''.book.windows ==
        if s.book.modelSeq <= w.since && (s.book.modelSeq < w.since ==> first in {Committed, Unchanged}) && Lands(second)
        then s.book.windows + [w] else s.book.windows
  {
    hide WQ.Settle, CommitEarlier, CommitWindow;
    FirstStep(s, slot, w, first);
    WindowEnds(Next(s, RunSection(true, first)), slot, w, true, second);
  }

  lemma SubmitStartsOnIdle(q: WQ.Queue<Job>, e: WQ.Entry<Job>)
    requires WQ.Inv(q) && q.running.None? && !q.blocked
    ensures var (q', how) := WQ.Submit(q, e, AbsorbJob); how == WQ.Accepted && WQ.Inv(q') && q'.running == Some(e) && q'.pending == []
  {
    assert q.pending + [e] == [e] && [e][..0] + [e][1..] == [];
  }
}
