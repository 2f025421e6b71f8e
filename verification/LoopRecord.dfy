/**
 * What one step of the live loop does to the book, and to the windows that are applied but
 * not yet committed. The properties of whole runs speak of these alone.
 */
module LoopRecord {
  import opened Prelude
  import opened LiveLoop
  import opened LoopLine
  import WQ = WorkQueue
  import CS = ChangeStream
  import B = Boundary

  /** A publish: the events it is to bring in, up to where, in whose name, and how it ends. */
  datatype Act = Act(events: set<nat>, upto: nat, owner: Option<B.Uncommitted>, outcome: Outcome)

  function Booked(b: Book, act: Act): Book {
    if act.owner.Some? then Publish(b, act.events, act.upto, act.owner, act.outcome)
    else Ordinary(b, act.events, act.upto, act.outcome)
  }

  predicate RunsSection(s: State) {
    RunningJob(s).Some? && RunningJob(s).value.ProposalJob? && InSection(s, RunningJob(s).value.slot)
  }

  predicate RunsRetry(s: State) {
    RunningJob(s).Some? && RunningJob(s).value.RetryJob? && InRetry(s, RunningJob(s).value.slot)
  }

  /** The call whose section or retry is running. */
  function RunningCall(s: State): (c: Call)
    requires RunsSection(s) || RunsRetry(s)
    ensures if RunsSection(s) then c.Committing? else c.Retrying?
  {
    s.calls[RunningJob(s).value.slot]
  }

  /** The publish a step makes, if it makes one. */
  function ActOf(s: State, step: Step): Option<Act> {
    match step
    case RunApply(outcome) =>
      if RunningJob(s).Some? && RunningJob(s).value.ApplyJob? then
        var events := Unconsumed(RunningJob(s).value.batch, s.book.consumed);
        if events == [] then None else Some(Act(Elems(events), MaxOf(0, events), None, outcome))
      else None
    case RunOwn(outcome) =>
      if RunningJob(s).Some? && RunningJob(s).value.OwnJob? && Regenerates(RunningJob(s).value.work, s.boundary)
      then Some(Act({}, 0, None, outcome)) else None
    case RunSection(clean, outcome) =>
      if !RunsSection(s) then None else
        var w := RunningCall(s).window;
        if RunningCall(s).ready then if clean then Some(Act(Range(w.since, w.until), w.until, Some(w), outcome)) else None
        else if CommittedSeq(s) < w.since then Some(Act(Range(CommittedSeq(s), w.since), w.since, None, outcome)) else None
    case RunRetry(clean, outcome) =>
      if RunsRetry(s) && clean then Some(Act({}, 0, Some(RunningCall(s).window), outcome)) else None
    case _ => None
  }

  /** The events a step applies in nobody's name. */
  function Brings(s: State, step: Step): set<nat> {
    var act := ActOf(s, step);
    if act.Some? && act.value.owner.None? && Applies(act.value.outcome) then act.value.events else {}
  }

  /** The window a step commits under its contributor's name. */
  function Landing(s: State, step: Step): Option<B.Uncommitted> {
    var act := ActOf(s, step);
    if act.Some? && Lands(act.value.outcome) then act.value.owner else None
  }

  /** Applied to the model and waiting for its own commit: recorded so, or in a retry's hands. */
  ghost predicate Claims(s: State, u: B.Uncommitted) {
    s.boundary.unattributed == Some(u) || exists k :: k in s.calls && s.calls[k] == Retrying(u)
  }

  /** The window a step leaves uncommitted. */
  function Leaves(s: State, step: Step): Option<B.Uncommitted> {
    if step.RunSection? && RunsSection(s) && RunningCall(s).ready && step.clean && step.outcome == GenerationFailed
    then Some(RunningCall(s).window) else None
  }

  /** The book after a step, but for the mark of what was consumed. */
  ghost predicate BookedAs(s: State, step: Step, s': State) {
    var act := ActOf(s, step);
    s'.book == (if act.Some? then Booked(s.book, act.value) else s.book).(consumed := s'.book.consumed)
  }

  /** Nothing is claimed after a step but what was before and what it leaves. */
  ghost predicate ClaimsAs(s: State, left: Option<B.Uncommitted>, s': State) {
    forall u :: Claims(s', u) ==> Claims(s, u) || left == Some(u)
  }

  lemma NoClaimMade(s: State, left: Option<B.Uncommitted>, s': State)
    requires forall k :: k in s'.calls && s'.calls[k].Retrying? ==> (k in s.calls && s'.calls[k] == s.calls[k]) || s.boundary.unattributed == Some(s'.calls[k].window)
    requires s'.boundary.unattributed.None? || s'.boundary.unattributed == s.boundary.unattributed || s'.boundary.unattributed == left
    ensures ClaimsAs(s, left, s')
  {
  }

  lemma ApplyBooks(s: State, outcome: Outcome)
    ensures BookedAs(s, RunApply(outcome), Next(s, RunApply(outcome))) && ClaimsAs(s, None, Next(s, RunApply(outcome)))
  {
    hide SettleQueue, Claims, ClaimsAs, CS.Returned, CS.Threw, Elems, Unconsumed, Ordinary;
    SettlesOnly(s);
    BookMarked(s.book);
    NoClaimMade(s, None, Next(s, RunApply(outcome)));
  }

  lemma OwnBooks(s: State, outcome: Outcome)
    ensures BookedAs(s, RunOwn(outcome), Next(s, RunOwn(outcome))) && ClaimsAs(s, None, Next(s, RunOwn(outcome)))
  {
    hide SettleQueue, Claims, ClaimsAs, Ordinary, Publish;
    NothingOrdinary(s.book, outcome);
    SettlesOnly(s);
    NoClaimMade(s, None, Next(s, RunOwn(outcome)));
  }

  lemma BookMarked(b: Book)
    ensures forall events, upto, outcome :: Ordinary(b, events, upto, outcome).consumed == b.consumed
  {
  }

  lemma NothingOrdinary(b: Book, outcome: Outcome)
    ensures Publish(b, {}, 0, None, outcome) == Ordinary(b, {}, 0, outcome)
  {
    assert b.ordinary + {} == b.ordinary;
  }

  lemma SettlesOnly(s: State)
    ensures forall t: State, ok :: SettleQueue(t, ok) == t.(queue := SettleQueue(t, ok).queue)
  {
  }

  lemma EarlierBooks(s: State, step: Step)
    requires step.RunSection? && RunsSection(s) && !RunningCall(s).ready
    ensures BookedAs(s, step, Next(s, step)) && ClaimsAs(s, None, Next(s, step))
  {
    hide SettleQueue, Claims, ClaimsAs, Ordinary, Report, B.Steer;
    SettlesOnly(s);
    NoClaimMade(s, None, Next(s, step));
  }

  lemma WindowBooks(s: State, step: Step)
    requires step.RunSection? && RunsSection(s) && RunningCall(s).ready
    ensures BookedAs(s, step, Next(s, step)) && ClaimsAs(s, Leaves(s, step), Next(s, step))
  {
    hide SettleQueue, Claims, ClaimsAs, Publish, B.Steer;
    SettlesOnly(s);
    NoClaimMade(s, Leaves(s, step), Next(s, step));
  }

  lemma RetryBooks(s: State, step: Step)
    requires step.RunRetry? && RunsRetry(s)
    ensures BookedAs(s, step, Next(s, step)) && ClaimsAs(s, None, Next(s, step))
  {
    hide SettleQueue, Claims, ClaimsAs, Publish, B.Steer;
    SettlesOnly(s);
    NoClaimMade(s, None, Next(s, step));
  }

  /** A step that may only end calls, or put a retry in charge of what is uncommitted. */
  ghost predicate Idles(s: State, s': State) {
    && s'.book == s.book && s'.host == s.host
    && (s'.boundary.unattributed.None? || s'.boundary.unattributed == s.boundary.unattributed)
    && forall k :: k in s'.calls && s'.calls[k].Retrying? ==>
         (k in s.calls && s'.calls[k] == s.calls[k]) || s.boundary.unattributed == Some(s'.calls[k].window)
  }

  lemma {:induction false} RejectingIdles(s: State, entries: seq<WQ.Entry<Job>>)
    ensures Idles(s, AllRejected(s, entries)) && AllRejected(s, entries).boundary.unattributed == s.boundary.unattributed
    decreases |entries|
  {
    if entries != [] { RejectingIdles(Rejected(s, entries[0].job), entries[1..]); }
  }

  lemma AnsweringIdles(s: State, slot: nat, proposal: nat, existing: bool, sinceSeq: Option<nat>)
    ensures Idles(s, Proceed(s, slot, proposal, existing, sinceSeq))
  {
    hide SubmitJob, HasLanded, B.Steer;
    SubmitsOnly(s);
  }

  lemma SubmittingIdles(s: State, step: Step)
    requires step.SubmitOwn? || step.TimerFires? || step.SubmitWindow? || step.Answered?
    ensures Idles(s, Next(s, step))
  {
    hide SubmitJob, HasLanded, B.Steer, Proceed, CS.Fire, CS.Threw, CS.Returned;
    SubmitsOnly(s);
    if step.Answered? && step.slot in s.calls && s.calls[step.slot].Asked? {
      AnsweringIdles(s, step.slot, s.calls[step.slot].proposal, step.existing, step.sinceSeq);
    }
  }

  lemma SubmitsOnly(s: State)
    ensures forall t: State, kind, job :: SubmitJob(t, kind, job).0 == t.(queue := SubmitJob(t, kind, job).0.queue, nextId := t.nextId + 1)
  {
    hide WQ.Submit;
  }

  lemma OtherwiseIdles(s: State, step: Step)
    requires !step.RunApply? && !step.RunOwn? && !step.RunSection? && !step.RunRetry?
    ensures Idles(s, Next(s, step))
  {
    hide Release, Proceed, EnterSection, AllRejected, SubmitJob, WQ.Unblock;
    if step.BlockQueue? { RejectingIdles(s.(queue := WQ.Block(s.queue)), s.queue.pending); }
    if step.SubmitOwn? || step.TimerFires? || step.SubmitWindow? || step.Answered? { SubmittingIdles(s, step); }
    if IsQuiet(step) { QuietKeepsLine(s, step); QuietIdles(s, step); }
  }

  lemma QuietIdles(s: State, step: Step)
    requires IsQuiet(step)
    ensures var u' := Next(s, step).boundary.unattributed; u'.None? || u' == s.boundary.unattributed
  {
    hide FinishApply, FinishOwn, RunningSection, FinishRetry, Release, Proceed, EnterSection, AllRejected, SubmitJob, B.Steer, CS.Handle;
  }

  /** Every step's effect on the book is that of its publish; what it leaves uncommitted is known. */
  lemma {:induction false} StepBooks(s: State, step: Step)
    ensures BookedAs(s, step, Next(s, step)) && ClaimsAs(s, Leaves(s, step), Next(s, step)) && Next(s, step).host == s.host
  {
    hide Next, ActOf, Booked, Idles;
    HostStays(s, step);
    if step.RunApply? { ApplyBooks(s, step.outcome); }
    else if step.RunOwn? { OwnBooks(s, step.outcome); }
    else if step.RunSection? && RunsSection(s) {
      if RunningCall(s).ready { WindowBooks(s, step); } else { EarlierBooks(s, step); }
    } else if step.RunRetry? && RunsRetry(s) { RetryBooks(s, step); }
    else {
      NothingRuns(s, step);
      IdleBooks(s, step);
    }
  }

  lemma IdleBooks(s: State, step: Step)
    requires ActOf(s, step).None? && Idles(s, Next(s, step))
    ensures BookedAs(s, step, Next(s, step)) && ClaimsAs(s, Leaves(s, step), Next(s, step))
  {
    hide ActOf, Next, Claims, ClaimsAs;
    NoClaimMade(s, Leaves(s, step), Next(s, step));
  }

  lemma NothingRuns(s: State, step: Step)
    requires !step.RunApply? && !step.RunOwn? && !(step.RunSection? && RunsSection(s)) && !(step.RunRetry? && RunsRetry(s))
    ensures ActOf(s, step).None? && Idles(s, Next(s, step))
  {
    hide Release, Proceed, EnterSection, AllRejected, SubmitJob, WQ.Unblock, FinishApply, FinishOwn, FinishRetry, RunningSection;
    if !step.RunSection? && !step.RunRetry? { OtherwiseIdles(s, step); }
  }

  lemma HostStays(s: State, step: Step)
    ensures Next(s, step).host == s.host
  {
    hide Release, Proceed, EnterSection, AllRejected, SubmitJob, WQ.Unblock, SettleQueue, Publish, Report;
    if step.BlockQueue? { RejectingIdles(s.(queue := WQ.Block(s.queue)), s.queue.pending); }
    SubmitsOnly(s);
    SettlesOnly(s);
    if step.SubmitOwn? || step.TimerFires? || step.SubmitWindow? || step.Answered? { SubmittingIdles(s, step); }
  }

  // ---------------------------------------------------------------------------
  // What a publish does to the record
  // ---------------------------------------------------------------------------

  /** `landed`, appended. */
  function WithLanding(windows: seq<B.Uncommitted>, landed: Option<B.Uncommitted>): seq<B.Uncommitted> {
    if landed.Some? then windows + [landed.value] else windows
  }

  /**
   * After any step: ordinary tasks have applied what it brings besides, its window has joined
   * the committed ones, and positions have not gone back.
   */
  lemma StepRecords(s: State, step: Step)
    ensures var b, b' := s.book, Next(s, step).book;
      && b'.ordinary == b.ordinary + Brings(s, step)
      && b'.windows == WithLanding(b.windows, Landing(s, step))
      && b.modelSeq <= b'.modelSeq
  {
    hide ActOf, Next;
    StepBooks(s, step);
    assert s.book.ordinary + {} == s.book.ordinary;
  }
}
