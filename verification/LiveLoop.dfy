/**
 * The live loop as one transition system: journal, change stream, work queue, proposal
 * boundary and the model they feed (packages/live/src/main.ts, the glue in `LiveLoop`).
 * A step is one synchronous stretch between two awaits, except that a publish is one step;
 * any interleaving of steps is a run. Several `commit` calls may be in progress at a time.
 *
 * The journal's events are numbered 1, 2, 3, ..., `head`; an event is its number.
 */
module LiveLoop {
  import opened Prelude
  import WQ = WorkQueue
  import CS = ChangeStream
  import B = Boundary
  import Sorting

  /**
   * What a task of the daemon's own does: an operator's or a verifier's rebuild, which refuses
   * while a proposal is applied but uncommitted; the rebuild after the generator or a foreign
   * source changed, which does not ask; or none.
   */
  datatype Work = NoRebuild | Rebuild | ForeignRebuild

  datatype Job =
    | ApplyJob(batch: seq<nat>)     // an ordinary batch from the stream
    | ProposalJob(slot: nat)        // the exclusive section of a `commit` call
    | RetryJob(slot: nat)           // the exclusive section of `retryUnattributed`
    | OwnJob(work: Work)            // rebuild, merge, measure, verify, full-regen

  /** Only apply tasks say they absorb, and only other apply tasks carry events. */
  function AbsorbJob(waiting: Job, next: Job): Option<Job> {
    if waiting.ApplyJob? && next.ApplyJob? then Some(ApplyJob(waiting.batch + next.batch)) else None
  }

  /** A mutating `commit` call, by what it is waiting for. */
  datatype Call =
    | Asked(proposal: nat)                             // whether a commit of the proposal exists
    | Waiting(proposal: nat, since: nat)               // for the check-in to appear
    | Committing(window: B.Uncommitted, ready: bool)   // section submitted; ready: earlier events committed
    | Retrying(window: B.Uncommitted)

  /**
   * How one `publish` ends: it returns after a commit, without a change to commit, or with a
   * failed generation; or it throws before applying, before its commit, or after it.
   */
  datatype Outcome = Committed | Unchanged | GenerationFailed | ThrewEarly | ThrewLate | ThrewLanded

  predicate Applies(outcome: Outcome) { outcome != ThrewEarly }

  /** The tree was regenerated from the model. */
  predicate Rebuilds(outcome: Outcome) { outcome in {Committed, Unchanged, ThrewLanded} }

  /** A commit was made. */
  predicate Lands(outcome: Outcome) { outcome in {Committed, ThrewLanded} }

  predicate Throws(outcome: Outcome) { outcome in {ThrewEarly, ThrewLate, ThrewLanded} }

  /** What the boundary hears. */
  function Report(outcome: Outcome): B.Published {
    match outcome
    case Committed => B.Reported(true, true, true)
    case Unchanged => B.Reported(true, true, false)
    case GenerationFailed => B.Reported(false, true, false)
    case _ => B.Threw
  }

  /**
   * One rebuild of the tree: `events` is what it brought in, `owner` whose name it carries
   * (None: the owner of the tree), `landed` whether a commit was made of it. `from` and `to`
   * are the positions the tree was at before and after.
   */
  datatype Segment = Segment(owner: Option<B.Uncommitted>, from: nat, to: nat, events: set<nat>, landed: bool)

  /** The model and the tree, and what has been done to them. */
  datatype Book = Book(
    model: set<nat>, modelSeq: nat,    // events applied to the model, and its position
    tree: set<nat>, treeSeq: nat,      // events the committed tree was generated from, and its position
    consumed: nat,                     // consumedThrough; 0 before any proposal was committed
    ordinary: set<nat>,                // events applied by ordinary tasks
    windows: seq<B.Uncommitted>,       // windows of the proposal commits made
    segments: seq<Segment>)

  const BLANK := Book({}, 0, {}, 0, 0, {}, [], [])

  /** `publish`: bring `events` into the model, to position `upto`; regenerate; commit as `owner`. */
  function Publish(b: Book, events: set<nat>, upto: nat, owner: Option<B.Uncommitted>, outcome: Outcome): Book {
    var applied := if Applies(outcome) then b.(model := b.model + events, modelSeq := Max(b.modelSeq, upto)) else b;
    if !Rebuilds(outcome) then applied else
      applied.(tree := applied.model, treeSeq := applied.modelSeq,
               windows := if owner.Some? && Lands(outcome) then b.windows + [owner.value] else b.windows,
               segments := b.segments + [Segment(owner, b.treeSeq, applied.modelSeq, applied.model - b.tree, Lands(outcome))])
  }

  /** A publish in nobody's name: an ordinary task has applied the events. */
  function Ordinary(b: Book, events: set<nat>, upto: nat, outcome: Outcome): Book {
    var b' := Publish(b, events, upto, None, outcome);
    if Applies(outcome) then b'.(ordinary := b.ordinary + events) else b'
  }

  /**
   * What `committedSeq` answers. `Contract`: the highest seq whose effect is in the committed
   * tree, as the host interface documents. `MainLoop`: `model.seq`, as main.ts answers.
   */
  datatype Host = Contract | MainLoop

  datatype State = State(
    host: Host, head: nat,
    stream: CS.Stream, cursor: Option<nat>,
    queue: WQ.Queue<Job>, nextId: nat,
    boundary: B.State, begins: seq<nat>, operatorPaused: bool,
    calls: map<nat, Call>,    // by slot; a slot is free again when its call is over
    book: Book)

  function Init(host: Host): State {
    State(host, 0, CS.Fresh(0), None, WQ.Empty(), 0, B.State.State(None, None), [], false, map[], BLANK)
  }

  function CommittedSeq(s: State): nat { if s.host.Contract? then s.book.treeSeq else s.book.modelSeq }

  /** The journal slice after `from` up to and including `to`. */
  function Range(from: nat, to: nat): (slice: set<nat>)
    decreases to
    ensures forall n :: n in slice <==> from < n <= to
  {
    if to <= from then {} else Range(from, to - 1) + {to}
  }

  function Steer(s: State, b: B.State, c: B.Control): State {
    s.(boundary := b, stream := B.Steer(s.stream, c, s.operatorPaused))
  }

  function Over(s: State, slot: nat): State { s.(calls := s.calls - {slot}) }

  /** The call is over; `finish` gives the hold back. */
  function EndCall(s: State, slot: nat, proposal: nat): State {
    var (b, c) := B.Finish(s.boundary, proposal);
    Over(Steer(s, b, c), slot)
  }

  function SubmitJob(s: State, kind: WQ.Kind, job: Job): (State, WQ.Submission) {
    var (q, how) := WQ.Submit(s.queue, WQ.Entry(s.nextId, kind, job), AbsorbJob);
    (s.(queue := q, nextId := s.nextId + 1), how)
  }

  function SettleQueue(s: State, ok: bool): State { s.(queue := WQ.Settle(s.queue, ok)) }

  function RunningJob(s: State): Option<Job> {
    if s.queue.running.Some? then Some(s.queue.running.value.job) else None
  }

  predicate InSection(s: State, slot: nat) { slot in s.calls && s.calls[slot].Committing? }

  predicate InRetry(s: State, slot: nat) { slot in s.calls && s.calls[slot].Retrying? }

  /** A task's promise rejected without it having run. */
  function Rejected(s: State, job: Job): State {
    match job
    case ApplyJob(_) => s.(stream := CS.Threw(s.stream))
    case ProposalJob(slot) => if InSection(s, slot) then EndCall(s, slot, s.calls[slot].window.proposal) else s
    case RetryJob(slot) => Over(s, slot)
    case OwnJob(_) => s
  }

  function AllRejected(s: State, entries: seq<WQ.Entry<Job>>): State
    decreases |entries|
  {
    if entries == [] then s else AllRejected(Rejected(s, entries[0].job), entries[1..])
  }

  // ---------------------------------------------------------------------------
  // Steps
  // ---------------------------------------------------------------------------

  datatype Step =
    | Append | Connect | Disconnect | Deliver | TimerFires
    | RunApply(outcome: Outcome) | RunOwn(outcome: Outcome)
    | RunSection(clean: bool, outcome: Outcome) | RunRetry(clean: bool, outcome: Outcome)
    | SubmitOwn(kind: WQ.Kind, work: Work) | BlockQueue | UnblockQueue
    | BeginProposal(proposal: nat, journalRead: bool)                 // both halves of a begin at once
    | BeginAsks(proposal: nat) | BeginHears(i: nat, head: Option<nat>)   // ... or one by one
    | AbortProposal(proposal: nat) | HoldExpires
    | EnterCommit(slot: nat, proposal: nat) | Answered(slot: nat, existing: bool, sinceSeq: Option<nat>)
    | SubmitWindow(slot: nat, until: nat, isolated: bool) | GiveUpWaiting(slot: nat)
    | OperatorPause | OperatorResume

  /** A commit under this proposal's name is in the history. */
  predicate HasLanded(b: Book, proposal: nat) { exists w :: w in b.windows && w.proposal == proposal }

  /** A step that cannot happen in `s` leaves it as it is. */
  function Next(s: State, step: Step): State {
    match step
    case Append => s.(head := s.head + 1)
    case Connect => s.(cursor := Some(s.stream.applied))
    case Disconnect => s.(cursor := None)
    case Deliver =>
      if s.cursor.None? || s.cursor.value >= s.head then s
      else s.(stream := CS.Handle(s.stream, s.cursor.value + 1), cursor := Some(s.cursor.value + 1))
    case TimerFires => if s.stream.armed then Release(s) else s
    case RunApply(outcome) =>
      if RunningJob(s).Some? && RunningJob(s).value.ApplyJob? then FinishApply(s, RunningJob(s).value.batch, outcome) else s
    case RunOwn(outcome) =>
      if RunningJob(s).Some? && RunningJob(s).value.OwnJob? then FinishOwn(s, RunningJob(s).value.work, outcome) else s
    case RunSection(clean, outcome) =>
      if RunningJob(s).Some? && RunningJob(s).value.ProposalJob? && InSection(s, RunningJob(s).value.slot)
      then RunningSection(s, RunningJob(s).value.slot, clean, outcome) else s
    case RunRetry(clean, outcome) =>
      if RunningJob(s).Some? && RunningJob(s).value.RetryJob? && InRetry(s, RunningJob(s).value.slot)
      then FinishRetry(s, RunningJob(s).value.slot, s.calls[RunningJob(s).value.slot].window, clean, outcome) else s
    case SubmitOwn(kind, work) =>
      if kind.Apply? || kind.Proposal? then s else SubmitJob(s, kind, OwnJob(work)).0
    case BlockQueue => AllRejected(s.(queue := WQ.Block(s.queue)), s.queue.pending)
    case UnblockQueue => s.(queue := WQ.Unblock(s.queue))
    case BeginProposal(proposal, read) =>
      var (b, c, _) := B.Begin(s.boundary, proposal, if read then Some(s.head) else None);
      Steer(s, b, c)
    case BeginAsks(proposal) =>
      var (c, reply) := B.BeginPauses(s.boundary, proposal);
      if reply.Some? then s else Steer(s, s.boundary, c).(begins := s.begins + [proposal])
    case BeginHears(i, head) =>
      if i >= |s.begins| || (head.Some? && head.value > s.head) then s else
        var (b, c) := B.BeginReads(s.boundary, s.begins[i], head);
        Steer(s, b, c).(begins := s.begins[..i] + s.begins[i+1..])
    case AbortProposal(proposal) =>
      var (b, c) := B.Abort(s.boundary, proposal);
      Steer(s, b, c)
    case HoldExpires =>
      if s.boundary.hold.None? then s else
        var (b, c) := B.Expire(s.boundary, s.boundary.hold.value.proposal);
        Steer(s, b, c)
    case EnterCommit(slot, proposal) =>
      if slot in s.calls || B.Busy(s.boundary, proposal) then s else s.(calls := s.calls[slot := Asked(proposal)])
    case Answered(slot, existing, sinceSeq) =>
      if slot in s.calls && s.calls[slot].Asked? then Proceed(s, slot, s.calls[slot].proposal, existing, sinceSeq) else s
    case SubmitWindow(slot, until, isolated) =>
      // readRange served the whole window, so the journal reaches its end.
      if slot in s.calls && s.calls[slot].Waiting? && s.calls[slot].since < until <= s.head
      then EnterSection(s, slot, B.Uncommitted(s.calls[slot].proposal, s.calls[slot].since, until), isolated) else s
    case GiveUpWaiting(slot) => if slot in s.calls && s.calls[slot].Waiting? then Over(s, slot) else s
    case OperatorPause => s.(operatorPaused := true, stream := CS.Pause(s.stream))
    case OperatorResume =>
      if B.Holding(s.boundary) then s.(operatorPaused := false)
      else s.(operatorPaused := false, stream := CS.Resume(s.stream))
  }

  /** A call knows whether its proposal has a commit; one in the history is always found. */
  function Proceed(s: State, slot: nat, proposal: nat, existing: bool, sinceSeq: Option<nat>): State {
    match B.Proceed(s.boundary, existing || HasLanded(s.book, proposal), false, sinceSeq)
    case AlreadyCommitted => EndCall(s, slot, proposal)
    case Retry(u) =>
      var (s', how) := SubmitJob(s, WQ.Proposal, RetryJob(slot));
      if how == WQ.Accepted then s'.(calls := s.calls[slot := Retrying(u)]) else Over(s', slot)
    case Window(since) => s.(calls := s.calls[slot := Waiting(proposal, since)])
    case _ => Over(s, slot)
  }

  function EnterSection(s: State, slot: nat, w: B.Uncommitted, isolated: bool): State {
    if !isolated then EndCall(s, slot, w.proposal) else
      var (s', how) := SubmitJob(s, WQ.Proposal, ProposalJob(slot));
      if how == WQ.Accepted then s'.(calls := s.calls[slot := Committing(w, false)]) else EndCall(s', slot, w.proposal)
  }

  /** The quiet timer: `drain` hands the batch to `onBatch`, which submits it. */
  function Release(s: State): State {
    var stream := CS.Fire(s.stream);
    var s' := s.(stream := stream);
    if s.stream.draining || !stream.draining then s' else
      var (s'', how) := SubmitJob(s', WQ.Apply, ApplyJob(stream.batch));
      match how
      case Accepted => s''
      case Refused => s''.(stream := CS.Threw(stream))
      case Folded => s''.(stream := CS.Returned(stream))
  }

  /** The batch without what a proposal commit consumed. */
  function Unconsumed(batch: seq<nat>, consumed: nat): (events: seq<nat>)
    ensures forall n :: n in events <==> n in batch && n > consumed
  {
    if batch == [] then [] else
      var rest := Unconsumed(batch[1..], consumed);
      assert batch == [batch[0]] + batch[1..];
      if batch[0] > consumed then [batch[0]] + rest else rest
  }

  /** The batch loses exactly what was consumed, and keeps its order. */
  lemma {:induction false} UnconsumedKeepsOrder(batch: seq<nat>, consumed: nat)
    requires forall i, j :: 0 <= i < j < |batch| ==> batch[i] < batch[j]
    ensures var events := Unconsumed(batch, consumed);
      && |events| <= |batch| && events == batch[|batch| - |events|..]
    decreases |batch|
  {
    if batch != [] {
      UnconsumedKeepsOrder(batch[1..], consumed);
      var rest := Unconsumed(batch[1..], consumed);
      if batch[0] > consumed {
        AllUnconsumed(batch[1..], consumed);
        assert batch == [batch[0]] + batch[1..];
      }
    }
  }

  lemma {:induction false} AllUnconsumed(batch: seq<nat>, consumed: nat)
    requires forall i :: 0 <= i < |batch| ==> batch[i] > consumed
    ensures Unconsumed(batch, consumed) == batch
    decreases |batch|
  {
    if batch != [] {
      AllUnconsumed(batch[1..], consumed);
      assert batch == [batch[0]] + batch[1..];
    }
  }

  /** Whatever the batch, in whatever order and with whatever repeats: the rest is as it was. */
  lemma UnconsumedAt(batch: seq<nat>, consumed: nat) returns (at: seq<nat>)
    ensures Sorting.Picks(at, batch, (n: nat) => n > consumed) && Sorting.AreAt(Unconsumed(batch, consumed), batch, at)
  {
    at := Sorting.Picked(batch, (n: nat) => n > consumed);
    UnconsumedFilters(batch, consumed);
  }

  lemma {:induction false} UnconsumedFilters(batch: seq<nat>, consumed: nat)
    ensures Unconsumed(batch, consumed) == Sorting.Filter(batch, (n: nat) => n > consumed)
    decreases |batch|
  {
    if batch != [] { UnconsumedFilters(batch[1..], consumed); }
  }

  function Elems(s: seq<nat>): set<nat> { set n | n in s }

  /** The stream hears how its batch went. */
  function Heard(s: State, ok: bool): State { s.(stream := if ok then CS.Returned(s.stream) else CS.Threw(s.stream)) }

  /** `applyAndRebuild`. */
  function FinishApply(s: State, batch: seq<nat>, outcome: Outcome): State {
    var events := Unconsumed(batch, s.book.consumed);
    if events == [] then Heard(SettleQueue(s, true), true) else
      var s' := s.(book := Ordinary(s.book, Elems(events), MaxOf(0, events), outcome));
      Heard(SettleQueue(s', !Throws(outcome)), !Throws(outcome))
  }

  /** Does the task rebuild? (doRebuildNow and applyStale refuse; foreignRebuild does not.) */
  predicate Regenerates(work: Work, b: B.State) { work.ForeignRebuild? || (work.Rebuild? && b.unattributed.None?) }

  function FinishOwn(s: State, work: Work, outcome: Outcome): State {
    var s' := if Regenerates(work, s.boundary) then s.(book := Publish(s.book, {}, 0, None, outcome)) else s;
    SettleQueue(s', Regenerates(work, s.boundary) ==> !Throws(outcome))
  }

  function FailSection(s: State, slot: nat, w: B.Uncommitted): State { EndCall(SettleQueue(s, false), slot, w.proposal) }

  function Ready(s: State, slot: nat, w: B.Uncommitted): State { s.(calls := s.calls[slot := Committing(w, true)]) }

  function RunningSection(s: State, slot: nat, clean: bool, outcome: Outcome): State
    requires InSection(s, slot)
  {
    if s.calls[slot].ready then CommitWindow(s, slot, s.calls[slot].window, clean, outcome)
    else CommitEarlier(s, slot, s.calls[slot].window, outcome)
  }

  /** First part of the section: refuse, or commit what comes before the window on its own. */
  function CommitEarlier(s: State, slot: nat, w: B.Uncommitted, outcome: Outcome): State {
    var committed := CommittedSeq(s);
    if committed > w.since then FailSection(s, slot, w)
    else if committed == w.since then Ready(s, slot, w)
    else
      var s' := s.(book := Ordinary(s.book, Range(committed, w.since), w.since, outcome));
      if B.Succeeded(Report(outcome)) && CommittedSeq(s') == w.since then Ready(s', slot, w) else FailSection(s', slot, w)
  }

  function Consume(s: State, w: B.Uncommitted): State {
    s.(book := s.book.(consumed := Max(s.book.consumed, w.until)), stream := CS.MarkApplied(s.stream, w.until))
  }

  /** Second part: the window alone, under the contributor's name. */
  function CommitWindow(s: State, slot: nat, w: B.Uncommitted, clean: bool, outcome: Outcome): State {
    if !clean then FailSection(s, slot, w) else
      var s' := s.(book := Publish(s.book, Range(w.since, w.until), w.until, Some(w), outcome),
                   boundary := B.AfterPublish(s.boundary, w, Report(outcome)));
      var s'' := if B.Succeeded(Report(outcome)) then Consume(s', w) else s';
      EndCall(SettleQueue(s'', outcome == Committed), slot, w.proposal)
  }

  function FinishRetry(s: State, slot: nat, u: B.Uncommitted, clean: bool, outcome: Outcome): State {
    if !clean then Over(SettleQueue(s, false), slot) else
      var s' := s.(book := Publish(s.book, {}, 0, Some(u), outcome));
      if !B.Succeeded(Report(outcome)) then Over(SettleQueue(s', false), slot) else
        var s'' := Consume(s', u).(boundary := s.boundary.(unattributed := None));
        EndCall(SettleQueue(s'', outcome == Committed), slot, u.proposal)
  }

  function Run(s: State, steps: seq<Step>): State {
    if steps == [] then s else Next(Run(s, steps[..|steps|-1]), steps[|steps|-1])
  }

  /**
   * The hypotheses of a run, besides the SSE stream: `begin` reads the head in the step that
   * holds the stream; one mutating `commit` call at a time; the section is submitted under a
   * live hold of its proposal, and from then until the call returns nobody aborts and the
   * hold does not expire.
   */
  predicate Allowed(s: State, step: Step) {
    match step
    case BeginAsks(_) => false
    case AbortProposal(_) => NoSection(s)
    case HoldExpires => NoSection(s)
    case EnterCommit(_, _) => s.calls == map[]
    case SubmitWindow(slot, _, isolated) =>
      slot in s.calls && s.calls[slot].Waiting? && isolated ==>
        s.boundary.hold.Some? && s.boundary.hold.value.proposal == s.calls[slot].proposal
    case _ => true
  }

  predicate NoSection(s: State) { forall k :: k in s.calls ==> !s.calls[k].Committing? && !s.calls[k].Retrying? }

  predicate AllowedRun(s: State, steps: seq<Step>) {
    forall i :: 0 <= i < |steps| ==> Allowed(Run(s, steps[..i]), steps[i])
  }

  // ---------------------------------------------------------------------------
  // The section as the boundary's own method runs it
  // ---------------------------------------------------------------------------

  /** What the boundary is answered in a section run to its end. */
  function AnswersOf(s: State, w: B.Uncommitted, clean: bool, first: Outcome, second: Outcome): B.Answers {
    var after := s.(book := Ordinary(s.book, Range(CommittedSeq(s), w.since), w.since, first));
    B.Answers(CommittedSeq(s), Report(first), CommittedSeq(after), clean, Report(second))
  }

  /** The loop's section from its first step to its end. */
  function WholeSection(s: State, slot: nat, w: B.Uncommitted, clean: bool, first: Outcome, second: Outcome): State {
    var s' := CommitEarlier(s, slot, w, first);
    if InSection(s', slot) then CommitWindow(s', slot, w, clean, second) else s'
  }

  lemma WindowEnds(s: State, slot: nat, w: B.Uncommitted, clean: bool, outcome: Outcome)
    ensures var s' := CommitWindow(s, slot, w, clean, outcome);
      && (s'.boundary, s'.stream) ==
        B.SectionEnd(s.boundary, s.stream, w, B.Answers(w.since, B.Threw, 0, clean, Report(outcome)), s.operatorPaused)
      && slot !in s'.calls
      && s'.book.consumed == (if clean && B.Succeeded(Report(outcome)) then Max(s.book.consumed, w.until) else s.book.consumed)
      && s'.book.windows == s.book.windows + (if clean && Lands(outcome) then [w] else [])
  {
    hide WQ.Settle;
  }

  lemma SectionFails(s: State, slot: nat, w: B.Uncommitted, a: B.Answers)
    requires !B.ReachesPublish(w, a)
    ensures var s' := FailSection(s, slot, w);
      (s'.boundary, s'.stream) == B.SectionEnd(s.boundary, s.stream, w, a, s.operatorPaused) && slot !in s'.calls && s'.book == s.book
  {
    hide WQ.Settle;
  }

  /**
   * The loop's two steps and `ProposalBoundary.CommitSection` are one thing: boundary and
   * stream end alike, and the window is consumed and its commit made accordingly.
   */
  lemma SectionIsTheLoops(s: State, slot: nat, w: B.Uncommitted, clean: bool, first: Outcome, second: Outcome)
    requires slot in s.calls && s.calls[slot] == Committing(w, false)
    ensures var s', a := WholeSection(s, slot, w, clean, first, second), AnswersOf(s, w, clean, first, second);
      && (s'.boundary, s'.stream) == B.SectionEnd(s.boundary, s.stream, w, a, s.operatorPaused)
      && slot !in s'.calls
      && s'.book.consumed == (if B.ReachesPublish(w, a) && B.Succeeded(a.window) then Max(s.book.consumed, w.until) else s.book.consumed)
      && s'.book.windows == s.book.windows + (if B.ReachesPublish(w, a) && Lands(second) then [w] else [])
  {
    hide CommitWindow, FailSection, B.SectionEnd, Publish, Report;
    var a := AnswersOf(s, w, clean, first, second);
    var first' := s.(book := Ordinary(s.book, Range(CommittedSeq(s), w.since), w.since, first));
    assert first'.book.windows == s.book.windows && first'.book.consumed == s.book.consumed by { OrdinaryMakesNoWindow(s.book, Range(CommittedSeq(s), w.since), w.since, first); }
    var ready := Ready(if a.committed < w.since then first' else s, slot, w);
    WindowEnds(ready, slot, w, clean, second);
    if B.ReachesPublish(w, a) || !clean { EndsAlike(s, w, a, clean, second); }
    if !B.ReachesPublish(w, a) {
      SectionFails(s, slot, w, a);
      SectionFails(first', slot, w, a);
    }
  }

  lemma OrdinaryMakesNoWindow(b: Book, events: set<nat>, upto: nat, outcome: Outcome)
    ensures Ordinary(b, events, upto, outcome).windows == b.windows && Ordinary(b, events, upto, outcome).consumed == b.consumed
  {
  }

  /** A section that gets to its window, or would but for the tree, ends as if it had begun there. */
  lemma EndsAlike(s: State, w: B.Uncommitted, a: B.Answers, clean: bool, second: Outcome)
    requires a.clean == clean && a.window == Report(second)
    requires B.ReachesPublish(w, a) || !clean
    ensures B.SectionEnd(s.boundary, s.stream, w, a, s.operatorPaused)
      == B.SectionEnd(s.boundary, s.stream, w, B.Answers(w.since, B.Threw, 0, clean, Report(second)), s.operatorPaused)
  {
  }

  lemma RetryIsTheLoops(s: State, slot: nat, u: B.Uncommitted, clean: bool, outcome: Outcome)
    ensures var s' := FinishRetry(s, slot, u, clean, outcome);
      && (s'.boundary, s'.stream) == B.RetryEnd(s.boundary, s.stream, u, clean, Report(outcome), s.operatorPaused)
      && slot !in s'.calls
      && s'.book.consumed == (if clean && B.Succeeded(Report(outcome)) then Max(s.book.consumed, u.until) else s.book.consumed)
      && s'.book.windows == s.book.windows + (if clean && Lands(outcome) then [u] else [])
  {
    hide WQ.Settle;
  }

  // ---------------------------------------------------------------------------
  // The object's own bookkeeping
  // ---------------------------------------------------------------------------

  /** The fields `LiveLoop` keeps beside its parts, and the methods that update them. */
  class Bookkeeping {
    const stream: CS.Subscription
    var consumedThrough: Option<nat>
    var operatorPaused: bool

    constructor (stream: CS.Subscription)
      ensures this.stream == stream && consumedThrough == None && !operatorPaused
    {
      this.stream := stream;
      consumedThrough, operatorPaused := None, false;
    }

    /** `consumed`, the host's answer to a window that rebuilt. */
    method Consumed(seqNo: nat)
      modifies this`consumedThrough, stream
      ensures consumedThrough == Some(Max(if old(consumedThrough).Some? then old(consumedThrough).value else 0, seqNo))
      ensures stream.State() == CS.MarkApplied(old(stream.State()), seqNo)
    {
      var before := if consumedThrough.Some? then consumedThrough.value else 0;
      consumedThrough := Some(Max(before, seqNo));
      stream.MarkAppliedThrough(seqNo);
    }

    /** The filter at the head of `applyAndRebuild`: what of a batch is still to be applied, in order. */
    method StillToApply(batch: seq<nat>) returns (events: seq<nat>)
      ensures events == if consumedThrough.Some? then Unconsumed(batch, consumedThrough.value) else batch
    {
      if consumedThrough.None? { return batch; }
      var through := consumedThrough.value;
      events := [];
      var i := |batch|;
      while i > 0
        invariant 0 <= i <= |batch| && events == Unconsumed(batch[i..], through)
      {
        i := i - 1;
        assert batch[i..][1..] == batch[i + 1..];
        if batch[i] > through { events := [batch[i]] + events; }
      }
    }

    method PauseByOperator()
      modifies this`operatorPaused, stream
      ensures operatorPaused && stream.State() == CS.Pause(old(stream.State()))
    {
      operatorPaused := true;
      stream.PauseReleases();
    }

    /**
     * Refused outright while a full resync is pending; while a proposal holds the stream only
     * the operator's own pause ends.
     */
    method ResumeByOperator(needsFullResync: bool, holding: bool) returns (resumed: bool)
      modifies this`operatorPaused, stream
      ensures operatorPaused == (old(operatorPaused) && needsFullResync) && resumed == !(needsFullResync || holding)
      ensures stream.State() == if needsFullResync || holding then old(stream.State()) else CS.Resume(old(stream.State()))
    {
      if needsFullResync { return false; }
      operatorPaused := false;
      if holding { return false; }
      stream.ResumeReleases();
      return true;
    }
  }
}
