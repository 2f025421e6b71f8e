/**
 * Concrete runs of the live loop in which a hypothesis is missing, one each, and what then
 * goes wrong: what the theorems of the other modules exclude does happen.
 */
module LoopLimits {
  import opened Prelude
  import opened LiveLoop
  import opened LoopRecord
  import opened LoopSafety
  import opened LoopSegments
  import opened LoopAttribution
  import WQ = WorkQueue
  import CS = ChangeStream
  import B = Boundary

  // ---------------------------------------------------------------------------
  // Stepping through a run
  // ---------------------------------------------------------------------------

  /** The first `i` steps lead to `s`, and, where asked for, each was allowed. */
  ghost predicate At(host: Host, steps: seq<Step>, i: nat, s: State, allowed: bool) {
    && i <= |steps| && Run(Init(host), steps[..i]) == s
    && (allowed ==> AllowedRun(Init(host), steps[..i]))
  }

  lemma Take(host: Host, steps: seq<Step>, i: nat, s: State, s': State, allowed: bool)
    requires At(host, steps, i, s, allowed) && i < |steps| && Next(s, steps[i]) == s'
    requires allowed ==> Allowed(s, steps[i])
    ensures At(host, steps, i + 1, s', allowed)
  {
    hide Next, Allowed;
    assert steps[..i+1][..i] == steps[..i];
    if allowed {
      var more := steps[..i+1];
      forall j | 0 <= j < |more| ensures Allowed(Run(Init(host), more[..j]), more[j]) {
        assert j < i ==> more[..j] == steps[..i][..j] && more[j] == steps[..i][j];
      }
    }
  }

  lemma Starts(host: Host, steps: seq<Step>)
    ensures At(host, steps, 0, Init(host), true)
  {
  }

  lemma Arrives(host: Host, steps: seq<Step>, s: State, allowed: bool)
    requires At(host, steps, |steps|, s, allowed)
    ensures Run(Init(host), steps) == s && (allowed ==> AllowedRun(Init(host), steps))
  {
    hide Run, AllowedRun;
    assert steps[..|steps|] == steps;
  }

  /** What the queue does when nothing waits. */
  lemma SmallSubmit(q: WQ.Queue<Job>, e: WQ.Entry<Job>)
    requires !q.blocked && q.pending == []
    ensures WQ.Submit(q, e, AbsorbJob) ==
      ((if q.draining then q.(pending := [e]) else q.(running := Some(e), draining := true)), WQ.Accepted)
  {
    assert q.pending + [e] == [e];
    assert WQ.Absorber(q.pending, e, AbsorbJob) == 0;
    if !q.draining { PumpOne(q.(pending := [e], draining := true), e); }
  }

  lemma PumpOne(q: WQ.Queue<Job>, e: WQ.Entry<Job>)
    requires q.pending == [e] && !q.blocked
    ensures WQ.Pump(q) == q.(running := Some(e), pending := [])
  {
    assert [e][..0] + [e][1..] == [] && WQ.FirstEligible([e], false) == 0;
  }

  lemma SmallSettle(q: WQ.Queue<Job>, ok: bool)
    requires !q.blocked && |q.pending| <= 1
    ensures WQ.Settle(q, ok) == WQ.Queue([], if q.pending == [] then None else Some(q.pending[0]), false,
                                         q.pending != [] && q.draining, q.completed + if ok then 1 else 0)
  {
    var resting := q.(running := None, completed := q.completed + if ok then 1 else 0);
    if q.pending != [] {
      assert q.pending == [q.pending[0]];
      PumpOne(resting, q.pending[0]);
    }
  }

  lemma SettleFront(q: WQ.Queue<Job>, ok: bool)
    requires !q.blocked && q.pending != []
    ensures WQ.Settle(q, ok) == q.(running := Some(q.pending[0]), pending := q.pending[1..], completed := q.completed + if ok then 1 else 0)
  {
    assert q.pending[..0] + q.pending[1..] == q.pending[1..];
    assert WQ.FirstEligible(q.pending, false) == 0;
  }

  /** A task behind one that does not take it in. */
  lemma SubmitBehind(q: WQ.Queue<Job>, first: WQ.Entry<Job>, e: WQ.Entry<Job>)
    requires !q.blocked && q.draining && q.pending == [first] && first.kind != e.kind
    ensures WQ.Submit(q, e, AbsorbJob) == (q.(pending := [first, e]), WQ.Accepted)
  {
    assert q.pending[1..] == [] && q.pending + [e] == [first, e];
    assert WQ.Absorber(q.pending, e, AbsorbJob) == 1;
  }

  // ---------------------------------------------------------------------------
  // Single steps
  // ---------------------------------------------------------------------------

  lemma EnterIs(s: State, slot: nat, proposal: nat)
    ensures Next(s, EnterCommit(slot, proposal)) ==
      if slot in s.calls || B.Busy(s.boundary, proposal) then s else s.(calls := s.calls[slot := Asked(proposal)])
  {
    hide Release, Proceed, EnterSection, AllRejected, SubmitJob, FinishApply, FinishOwn, FinishRetry, RunningSection;
  }

  lemma AnswerIs(s: State, slot: nat, sinceSeq: Option<nat>)
    requires slot in s.calls && s.calls[slot].Asked?
    ensures Next(s, Answered(slot, false, sinceSeq)) == Proceed(s, slot, s.calls[slot].proposal, false, sinceSeq)
  {
    hide Release, Proceed, EnterSection, AllRejected, SubmitJob, FinishApply, FinishOwn, FinishRetry, RunningSection;
  }

  lemma WindowIs(s: State, slot: nat, until: nat)
    requires slot in s.calls && s.calls[slot].Waiting? && s.calls[slot].since < until <= s.head
    ensures Next(s, SubmitWindow(slot, until, true)) == EnterSection(s, slot, B.Uncommitted(s.calls[slot].proposal, s.calls[slot].since, until), true)
  {
    hide Release, Proceed, EnterSection, AllRejected, SubmitJob, FinishApply, FinishOwn, FinishRetry, RunningSection;
  }

  lemma SectionIs(s: State, clean: bool, outcome: Outcome)
    requires RunsSection(s)
    ensures Next(s, RunSection(clean, outcome)) == RunningSection(s, RunningJob(s).value.slot, clean, outcome)
  {
    hide Release, Proceed, EnterSection, AllRejected, SubmitJob, FinishApply, FinishOwn, FinishRetry, RunningSection;
  }

  lemma RetryIs(s: State, outcome: Outcome)
    requires RunsRetry(s)
    ensures Next(s, RunRetry(true, outcome)) == FinishRetry(s, RunningJob(s).value.slot, RunningCall(s).window, true, outcome)
  {
    hide Release, Proceed, EnterSection, AllRejected, SubmitJob, FinishApply, FinishOwn, FinishRetry, RunningSection;
  }

  lemma OwnIs(s: State, outcome: Outcome)
    requires RunningJob(s).Some? && RunningJob(s).value.OwnJob?
    ensures Next(s, RunOwn(outcome)) == FinishOwn(s, RunningJob(s).value.work, outcome)
  {
    hide Release, Proceed, EnterSection, AllRejected, SubmitJob, FinishApply, FinishOwn, FinishRetry, RunningSection;
  }

  lemma BatchIs(s: State, outcome: Outcome)
    requires RunningJob(s).Some? && RunningJob(s).value.ApplyJob?
    ensures Next(s, RunApply(outcome)) == FinishApply(s, RunningJob(s).value.batch, outcome)
  {
    hide Release, Proceed, EnterSection, AllRejected, SubmitJob, FinishApply, FinishOwn, FinishRetry, RunningSection;
  }

  lemma SubmitIs(s: State, kind: WQ.Kind, work: Work)
    requires !kind.Apply? && !kind.Proposal?
    ensures Next(s, SubmitOwn(kind, work)) == SubmitJob(s, kind, OwnJob(work)).0
  {
    hide Release, Proceed, EnterSection, AllRejected, SubmitJob, FinishApply, FinishOwn, FinishRetry, RunningSection;
  }

  lemma FireIs(s: State)
    requires s.stream.armed
    ensures Next(s, TimerFires) == Release(s)
  {
    hide Release, Proceed, EnterSection, AllRejected, SubmitJob, FinishApply, FinishOwn, FinishRetry, RunningSection;
  }

  /** The journal grows, a connection is made, an event delivered. */
  lemma FeedIs(s: State)
    ensures Next(s, Append) == s.(head := s.head + 1) && Next(s, Connect) == s.(cursor := Some(s.stream.applied))
    ensures s.cursor.Some? && s.cursor.value < s.head ==>
      Next(s, Deliver) == s.(stream := CS.Handle(s.stream, s.cursor.value + 1), cursor := Some(s.cursor.value + 1))
  {
    hide Release, Proceed, EnterSection, AllRejected, SubmitJob, FinishApply, FinishOwn, FinishRetry, RunningSection;
  }

  lemma BoundaryIs(s: State, proposal: nat)
    ensures Next(s, BeginProposal(proposal, true)) == Steer(s, B.Begin(s.boundary, proposal, Some(s.head)).0, B.Begin(s.boundary, proposal, Some(s.head)).1)
    ensures Next(s, AbortProposal(proposal)) == Steer(s, B.Abort(s.boundary, proposal).0, B.Abort(s.boundary, proposal).1)
    ensures s.boundary.hold.Some? ==>
      var (b, c) := B.Expire(s.boundary, s.boundary.hold.value.proposal); Next(s, HoldExpires) == Steer(s, b, c)
  {
    hide Release, Proceed, EnterSection, AllRejected, SubmitJob, FinishApply, FinishOwn, FinishRetry, RunningSection, B.Begin, B.Abort, B.Expire;
  }

  // ---------------------------------------------------------------------------
  // Proposal 7, window 1..1
  // ---------------------------------------------------------------------------

  const W := B.Uncommitted(7, 0, 1)

  function Idle(): WQ.Queue<Job> { WQ.Queue([], None, false, false, 0) }

  function Running(id: nat, kind: WQ.Kind, job: Job): WQ.Queue<Job> {
    WQ.Queue([], Some(WQ.Entry(id, kind, job)), false, true, 0)
  }

  /** Proposal 7 holds the stream from 0; event 1 waits in the stream's queue. */
  function Begun(): seq<Step> { [BeginProposal(7, true), Append, Connect, Deliver] }

  function Held7(host: Host): State {
    Init(host).(head := 1, stream := CS.Stream(0, [1], [], false, true, true), cursor := Some(1),
                    boundary := B.State.State(Some(B.Hold(7, 0)), None))
  }

  /** ... whatever the queue is doing. */
  lemma BeginSteps(host: Host, s: State)
    requires s == Init(host).(queue := s.queue, nextId := s.nextId)
    ensures Next(Next(Next(Next(s, BeginProposal(7, true)), Append), Connect), Deliver) == Held7(host).(queue := s.queue, nextId := s.nextId)
  {
    hide Next;
    BoundaryIs(s, 7);
    var s1 := s.(stream := CS.Stream(0, [], [], false, true, false), boundary := Held7(host).boundary);
    assert Next(s, BeginProposal(7, true)) == s1;
    FeedIs(s1);
    var s2 := s1.(head := 1);
    FeedIs(s2);
    var s3 := s2.(cursor := Some(0));
    assert Next(s2, Connect) == s3;
    FeedIs(s3);
  }

  lemma BeginsAt(host: Host, steps: seq<Step>, i: nat, s: State)
    requires At(host, steps, i, s, true) && s == Init(host).(queue := s.queue, nextId := s.nextId)
    requires i + 4 <= |steps| && steps[i..i+4] == Begun()
    ensures At(host, steps, i + 4, Held7(host).(queue := s.queue, nextId := s.nextId), true)
  {
    hide At, Next, Held7, Init;
    assert steps[i..i+4][0] == steps[i] && steps[i..i+4][1] == steps[i+1] && steps[i..i+4][2] == steps[i+2] && steps[i..i+4][3] == steps[i+3];
    var s1 := Next(s, BeginProposal(7, true));
    Take(host, steps, i, s, s1, true);
    var s2 := Next(s1, Append);
    Take(host, steps, i + 1, s1, s2, true);
    var s3 := Next(s2, Connect);
    Take(host, steps, i + 2, s2, s3, true);
    BeginSteps(host, s);
    Take(host, steps, i + 3, s3, Held7(host).(queue := s.queue, nextId := s.nextId), true);
  }

  lemma Begins(host: Host, steps: seq<Step>)
    requires Begun() <= steps
    ensures At(host, steps, 4, Held7(host), true)
  {
    hide At;
    Starts(host, steps);
    BeginsAt(host, steps, 0, Init(host));
  }

  /** Its section is submitted, and gets to its window. */
  function Submitted(): seq<Step> {
    [EnterCommit(0, 7), Answered(0, false, None), SubmitWindow(0, 1, true), RunSection(true, Committed)]
  }

  function AtWindow(host: Host): State {
    Held7(host).(queue := Running(0, WQ.Proposal, ProposalJob(0)), nextId := 1, calls := map[0 := Committing(W, true)])
  }

  /** The call gets from the hold to waiting for its window. */
  lemma Enters(s: State, since: Option<nat>)
    requires s.calls == map[] && s.boundary.unattributed.None? && s.book.windows == []
    requires if since.Some? then s.boundary.hold.None? else s.boundary.hold == Some(B.Hold(7, 0))
    requires since.Some? ==> since.value == 0
    ensures Next(Next(s, EnterCommit(0, 7)), Answered(0, false, since)) == s.(calls := map[0 := Waiting(7, 0)])
    ensures Allowed(s, EnterCommit(0, 7))
  {
    hide Next;
    EnterIs(s, 0, 7);
    var asked := s.(calls := map[0 := Asked(7)]);
    assert Next(s, EnterCommit(0, 7)) == asked;
    AnswerIs(asked, 0, since);
  }

  lemma SubmitSteps(host: Host)
    ensures Next(Held7(host).(calls := map[0 := Waiting(7, 0)]), SubmitWindow(0, 1, true)) == AtWindow(host).(calls := map[0 := Committing(W, false)])
    ensures Next(AtWindow(host).(calls := map[0 := Committing(W, false)]), RunSection(true, Committed)) == AtWindow(host)
  {
    hide WQ.Submit, Next, CommitWindow, FailSection;
    SmallSubmit(Held7(host).queue, WQ.Entry(0, WQ.Proposal, ProposalJob(0)));
    WindowIs(Held7(host).(calls := map[0 := Waiting(7, 0)]), 0, 1);
    SectionIs(AtWindow(host).(calls := map[0 := Committing(W, false)]), true, Committed);
  }

  lemma Submits(host: Host, steps: seq<Step>)
    requires Begun() + Submitted() <= steps
    ensures At(host, steps, 8, AtWindow(host), true)
  {
    hide At, Next;
    FirstEight(steps);
    Begins(host, steps);
    SubmitSteps(host);
    var s4, s7 := Held7(host), AtWindow(host).(calls := map[0 := Committing(W, false)]);
    Enters(s4, None);
    var s5, s6 := Next(s4, EnterCommit(0, 7)), s4.(calls := map[0 := Waiting(7, 0)]);
    Take(host, steps, 4, s4, s5, true);
    Take(host, steps, 5, s5, s6, true);
    Take(host, steps, 6, s6, s7, true);
    Take(host, steps, 7, s7, AtWindow(host), true);
  }

  lemma FirstEight(steps: seq<Step>)
    requires Begun() + Submitted() <= steps
    ensures Begun() <= steps && |steps| >= 8
    ensures steps[4] == EnterCommit(0, 7) && steps[5] == Answered(0, false, None)
    ensures steps[6] == SubmitWindow(0, 1, true) && steps[7] == RunSection(true, Committed)
  {
    var all := Begun() + Submitted();
    assert steps[4] == all[4] && steps[5] == all[5] && steps[6] == all[6] && steps[7] == all[7];
    assert Begun() <= all;
  }

  // ---------------------------------------------------------------------------
  // The publish throws after its commit
  // ---------------------------------------------------------------------------

  /**
   * The window is committed, then the publish throws: nothing is marked consumed, the stream
   * is released, and an ordinary batch applies the window again.
   */
  function ThrownAfterCommit(): seq<Step> {
    Begun() + Submitted() + [RunSection(true, ThrewLanded), TimerFires, RunApply(Unchanged)]
  }

  function LandedUnmarked(): Book { Book({1}, 1, {1}, 1, 0, {}, [W], [Segment(Some(W), 0, 1, {1}, true)]) }

  lemma LandsAndThrows()
    ensures Publish(BLANK, Range(0, 1), 1, Some(W), ThrewLanded) == LandedUnmarked()
  {
    assert Range(0, 1) == {1};
  }

  lemma AppliedOnceMore(b: Book, outcome: Outcome)
    requires Applies(outcome) && b.consumed == 0
    ensures Unconsumed([1], b.consumed) == [1] && Elems([1]) == {1} && MaxOf(0, [1]) == 1
    ensures Ordinary(b, {1}, 1, outcome).ordinary == b.ordinary + {1} && Ordinary(b, {1}, 1, outcome).windows == b.windows
  {
  }

  lemma TakenTwice(b: Book)
    requires 1 in b.ordinary && W in b.windows
    ensures !AttributionSafe(b)
  {
    assert InWindow(1, W) && Reaches(b.ordinary, W);
  }

  /** In an allowed run attribution fails when a publish throws after its commit. */
  lemma AttributionNeedsTheMark()
    ensures AllowedRun(Init(MainLoop), ThrownAfterCommit())
    ensures !AttributionSafe(Run(Init(MainLoop), ThrownAfterCommit()).book)
  {
    hide At, Run, WQ.Submit, WQ.Settle, FinishOwn, FinishRetry, AllRejected, CommitEarlier, Publish, Ordinary, AttributionSafe, AllowedRun;
    var steps := ThrownAfterCommit();
    Submits(MainLoop, steps);
    var s8 := AtWindow(MainLoop);
    var s9 := Held7(MainLoop).(stream := CS.Stream(0, [1], [], false, false, true), boundary := B.State.State(None, None), nextId := 1, book := LandedUnmarked());
    LandsAndThrows();
    SmallSettle(s8.queue, false);
    Take(MainLoop, steps, 8, s8, s9, true);
    var s10 := s9.(stream := CS.Stream(0, [], [1], true, false, false), queue := Running(1, WQ.Apply, ApplyJob([1])), nextId := 2);
    SmallSubmit(s9.queue, WQ.Entry(1, WQ.Apply, ApplyJob([1])));
    Take(MainLoop, steps, 9, s9, s10, true);
    AppliedOnceMore(s10.book, Unchanged);
    var s11 := Next(s10, RunApply(Unchanged));
    Take(MainLoop, steps, 10, s10, s11, true);
    TakenTwice(s11.book);
    Arrives(MainLoop, steps, s11, true);
  }

  // ---------------------------------------------------------------------------
  // The stream is released under a section that then fails
  // ---------------------------------------------------------------------------

  /** Event 1 has been applied for proposal 7, whose generation failed; an ordinary batch with it is next. */
  function BatchNext(id: nat, done: nat): State {
    Held7(MainLoop).(stream := CS.Stream(0, [], [1], true, false, false), boundary := B.State.State(None, Some(W)),
             queue := Running(id, WQ.Apply, ApplyJob([1])).(completed := done), nextId := id + 1, book := BLANK.(model := {1}, modelSeq := 1))
  }

  function Retried(): seq<Step> {
    [RunApply(Committed), EnterCommit(0, 7), Answered(0, false, None), RunRetry(true, Committed)]
  }

  lemma FailsAfterApplying()
    ensures Publish(BLANK, Range(0, 1), 1, Some(W), GenerationFailed) == BLANK.(model := {1}, modelSeq := 1)
  {
    assert Range(0, 1) == {1};
  }

  function BatchDone(id: nat, done: nat): State {
    BatchNext(id, done).(stream := CS.Stream(1, [], [], false, false, false), queue := Idle().(completed := done + 1), book := Ordinary(BatchNext(id, done).book, {1}, 1, Committed))
  }

  function RetryNext(id: nat, done: nat): State {
    BatchDone(id, done).(calls := map[0 := Retrying(W)], nextId := id + 2,
                   queue := WQ.Queue([], Some(WQ.Entry(id + 1, WQ.Proposal, RetryJob(0))), false, true, done + 1))
  }

  lemma BatchRuns(id: nat, done: nat)
    ensures Next(BatchNext(id, done), RunApply(Committed)) == BatchDone(id, done)
  {
    hide WQ.Settle, Ordinary, Unconsumed;
    SmallSettle(BatchNext(id, done).queue, true);
    AppliedOnceMore(BatchNext(id, done).book, Committed);
  }

  lemma RetryEntered(id: nat, done: nat)
    ensures Next(Next(BatchDone(id, done), EnterCommit(0, 7)), Answered(0, false, None)) == RetryNext(id, done)
  {
    hide WQ.Submit;
    SmallSubmit(BatchDone(id, done).queue, WQ.Entry(id + 1, WQ.Proposal, RetryJob(0)));
    var s := BatchDone(id, done).(calls := map[0 := Asked(7)]);
    assert Next(BatchDone(id, done), EnterCommit(0, 7)) == s;
    assert s.book.windows == [];
  }

  lemma RetryRuns(id: nat, done: nat)
    ensures var b := Next(RetryNext(id, done), RunRetry(true, Committed)).book; 1 in b.ordinary && W in b.windows
  {
    hide WQ.Settle, Publish;
    AppliedOnceMore(BatchNext(id, done).book, Committed);
    RetryMakesWindow(RetryNext(id, done).book);
  }

  /** The batch applies the event, and the retry commits it as the contributor's, too. */
  lemma RetryOverlaps(steps: seq<Step>, i: nat, id: nat, done: nat)
    requires At(MainLoop, steps, i, BatchNext(id, done), false) && i + 4 == |steps| && steps[i..] == Retried()
    ensures !AttributionSafe(Run(Init(MainLoop), steps).book)
  {
    hide At, Run, Next, AttributionSafe, BatchNext, BatchDone, RetryNext;
    assert steps[i] == steps[i..][0] && steps[i+1] == steps[i..][1] && steps[i+2] == steps[i..][2] && steps[i+3] == steps[i..][3];
    BatchRuns(id, done);
    Take(MainLoop, steps, i, BatchNext(id, done), BatchDone(id, done), false);
    var asked := Next(BatchDone(id, done), EnterCommit(0, 7));
    Take(MainLoop, steps, i + 1, BatchDone(id, done), asked, false);
    RetryEntered(id, done);
    Take(MainLoop, steps, i + 2, asked, RetryNext(id, done), false);
    var s4 := Next(RetryNext(id, done), RunRetry(true, Committed));
    RetryRuns(id, done);
    Take(MainLoop, steps, i + 3, RetryNext(id, done), s4, false);
    TakenTwice(s4.book);
    Arrives(MainLoop, steps, s4, false);
  }

  lemma RetryMakesWindow(b: Book)
    ensures var b' := Publish(b, {}, 0, Some(W), Committed); b'.windows == b.windows + [W] && b'.ordinary == b.ordinary
  {
  }

  /** The hold expires while the section runs. */
  function ExpiryDuringSection(): seq<Step> {
    Begun() + Submitted() + [HoldExpires, TimerFires, RunSection(true, GenerationFailed)] + Retried()
  }

  /** Without a hold that outlives the section attribution fails. */
  lemma AttributionNeedsTheHold()
    ensures !AttributionSafe(Run(Init(MainLoop), ExpiryDuringSection()).book)
  {
    hide At, Run, Next, AttributionSafe, AtWindow, BatchNext;
    var steps := ExpiryDuringSection();
    Submits(MainLoop, steps);
    Weaken(steps, 8, AtWindow(MainLoop));
    var s9 := Next(AtWindow(MainLoop), HoldExpires);
    Take(MainLoop, steps, 8, AtWindow(MainLoop), s9, false);
    var s10 := Next(s9, TimerFires);
    Take(MainLoop, steps, 9, s9, s10, false);
    ExpiresAndFails();
    Take(MainLoop, steps, 10, s10, BatchNext(1, 0), false);
    assert steps[11..] == Retried();
    RetryOverlaps(steps, 11, 1, 0);
  }

  lemma ExpiresAndFails()
    ensures Next(Next(Next(AtWindow(MainLoop), HoldExpires), TimerFires), RunSection(true, GenerationFailed)) == BatchNext(1, 0)
  {
    hide WQ.Submit, WQ.Settle, Next, CommitEarlier, Publish;
    var s8, e := AtWindow(MainLoop), WQ.Entry(1, WQ.Apply, ApplyJob([1]));
    BoundaryIs(s8, 7);
    var s9 := s8.(stream := CS.Stream(0, [1], [], false, false, true), boundary := B.State.State(None, None));
    assert Next(s8, HoldExpires) == s9;
    SmallSubmit(s9.queue, e);
    FireIs(s9);
    var s10 := s9.(stream := CS.Stream(0, [], [1], true, false, false), queue := s9.queue.(pending := [e]), nextId := 2);
    assert Next(s9, TimerFires) == s10;
    SettleFront(s10.queue, false);
    assert [e][1..] == [];
    FailsAfterApplying();
    SectionIs(s10, true, GenerationFailed);
  }

  lemma Weaken(steps: seq<Step>, i: nat, s: State)
    requires At(MainLoop, steps, i, s, true)
    ensures At(MainLoop, steps, i, s, false)
  {
  }

  /**
   * The section waits behind a measurement when the hold ends - expired, or given up - and
   * nothing happens while it runs: the batch released meanwhile is behind it.
   */
  function HoldEndsWhileWaiting(end: Step): seq<Step> {
    [SubmitOwn(WQ.Measure, NoRebuild)] + Begun() + [EnterCommit(0, 7), Answered(0, false, None), SubmitWindow(0, 1, true)]
    + [end, TimerFires, RunOwn(Unchanged), RunSection(true, Committed), RunSection(true, GenerationFailed)] + Retried()
  }

  const MEASURE := WQ.Entry(0, WQ.Measure, OwnJob(NoRebuild))
  const SECTION := WQ.Entry(1, WQ.Proposal, ProposalJob(0))
  const BATCH := WQ.Entry(2, WQ.Apply, ApplyJob([1]))

  function Measuring(): WQ.Queue<Job> { WQ.Queue([], Some(MEASURE), false, true, 0) }

  /** The section waits, under its hold. */
  function SectionWaits(): State {
    Held7(MainLoop).(queue := Measuring().(pending := [SECTION]), nextId := 2, calls := map[0 := Committing(W, false)])
  }

  lemma SectionGetsToWait(end: Step)
    ensures At(MainLoop, HoldEndsWhileWaiting(end), 8, SectionWaits(), true)
  {
    hide At, Next, WQ.Submit;
    var steps := HoldEndsWhileWaiting(end);
    Starts(MainLoop, steps);
    var s1 := Init(MainLoop).(queue := Measuring(), nextId := 1);
    SubmitIs(Init(MainLoop), WQ.Measure, NoRebuild);
    SmallSubmit(Init(MainLoop).queue, MEASURE);
    Take(MainLoop, steps, 0, Init(MainLoop), s1, true);
    assert steps[1..5] == Begun();
    BeginsAt(MainLoop, steps, 1, s1);
    var s5 := Held7(MainLoop).(queue := Measuring(), nextId := 1);
    Enters(s5, None);
    var s6 := Next(s5, EnterCommit(0, 7));
    Take(MainLoop, steps, 5, s5, s6, true);
    var s7 := s5.(calls := map[0 := Waiting(7, 0)]);
    Take(MainLoop, steps, 6, s6, s7, true);
    SmallSubmit(s7.queue, SECTION);
    WindowIs(s7, 0, 1);
    Take(MainLoop, steps, 7, s7, SectionWaits(), true);
  }

  /** The hold is gone and the batch is behind the section. */
  function BatchWaits(): State {
    SectionWaits().(stream := CS.Stream(0, [], [1], true, false, false), boundary := B.State.State(None, None),
                    queue := Measuring().(pending := [SECTION, BATCH]), nextId := 3)
  }

  lemma HoldEnds(end: Step)
    requires end == HoldExpires || end == AbortProposal(7)
    ensures Next(Next(SectionWaits(), end), TimerFires) == BatchWaits()
  {
    hide WQ.Submit, Next;
    var s := SectionWaits().(stream := CS.Stream(0, [1], [], false, false, true), boundary := B.State.State(None, None));
    BoundaryIs(SectionWaits(), 7);
    assert Next(SectionWaits(), end) == s;
    FireIs(s);
    SubmitBehind(s.queue, SECTION, BATCH);
  }

  /** The measurement is over; the section gets to its window and its publish fails after applying. */
  lemma SectionRuns()
    ensures Next(Next(Next(BatchWaits(), RunOwn(Unchanged)), RunSection(true, Committed)), RunSection(true, GenerationFailed)) == BatchNext(2, 1)
  {
    hide WQ.Settle, Next, Publish, FailSection;
    var s10 := BatchWaits();
    OwnIs(s10, Unchanged);
    SettleFront(s10.queue, true);
    assert [SECTION, BATCH][1..] == [BATCH];
    var s11 := s10.(queue := WQ.Queue([BATCH], Some(SECTION), false, true, 1));
    SectionIs(s11, true, Committed);
    var s12 := s11.(calls := map[0 := Committing(W, true)]);
    assert Next(s11, RunSection(true, Committed)) == s12;
    SectionIs(s12, true, GenerationFailed);
    SettleFront(s12.queue, false);
    assert [BATCH][1..] == [];
    FailsAfterApplying();
  }

  /** A hold that ends while the section still waits breaks attribution as well. */
  lemma AttributionNeedsTheWait(end: Step)
    requires end == HoldExpires || end == AbortProposal(7)
    ensures !AttributionSafe(Run(Init(MainLoop), HoldEndsWhileWaiting(end)).book)
  {
    hide At, Run, Next, AttributionSafe, SectionWaits, BatchWaits, BatchNext;
    var steps := HoldEndsWhileWaiting(end);
    SectionGetsToWait(end);
    Weaken(steps, 8, SectionWaits());
    var s9 := Next(SectionWaits(), end);
    Take(MainLoop, steps, 8, SectionWaits(), s9, false);
    HoldEnds(end);
    Take(MainLoop, steps, 9, s9, BatchWaits(), false);
    var s11 := Next(BatchWaits(), RunOwn(Unchanged));
    Take(MainLoop, steps, 10, BatchWaits(), s11, false);
    var s12 := Next(s11, RunSection(true, Committed));
    Take(MainLoop, steps, 11, s11, s12, false);
    SectionRuns();
    Take(MainLoop, steps, 12, s12, BatchNext(2, 1), false);
    assert steps[13..] == Retried();
    RetryOverlaps(steps, 13, 2, 1);
  }

  /** No hold at all: the caller gives the window's start. */
  function Unheld(): seq<Step> {
    [Append, Connect, Deliver, EnterCommit(0, 7), Answered(0, false, Some(0)), SubmitWindow(0, 1, true)]
    + [TimerFires, RunSection(true, Committed), RunSection(true, GenerationFailed)] + Retried()
  }

  /** The section runs, and nothing holds the stream. */
  function UnheldSection(): State {
    Init(MainLoop).(head := 1, cursor := Some(1), stream := CS.Stream(0, [1], [], false, false, true),
                    queue := Running(0, WQ.Proposal, ProposalJob(0)), nextId := 1, calls := map[0 := Committing(W, false)])
  }

  lemma UnheldSubmits()
    ensures At(MainLoop, Unheld(), 6, UnheldSection(), false)
  {
    hide At, Next, WQ.Submit;
    var steps := Unheld();
    Starts(MainLoop, steps);
    Weaken(steps, 0, Init(MainLoop));
    var s0 := Init(MainLoop);
    var s1 := s0.(head := 1);
    var s2 := s1.(cursor := Some(0));
    FeedIs(s0);
    Take(MainLoop, steps, 0, s0, s1, false);
    FeedIs(s1);
    Take(MainLoop, steps, 1, s1, s2, false);
    FeedIs(s2);
    var s3 := UnheldSection().(queue := WQ.Empty(), nextId := 0, calls := map[]);
    Take(MainLoop, steps, 2, s2, s3, false);
    Enters(s3, Some(0));
    var s4 := Next(s3, EnterCommit(0, 7));
    Take(MainLoop, steps, 3, s3, s4, false);
    var s5 := s3.(calls := map[0 := Waiting(7, 0)]);
    Take(MainLoop, steps, 4, s4, s5, false);
    SmallSubmit(s5.queue, WQ.Entry(0, WQ.Proposal, ProposalJob(0)));
    WindowIs(s5, 0, 1);
    Take(MainLoop, steps, 5, s5, UnheldSection(), false);
  }

  lemma UnheldRuns()
    ensures Next(Next(Next(UnheldSection(), TimerFires), RunSection(true, Committed)), RunSection(true, GenerationFailed)) == BatchNext(1, 0)
  {
    hide WQ.Submit, WQ.Settle, Next, Publish, FailSection;
    var s6, e := UnheldSection(), WQ.Entry(1, WQ.Apply, ApplyJob([1]));
    SmallSubmit(s6.queue, e);
    FireIs(s6);
    var s7 := s6.(stream := CS.Stream(0, [], [1], true, false, false), queue := s6.queue.(pending := [e]), nextId := 2);
    assert Next(s6, TimerFires) == s7;
    SectionIs(s7, true, Committed);
    var s8 := s7.(calls := map[0 := Committing(W, true)]);
    assert Next(s7, RunSection(true, Committed)) == s8;
    SectionIs(s8, true, GenerationFailed);
    SettleFront(s8.queue, false);
    assert [e][1..] == [];
    FailsAfterApplying();
  }

  /** A section submitted without a hold breaks attribution. */
  lemma AttributionNeedsAHold()
    ensures !AttributionSafe(Run(Init(MainLoop), Unheld()).book)
  {
    hide At, Run, Next, AttributionSafe, UnheldSection, BatchNext;
    var steps := Unheld();
    UnheldSubmits();
    var s7 := Next(UnheldSection(), TimerFires);
    Take(MainLoop, steps, 6, UnheldSection(), s7, false);
    var s8 := Next(s7, RunSection(true, Committed));
    Take(MainLoop, steps, 7, s7, s8, false);
    UnheldRuns();
    Take(MainLoop, steps, 8, s8, BatchNext(1, 0), false);
    assert steps[9..] == Retried();
    RetryOverlaps(steps, 9, 1, 0);
  }

  /** A second call for the proposal: the end of the first gives the hold back under it. */
  function TwoCalls(): seq<Step> {
    Begun() + [EnterCommit(0, 7), EnterCommit(1, 7), Answered(0, false, None), Answered(1, false, None)]
    + [SubmitWindow(0, 1, true), SubmitWindow(1, 1, true), RunSection(true, Committed), RunSection(false, Committed)]
    + [TimerFires, RunSection(true, Committed), RunSection(true, GenerationFailed)] + Retried()
  }

  /** Both sections are submitted; the first gets to its window. */
  function FirstAtWindow(): State {
    Held7(MainLoop).(queue := Running(0, WQ.Proposal, ProposalJob(0)).(pending := [WQ.Entry(1, WQ.Proposal, ProposalJob(1))]), nextId := 2,
             calls := map[0 := Committing(W, true), 1 := Committing(W, false)])
  }

  /** Both calls wait for their window. */
  function BothWait(): State { Held7(MainLoop).(calls := map[0 := Waiting(7, 0), 1 := Waiting(7, 0)]) }

  lemma BothEnter()
    ensures Next(Next(Next(Next(Held7(MainLoop), EnterCommit(0, 7)), EnterCommit(1, 7)), Answered(0, false, None)), Answered(1, false, None)) == BothWait()
  {
    hide Next;
    var s4 := Held7(MainLoop);
    EnterIs(s4, 0, 7);
    var s5 := s4.(calls := map[0 := Asked(7)]);
    EnterIs(s5, 1, 7);
    var s6 := s4.(calls := map[0 := Asked(7), 1 := Asked(7)]);
    AnswerIs(s6, 0, None);
    var s7 := s4.(calls := map[0 := Waiting(7, 0), 1 := Asked(7)]);
    assert Next(s6, Answered(0, false, None)) == s7;
    AnswerIs(s7, 1, None);
  }

  lemma BothEntered()
    ensures At(MainLoop, TwoCalls(), 8, BothWait(), false)
  {
    hide At, Next, Held7, BothWait;
    var steps := TwoCalls();
    Begins(MainLoop, steps);
    Weaken(steps, 4, Held7(MainLoop));
    var s5 := Next(Held7(MainLoop), EnterCommit(0, 7));
    Take(MainLoop, steps, 4, Held7(MainLoop), s5, false);
    var s6 := Next(s5, EnterCommit(1, 7));
    Take(MainLoop, steps, 5, s5, s6, false);
    var s7 := Next(s6, Answered(0, false, None));
    Take(MainLoop, steps, 6, s6, s7, false);
    BothEnter();
    Take(MainLoop, steps, 7, s7, BothWait(), false);
  }

  lemma BothSubmitted()
    ensures At(MainLoop, TwoCalls(), 11, FirstAtWindow(), false)
  {
    hide At, Next, WQ.Submit, CommitWindow, FailSection;
    var steps := TwoCalls();
    BothEntered();
    var s8 := BothWait();
    SmallSubmit(s8.queue, WQ.Entry(0, WQ.Proposal, ProposalJob(0)));
    WindowIs(s8, 0, 1);
    var s9 := s8.(calls := map[0 := Committing(W, false), 1 := Waiting(7, 0)], queue := Running(0, WQ.Proposal, ProposalJob(0)), nextId := 1);
    Take(MainLoop, steps, 8, s8, s9, false);
    SmallSubmit(s9.queue, WQ.Entry(1, WQ.Proposal, ProposalJob(1)));
    WindowIs(s9, 1, 1);
    var s10 := FirstAtWindow().(calls := map[0 := Committing(W, false), 1 := Committing(W, false)]);
    Take(MainLoop, steps, 9, s9, s10, false);
    SectionIs(s10, true, Committed);
    Take(MainLoop, steps, 10, s10, FirstAtWindow(), false);
  }

  /** With two calls at a time attribution fails, though the hold is given back by `finish` alone. */
  lemma AttributionNeedsOneCall()
    ensures !AttributionSafe(Run(Init(MainLoop), TwoCalls()).book)
  {
    hide At, Run, WQ.Submit, WQ.Settle, FinishApply, FinishOwn, FinishRetry, AllRejected, Publish, Ordinary, AttributionSafe, AllowedRun, Proceed, EnterSection;
    var steps := TwoCalls();
    BothSubmitted();
    var s11 := FirstAtWindow();
    SmallSettle(s11.queue, false);
    var s12 := Held7(MainLoop).(queue := Running(1, WQ.Proposal, ProposalJob(1)), nextId := 2, calls := map[1 := Committing(W, false)],
                        boundary := B.State.State(None, None), stream := CS.Stream(0, [1], [], false, false, true));
    assert s11.calls - {0} == s12.calls;
    Take(MainLoop, steps, 11, s11, s12, false);
    SmallSubmit(s12.queue, WQ.Entry(2, WQ.Apply, ApplyJob([1])));
    var s13 := s12.(stream := CS.Stream(0, [], [1], true, false, false), queue := s12.queue.(pending := [WQ.Entry(2, WQ.Apply, ApplyJob([1]))]), nextId := 3);
    Take(MainLoop, steps, 12, s12, s13, false);
    var s14 := s13.(calls := map[1 := Committing(W, true)]);
    Take(MainLoop, steps, 13, s13, s14, false);
    SmallSettle(s14.queue, false);
    FailsAfterApplying();
    Take(MainLoop, steps, 14, s14, BatchNext(2, 0), false);
    assert steps[15..] == Retried();
    RetryOverlaps(steps, 15, 2, 0);
  }

  /** Two begins have held the stream, and the journal has answered the first `heard` of them: once the head, once nothing. */
  function Beginning(heard: nat): State {
    var paused := Init(MainLoop).(stream := CS.Stream(0, [], [], false, true, false), begins := [7, 7]);
    if heard == 0 then paused
    else if heard == 1 then paused.(begins := [7], boundary := B.State.State(Some(B.Hold(7, 0)), None))
    else paused.(begins := [], boundary := B.State.State(Some(B.Hold(7, 0)), None), stream := CS.Stream(0, [], [], false, false, true))
  }

  lemma BeginsAsk()
    ensures Next(Next(Init(MainLoop), BeginAsks(7)), BeginAsks(7)) == Beginning(0)
  {
    hide FinishApply, FinishOwn, RunningSection, FinishRetry, Release, Proceed, EnterSection, AllRejected, SubmitJob;
  }

  lemma BeginsHear()
    ensures Next(Beginning(0), BeginHears(0, Some(0))) == Beginning(1) && Next(Beginning(1), BeginHears(0, None)) == Beginning(2)
  {
    hide FinishApply, FinishOwn, RunningSection, FinishRetry, Release, Proceed, EnterSection, AllRejected, SubmitJob;
  }

  /** Two begins at a time: the one that cannot read the journal releases the stream under the other's hold. */
  lemma HoldNeedsOneBegin()
    ensures var s := Run(Init(MainLoop), [BeginAsks(7), BeginAsks(7), BeginHears(0, Some(0)), BeginHears(0, None)]);
      s.boundary.hold == Some(B.Hold(7, 0)) && !s.stream.paused
  {
    hide At, Next, Run;
    var steps := [BeginAsks(7), BeginAsks(7), BeginHears(0, Some(0)), BeginHears(0, None)];
    Starts(MainLoop, steps);
    Weaken(steps, 0, Init(MainLoop));
    var asked := Next(Init(MainLoop), BeginAsks(7));
    Take(MainLoop, steps, 0, Init(MainLoop), asked, false);
    BeginsAsk();
    Take(MainLoop, steps, 1, asked, Beginning(0), false);
    BeginsHear();
    Take(MainLoop, steps, 2, Beginning(0), Beginning(1), false);
    Take(MainLoop, steps, 3, Beginning(1), Beginning(2), false);
    Arrives(MainLoop, steps, Beginning(2), false);
  }

  // ---------------------------------------------------------------------------
  // The tree behind the model
  // ---------------------------------------------------------------------------

  /** A batch of two is applied, its generation fails, and proposal 7 begins. */
  function TreeFallsBehind(): seq<Step> {
    [Append, Connect, Deliver, Append, Deliver, TimerFires, RunApply(GenerationFailed), BeginProposal(7, true)]
  }

  function Behind(host: Host): State {
    Init(host).(head := 2, stream := CS.Stream(2, [], [], false, true, false), cursor := Some(2), boundary := B.State.State(Some(B.Hold(7, 2)), None),
                queue := Idle().(completed := 1), nextId := 1, book := BLANK.(model := {1, 2}, modelSeq := 2, ordinary := {1, 2}))
  }

  lemma TwoApplied()
    ensures Unconsumed([1, 2], 0) == [1, 2] && Elems([1, 2]) == {1, 2} && MaxOf(0, [1, 2]) == 2
    ensures Ordinary(BLANK, {1, 2}, 2, GenerationFailed) == BLANK.(model := {1, 2}, modelSeq := 2, ordinary := {1, 2})
  {
    assert Unconsumed([2], 0) == [2] && [1, 2][1..] == [2];
    assert MaxOf(0, [2]) == 2;
  }

  /** Both events wait in the stream. */
  function TwoQueued(host: Host): State {
    Init(host).(head := 2, cursor := Some(2), stream := CS.Stream(0, [1, 2], [], false, false, true))
  }

  lemma TwoArrive(host: Host)
    ensures Next(Next(Next(Next(Next(Init(host), Append), Connect), Deliver), Append), Deliver) == TwoQueued(host)
  {
    hide Next;
    var s0 := Init(host);
    FeedIs(s0);
    var s1 := s0.(head := 1);
    FeedIs(s1);
    var s2 := s1.(cursor := Some(0));
    assert Next(s1, Connect) == s2;
    FeedIs(s2);
    var s3 := s0.(head := 1, cursor := Some(1), stream := CS.Stream(0, [1], [], false, false, true));
    assert Next(s2, Deliver) == s3;
    FeedIs(s3);
    var s4 := s3.(head := 2);
    FeedIs(s4);
    assert Next(s4, Deliver) == TwoQueued(host) by { assert [1] + [2] == [1, 2]; }
  }

  lemma TwoDelivered(host: Host, steps: seq<Step>)
    requires TreeFallsBehind() <= steps
    ensures At(host, steps, 5, TwoQueued(host), true)
  {
    hide At, Next, TwoQueued, Init;
    var all := TreeFallsBehind();
    assert steps[0] == all[0] && steps[1] == all[1] && steps[2] == all[2] && steps[3] == all[3] && steps[4] == all[4];
    Starts(host, steps);
    var s1 := Next(Init(host), Append);
    Take(host, steps, 0, Init(host), s1, true);
    var s2 := Next(s1, Connect);
    Take(host, steps, 1, s1, s2, true);
    var s3 := Next(s2, Deliver);
    Take(host, steps, 2, s2, s3, true);
    var s4 := Next(s3, Append);
    Take(host, steps, 3, s3, s4, true);
    TwoArrive(host);
    Take(host, steps, 4, s4, TwoQueued(host), true);
  }

  /** Both are out in a batch. */
  function TwoOut(host: Host): State {
    TwoQueued(host).(stream := CS.Stream(0, [], [1, 2], true, false, false), queue := Running(0, WQ.Apply, ApplyJob([1, 2])), nextId := 1)
  }

  lemma TwoReleased(host: Host)
    ensures Next(TwoQueued(host), TimerFires) == TwoOut(host)
  {
    hide WQ.Submit;
    SmallSubmit(TwoQueued(host).queue, WQ.Entry(0, WQ.Apply, ApplyJob([1, 2])));
  }

  lemma TwoRun(host: Host)
    ensures Next(Next(TwoOut(host), RunApply(GenerationFailed)), BeginProposal(7, true)) == Behind(host)
  {
    hide WQ.Settle, Ordinary, Unconsumed, Elems;
    TwoApplied();
    SmallSettle(TwoOut(host).queue, true);
    var s := Behind(host).(stream := CS.Stream(2, [], [], false, false, false), boundary := B.State.State(None, None));
    assert Next(TwoOut(host), RunApply(GenerationFailed)) == s;
  }

  lemma FallsBehind(host: Host, steps: seq<Step>)
    requires TreeFallsBehind() <= steps
    ensures At(host, steps, 8, Behind(host), true)
  {
    hide At, Next, Behind, TwoQueued, TwoOut;
    var all := TreeFallsBehind();
    assert steps[5] == all[5] && steps[6] == all[6] && steps[7] == all[7];
    TwoDelivered(host, steps);
    TwoReleased(host);
    Take(host, steps, 5, TwoQueued(host), TwoOut(host), true);
    var s := Next(TwoOut(host), RunApply(GenerationFailed));
    Take(host, steps, 6, TwoOut(host), s, true);
    TwoRun(host);
    Take(host, steps, 7, s, Behind(host), true);
  }

  /** The window on its way through the call. */
  function WaitingOnIt(s: State, w: B.Uncommitted): State { s.(calls := map[0 := Waiting(7, w.since)]) }

  function SectionOnIt(s: State, w: B.Uncommitted, ready: bool): State {
    s.(calls := map[0 := Committing(w, ready)], queue := Running(1, WQ.Proposal, ProposalJob(0)).(completed := 1), nextId := 2)
  }

  lemma EntersOnIt(s: State, w: B.Uncommitted, sinceSeq: Option<nat>)
    requires s == Behind(s.host).(head := s.head) && w.since == if sinceSeq.Some? then sinceSeq.value else 2
    ensures Next(Next(s, EnterCommit(0, 7)), Answered(0, false, sinceSeq)) == WaitingOnIt(s, w)
  {
    assert Next(s, EnterCommit(0, 7)) == s.(calls := map[0 := Asked(7)]);
    assert s.book.windows == [];
  }

  lemma SubmitsOnIt(s: State, w: B.Uncommitted)
    requires s == Behind(s.host).(head := s.head) && w.proposal == 7 && w.since < w.until <= s.head
    ensures Next(WaitingOnIt(s, w), SubmitWindow(0, w.until, true)) == SectionOnIt(s, w, false)
    ensures Allowed(WaitingOnIt(s, w), SubmitWindow(0, w.until, true))
  {
    hide WQ.Submit;
    SmallSubmit(s.queue, WQ.Entry(1, WQ.Proposal, ProposalJob(0)));
  }

  lemma RunsOnIt(s: State, w: B.Uncommitted)
    requires s == Behind(s.host).(head := s.head) && w.since == CommittedSeq(s)
    ensures Next(SectionOnIt(s, w, false), RunSection(true, Committed)) == SectionOnIt(s, w, true)
    ensures Next(SectionOnIt(s, w, true), RunSection(true, Committed)).book
      == Publish(s.book, Range(w.since, w.until), w.until, Some(w), Committed).(consumed := w.until)
  {
    hide WQ.Settle, Publish;
    PublishMarksNothing(s.book);
  }

  /** Proposal 7's section for window `w` on it, to the window's own publish. */
  lemma CommitsOnIt(host: Host, steps: seq<Step>, i: nat, s: State, w: B.Uncommitted, sinceSeq: Option<nat>)
    requires At(host, steps, i, s, true) && i + 5 == |steps| && w.proposal == 7 && w.since < w.until <= s.head
    requires s == Behind(host).(head := s.head)
    requires steps[i..] == [EnterCommit(0, 7), Answered(0, false, sinceSeq), SubmitWindow(0, w.until, true), RunSection(true, Committed), RunSection(true, Committed)]
    requires w.since == (if sinceSeq.Some? then sinceSeq.value else 2) == CommittedSeq(s)
    ensures AllowedRun(Init(host), steps)
    ensures Run(Init(host), steps).book == Publish(s.book, Range(w.since, w.until), w.until, Some(w), Committed).(consumed := w.until)
  {
    hide At, Run, AllowedRun, Next, WaitingOnIt, SectionOnIt, Publish;
    assert steps[i] == steps[i..][0] && steps[i+1] == steps[i..][1] && steps[i+2] == steps[i..][2] && steps[i+3] == steps[i..][3] && steps[i+4] == steps[i..][4];
    var asked := Next(s, EnterCommit(0, 7));
    Take(host, steps, i, s, asked, true);
    EntersOnIt(s, w, sinceSeq);
    Take(host, steps, i + 1, asked, WaitingOnIt(s, w), true);
    SubmitsOnIt(s, w);
    Take(host, steps, i + 2, WaitingOnIt(s, w), SectionOnIt(s, w, false), true);
    RunsOnIt(s, w);
    Take(host, steps, i + 3, SectionOnIt(s, w, false), SectionOnIt(s, w, true), true);
    var end := Next(SectionOnIt(s, w, true), RunSection(true, Committed));
    Take(host, steps, i + 4, SectionOnIt(s, w, true), end, true);
    Arrives(host, steps, end, true);
  }

  /** The daemon's own host answers `model.seq`: the commit carries events 1 and 2 under the contributor's name. */
  function OnMainLoop(): seq<Step> {
    TreeFallsBehind() + [Append] + [EnterCommit(0, 7), Answered(0, false, None), SubmitWindow(0, 3, true), RunSection(true, Committed), RunSection(true, Committed)]
  }

  lemma MainLoopSegmentCanBeWider()
    ensures AllowedRun(Init(MainLoop), OnMainLoop())
    ensures Run(Init(MainLoop), OnMainLoop()).book.segments == [Segment(Some(B.Uncommitted(7, 2, 3)), 0, 3, {1, 2, 3}, true)]
  {
    hide At, Run, AllowedRun, Next;
    var steps, s := OnMainLoop(), Behind(MainLoop);
    FallsBehind(MainLoop, steps);
    assert Next(s, Append) == s.(head := 3) by { AppendGrows(s); }
    Take(MainLoop, steps, 8, s, s.(head := 3), true);
    assert steps[9..] == [EnterCommit(0, 7), Answered(0, false, None), SubmitWindow(0, 3, true), RunSection(true, Committed), RunSection(true, Committed)];
    CommitsOnIt(MainLoop, steps, 9, s.(head := 3), B.Uncommitted(7, 2, 3), None);
    assert Range(2, 3) == {3} && {1, 2} + {3} == {1, 2, 3} && {1, 2, 3} - {} == {1, 2, 3};
  }

  lemma AppendGrows(s: State)
    ensures Next(s, Append) == s.(head := s.head + 1)
  {
  }

  /** A caller's `sinceSeq` before the hold's start, to a host that answers for the tree. */
  function FromBeforeTheHold(): seq<Step> {
    TreeFallsBehind() + [EnterCommit(0, 7), Answered(0, false, Some(0)), SubmitWindow(0, 1, true), RunSection(true, Committed), RunSection(true, Committed)]
  }

  /** Window 1..1 is committed with event 2 in it, and an ordinary task had applied event 1: an allowed run, but for where it starts. */
  lemma ExactnessNeedsTheStart()
    ensures AllowedRun(Init(Contract), FromBeforeTheHold())
    ensures var b := Run(Init(Contract), FromBeforeTheHold()).book;
      b.segments == [Segment(Some(W), 0, 2, {1, 2}, true)] && !AllExact(b) && !AttributionSafe(b)
  {
    hide At, Run, AllowedRun, Next, AttributionSafe;
    var steps, s := FromBeforeTheHold(), Behind(Contract);
    FallsBehind(Contract, steps);
    assert steps[8..] == [EnterCommit(0, 7), Answered(0, false, Some(0)), SubmitWindow(0, 1, true), RunSection(true, Committed), RunSection(true, Committed)];
    CommitsOnIt(Contract, steps, 8, s, W, Some(0));
    var b := Run(Init(Contract), steps).book;
    assert Range(0, 1) == {1} && {1, 2} + {1} == {1, 2} && {1, 2} - {} == {1, 2};
    assert b.segments[0] in b.segments;
    TakenTwice(b);
  }

  // ---------------------------------------------------------------------------
  // A foreign rebuild between a failed publish and its retry
  // ---------------------------------------------------------------------------

  /** Queued behind the section while the daemon was idle, it runs when the section's publish has failed. */
  function ForeignInBetween(): seq<Step> {
    Begun() + Submitted() + [SubmitOwn(WQ.Rebuild, ForeignRebuild), RunSection(true, GenerationFailed), RunOwn(Committed)]
    + [EnterCommit(0, 7), Answered(0, false, None), RunRetry(true, Committed)]
  }

  const FOREIGN := WQ.Entry(1, WQ.Rebuild, OwnJob(ForeignRebuild))

  /** Event 1 is in the model, for proposal 7, and the rebuild runs. */
  function ForeignRuns(host: Host): State {
    Held7(host).(queue := WQ.Queue([], Some(FOREIGN), false, true, 0), nextId := 2, boundary := B.State.State(None, Some(W)),
                 book := BLANK.(model := {1}, modelSeq := 1))
  }

  /** The owner's name has been given to it. */
  function ForeignDone(host: Host): State {
    ForeignRuns(host).(queue := Idle().(completed := 1), book := Book({1}, 1, {1}, 1, 0, {}, [], [Segment(None, 0, 1, {1}, true)]))
  }

  lemma ForeignGetsIn(host: Host)
    ensures Next(Next(AtWindow(host), SubmitOwn(WQ.Rebuild, ForeignRebuild)), RunSection(true, GenerationFailed)) == ForeignRuns(host)
  {
    hide WQ.Submit, WQ.Settle, Next, Publish, CommitEarlier;
    var s8 := AtWindow(host);
    SubmitIs(s8, WQ.Rebuild, ForeignRebuild);
    SmallSubmit(s8.queue, FOREIGN);
    var s9 := s8.(queue := s8.queue.(pending := [FOREIGN]), nextId := 2);
    assert Next(s8, SubmitOwn(WQ.Rebuild, ForeignRebuild)) == s9;
    SectionIs(s9, true, GenerationFailed);
    SettleFront(s9.queue, false);
    assert [FOREIGN][1..] == [];
    FailsAfterApplying();
  }

  lemma ForeignRebuilds(host: Host)
    ensures Next(ForeignRuns(host), RunOwn(Committed)) == ForeignDone(host)
  {
    hide WQ.Settle, Next;
    OwnIs(ForeignRuns(host), Committed);
    SmallSettle(ForeignRuns(host).queue, true);
    assert {1} + {} == {1} && {1} - {} == {1};
  }

  function ForeignRetry(host: Host): State {
    ForeignDone(host).(calls := map[0 := Retrying(W)], nextId := 3, queue := WQ.Queue([], Some(WQ.Entry(2, WQ.Proposal, RetryJob(0))), false, true, 1))
  }

  lemma ForeignRetried(host: Host)
    ensures Next(Next(ForeignDone(host), EnterCommit(0, 7)), Answered(0, false, None)) == ForeignRetry(host)
  {
    hide WQ.Submit, Next;
    SmallSubmit(ForeignDone(host).queue, WQ.Entry(2, WQ.Proposal, RetryJob(0)));
    EnterIs(ForeignDone(host), 0, 7);
    var s := ForeignDone(host).(calls := map[0 := Asked(7)]);
    assert Next(ForeignDone(host), EnterCommit(0, 7)) == s;
    assert s.book.windows == [];
    AnswerIs(s, 0, None);
  }

  lemma ForeignRetryRuns(host: Host)
    ensures Next(ForeignRetry(host), RunRetry(true, Committed)).book.segments == [Segment(None, 0, 1, {1}, true), Segment(Some(W), 1, 1, {}, true)]
  {
    hide WQ.Settle, Next, B.Finish, B.Steer;
    RetryIs(ForeignRetry(host), Committed);
    assert {1} + {} == {1} && {1} - {1} == {};
  }

  /** For either host an allowed run: the window's events go out under the owner's name, and its own commit is empty. */
  lemma ExactnessNeedsNoForeignRebuild(host: Host)
    ensures AllowedRun(Init(host), ForeignInBetween())
    ensures var b := Run(Init(host), ForeignInBetween()).book;
      b.segments == [Segment(None, 0, 1, {1}, true), Segment(Some(W), 1, 1, {}, true)] && !AllExact(b)
  {
    hide At, Run, Next, AllowedRun, AtWindow, ForeignRuns, ForeignDone, ForeignRetry;
    var steps := ForeignInBetween();
    Submits(host, steps);
    ForeignGetsIn(host);
    ForeignRebuilds(host);
    var s9 := Next(AtWindow(host), SubmitOwn(WQ.Rebuild, ForeignRebuild));
    Take(host, steps, 8, AtWindow(host), s9, true);
    Take(host, steps, 9, s9, ForeignRuns(host), true);
    Take(host, steps, 10, ForeignRuns(host), ForeignDone(host), true);
    ForeignRetried(host);
    ForeignRetryRuns(host);
    var s12 := Next(ForeignDone(host), EnterCommit(0, 7));
    assert ForeignDone(host).calls == map[] by { NoCalls(host); }
    Take(host, steps, 11, ForeignDone(host), s12, true);
    Take(host, steps, 12, s12, ForeignRetry(host), true);
    var s14 := Next(ForeignRetry(host), RunRetry(true, Committed));
    Take(host, steps, 13, ForeignRetry(host), s14, true);
    Arrives(host, steps, s14, true);
    assert s14.book.segments[1] in s14.book.segments;
  }

  lemma NoCalls(host: Host)
    ensures ForeignDone(host).calls == map[]
  {
  }
}
