/**
 * What has reached the model and the tree, in every run of the live loop, for either host and
 * with no hypothesis: every event up to the model's position, none past it, and the commits
 * cut the journal into consecutive segments, each holding exactly its slice.
 */
module LoopHistory {
  import opened Prelude
  import opened LiveLoop
  import opened LoopLine
  import WQ = WorkQueue
  import CS = ChangeStream
  import B = Boundary

  // ---------------------------------------------------------------------------
  // The book
  // ---------------------------------------------------------------------------

  /** Segment `i` begins where the one before it ended, and brought in exactly the events between. */
  ghost predicate SegmentWhole(segments: seq<Segment>, i: nat)
    requires i < |segments|
  {
    && segments[i].from == (if i == 0 then 0 else segments[i-1].to) && segments[i].from <= segments[i].to
    && segments[i].events == Range(segments[i].from, segments[i].to)
  }

  ghost predicate SegmentsWhole(segments: seq<Segment>, at: nat) {
    && (forall i :: 0 <= i < |segments| ==> SegmentWhole(segments, i))
    && at == if segments == [] then 0 else segments[|segments|-1].to
  }

  ghost predicate BookWhole(b: Book) {
    && b.model == Range(0, b.modelSeq) && b.tree == Range(0, b.treeSeq)
    && b.treeSeq <= b.modelSeq && b.consumed <= b.treeSeq
    && b.ordinary <= b.model
    && (forall w :: w in b.windows ==> w.since < w.until <= b.treeSeq)
    && SegmentsWhole(b.segments, b.treeSeq)
  }

  /** What a publish may bring in: nothing past `upto`, and everything the model lacks up to it. */
  ghost predicate Fills(b: Book, events: set<nat>, upto: nat) {
    (forall n :: n in events ==> 0 < n <= upto) && (forall n :: b.modelSeq < n <= upto ==> n in events)
  }

  lemma Slice(from: nat, to: nat)
    requires from <= to
    ensures Range(0, to) - Range(0, from) == Range(from, to)
  {
  }

  lemma OneMoreSegment(segments: seq<Segment>, at: nat, next: Segment)
    requires SegmentsWhole(segments, at) && next.from == at <= next.to && next.events == Range(at, next.to)
    ensures SegmentsWhole(segments + [next], next.to)
  {
    var s' := segments + [next];
    forall i | 0 <= i < |s'| ensures SegmentWhole(s', i) {
      if i < |segments| { assert SegmentWhole(segments, i); }
    }
  }

  lemma AppliedIsWhole(b: Book, events: set<nat>, upto: nat)
    requires b.model == Range(0, b.modelSeq) && Fills(b, events, upto)
    ensures b.model + events == Range(0, Max(b.modelSeq, upto))
  {
  }

  lemma PublishWhole(b: Book, events: set<nat>, upto: nat, owner: Option<B.Uncommitted>, outcome: Outcome)
    requires BookWhole(b) && Fills(b, events, upto)
    requires owner.Some? ==> owner.value.since < owner.value.until <= Max(b.modelSeq, upto)
    ensures BookWhole(Publish(b, events, upto, owner, outcome))
    ensures var b' := Publish(b, events, upto, owner, outcome);
      b'.modelSeq == (if Applies(outcome) then Max(b.modelSeq, upto) else b.modelSeq) && b.treeSeq <= b'.treeSeq
      && (Rebuilds(outcome) ==> b'.treeSeq == b'.modelSeq)
  {
    hide SegmentsWhole;
    var b' := Publish(b, events, upto, owner, outcome);
    AppliedIsWhole(b, events, upto);
    if Rebuilds(outcome) {
      Slice(b.treeSeq, b'.modelSeq);
      OneMoreSegment(b.segments, b.treeSeq, Segment(owner, b.treeSeq, b'.modelSeq, b'.model - b.tree, Lands(outcome)));
    }
  }

  lemma OrdinaryWhole(b: Book, events: set<nat>, upto: nat, outcome: Outcome)
    requires BookWhole(b) && Fills(b, events, upto)
    ensures BookWhole(Ordinary(b, events, upto, outcome))
    ensures var b' := Ordinary(b, events, upto, outcome);
      b'.modelSeq == (if Applies(outcome) then Max(b.modelSeq, upto) else b.modelSeq)
  {
    hide SegmentsWhole;
    PublishWhole(b, events, upto, None, outcome);
  }

  // ---------------------------------------------------------------------------
  // The rest of the state
  // ---------------------------------------------------------------------------

  ghost predicate StreamFits(s: State) {
    && CS.Gapless(s.stream, s.cursor) && s.stream.applied <= s.book.modelSeq
    && (forall n :: n in s.stream.queue || n in s.stream.batch ==> n <= s.head)
    && (s.cursor.Some? ==> s.cursor.value <= s.head)
  }

  ghost predicate CallFits(s: State, c: Call) {
    match c
    case Committing(w, ready) => w.since < w.until <= s.head && (ready ==> CommittedSeq(s) == w.since)
    case Retrying(u) => u.since < u.until <= s.book.modelSeq
    case _ => true
  }

  ghost predicate CallsFit(s: State) {
    && (forall k :: k in s.calls ==> CallFits(s, s.calls[k]))
    && (s.boundary.unattributed.Some? ==>
          s.boundary.unattributed.value.since < s.boundary.unattributed.value.until <= s.book.modelSeq)
  }

  ghost predicate History(s: State) { BookWhole(s.book) && s.book.modelSeq <= s.head && StreamFits(s) && CallsFit(s) }

  ghost predicate Sound(s: State) { LineInv(s) && History(s) }

  // ---------------------------------------------------------------------------
  // Each step
  // ---------------------------------------------------------------------------

  /** A batch past what was consumed fills the model up to its highest event. */
  lemma BatchFills(s: State, events: seq<nat>)
    requires BookWhole(s.book) && StreamFits(s) && events == Unconsumed(s.stream.batch, s.book.consumed) && events != []
    ensures Fills(s.book, Elems(events), MaxOf(0, events)) && MaxOf(0, events) <= s.head
  {
    var top := MaxOf(0, events);
    assert events[0] in events;
    assert top in events;
    assert forall n :: s.book.modelSeq < n <= top ==> n in s.stream.batch;
  }

  /** No call is past the first part of its section unless its task is running. */
  lemma NoneReady(s: State)
    requires LineInv(s) && !(RunningJob(s).Some? && RunningJob(s).value.ProposalJob?)
    ensures forall k :: k in s.calls && s.calls[k].Committing? ==> !s.calls[k].ready
  {
  }

  lemma OnlyRunningReady(s: State, slot: nat)
    requires LineInv(s) && RunningJob(s) == Some(ProposalJob(slot))
    ensures forall k :: k in s.calls && k != slot && s.calls[k].Committing? ==> !s.calls[k].ready
  {
  }

  /** The book moves on, whoever was waiting for its position being gone. */
  lemma CallsFitLater(s: State, s': State)
    requires CallsFit(s) && s'.head == s.head && s'.host == s.host && s.book.modelSeq <= s'.book.modelSeq
    requires forall k :: k in s'.calls ==> k in s.calls && s'.calls[k] == s.calls[k]
    requires s'.book == s.book || forall k :: k in s'.calls && s'.calls[k].Committing? ==> !s'.calls[k].ready
    requires s'.boundary.unattributed.None? || s'.boundary.unattributed == s.boundary.unattributed
    ensures CallsFit(s')
  {
    forall k | k in s'.calls ensures CallFits(s', s'.calls[k]) { assert CallFits(s, s.calls[k]); }
  }

  /** A publish, before its task settles. */
  lemma PublishHistory(s: State, s': State, b': Book)
    requires History(s) && BookWhole(b') && s.book.modelSeq <= b'.modelSeq <= s.head && s' == s.(book := b')
    requires b' == s.book || forall k :: k in s.calls && s.calls[k].Committing? ==> !s.calls[k].ready
    ensures History(s')
  {
    hide BookWhole, CS.Gapless;
    CallsFitLater(s, s');
  }

  /** A task settles: only the queue changes. */
  lemma SettledHistory(s: State, ok: bool)
    requires History(s)
    ensures History(SettleQueue(s, ok))
  {
    hide BookWhole, CS.Gapless, WQ.Settle;
    CallsFitLater(s, SettleQueue(s, ok));
  }

  lemma HeardHistory(s: State, ok: bool)
    requires History(s) && (ok ==> forall n :: n in s.stream.batch ==> n <= s.book.modelSeq)
    ensures History(Heard(s, ok))
  {
    hide BookWhole, CS.Gapless;
    CS.ReturnedKeepsGapless(s.stream, s.cursor);
    CS.ThrewKeepsGapless(s.stream, s.cursor);
    CallsFitLater(s, Heard(s, ok));
  }

  lemma ApplyHistory(s: State, outcome: Outcome)
    requires Sound(s) && RunningJob(s).Some? && RunningJob(s).value.ApplyJob?
    ensures History(FinishApply(s, RunningJob(s).value.batch, outcome))
  {
    hide LineInv, SettleQueue, Ordinary, BookWhole, CS.Gapless, CallsFit;
    RunningIsWanted(s);
    NoneReady(s);
    var events := Unconsumed(s.stream.batch, s.book.consumed);
    if events == [] {
      SettledHistory(s, true);
      ConsumedIsApplied(s);
      assert SettleQueue(s, true).stream == s.stream && SettleQueue(s, true).book == s.book by { SettleOnlyQueue(s, true); }
      HeardHistory(SettleQueue(s, true), true);
    } else {
      BatchFills(s, events);
      OrdinaryWhole(s.book, Elems(events), MaxOf(0, events), outcome);
      var b' := Ordinary(s.book, Elems(events), MaxOf(0, events), outcome);
      var s' := s.(book := b');
      PublishHistory(s, s', b');
      SettledHistory(s', !Throws(outcome));
      SettleOnlyQueue(s', !Throws(outcome));
      assert !Throws(outcome) ==> forall n :: n in s.stream.batch ==> n <= b'.modelSeq by { ConsumedIsApplied(s); }
      HeardHistory(SettleQueue(s', !Throws(outcome)), !Throws(outcome));
    }
  }

  lemma SettleOnlyQueue(s: State, ok: bool)
    ensures var s' := SettleQueue(s, ok); s' == s.(queue := s'.queue)
  {
  }

  lemma ConsumedIsApplied(s: State)
    requires BookWhole(s.book)
    ensures forall n :: n in s.stream.batch && n !in Unconsumed(s.stream.batch, s.book.consumed) ==> n <= s.book.modelSeq
  {
  }

  lemma OwnHistory(s: State, work: Work, outcome: Outcome)
    requires Sound(s) && RunningJob(s).Some? && RunningJob(s).value.OwnJob?
    ensures History(FinishOwn(s, work, outcome))
  {
    hide LineInv, SettleQueue, Publish, BookWhole, StreamFits, CallsFit;
    NoneReady(s);
    PublishWhole(s.book, {}, 0, None, outcome);
    var s' := s.(book := Publish(s.book, {}, 0, None, outcome));
    PublishHistory(s, s', s'.book);
    var ok := Regenerates(work, s.boundary) ==> !Throws(outcome);
    SettledHistory(s, ok);
    SettledHistory(s', ok);
  }

  /** The stream is steered, the call gone: nothing the history speaks of. */
  lemma EndedHistory(s: State, slot: nat, proposal: nat)
    requires History(s)
    ensures History(EndCall(s, slot, proposal)) && History(Over(s, slot))
  {
    hide BookWhole;
    CallsFitLater(s, EndCall(s, slot, proposal));
    CallsFitLater(s, Over(s, slot));
  }

  lemma FailedHistory(s: State, slot: nat, w: B.Uncommitted)
    requires History(s)
    ensures History(FailSection(s, slot, w))
  {
    hide History, SettleQueue, EndCall;
    SettledHistory(s, false);
    EndedHistory(SettleQueue(s, false), slot, w.proposal);
  }

  lemma ReadyHistory(s: State, slot: nat, w: B.Uncommitted)
    requires History(s) && w.since < w.until <= s.head && CommittedSeq(s) == w.since
    ensures History(Ready(s, slot, w))
  {
    hide BookWhole;
    var s' := Ready(s, slot, w);
    forall k | k in s'.calls ensures CallFits(s', s'.calls[k]) { assert k != slot ==> CallFits(s, s.calls[k]); }
  }

  lemma EarlierHistory(s: State, slot: nat, outcome: Outcome)
    requires Sound(s) && RunningJob(s) == Some(ProposalJob(slot)) && InSection(s, slot) && !s.calls[slot].ready
    ensures History(CommitEarlier(s, slot, s.calls[slot].window, outcome))
  {
    hide LineInv, FailSection, Ready, Ordinary, Report, BookWhole, StreamFits;
    var w := s.calls[slot].window;
    var b' := Ordinary(s.book, Range(CommittedSeq(s), w.since), w.since, outcome);
    var s' := s.(book := b');
    assert CallFits(s, s.calls[slot]);
    OnlyRunningReady(s, slot);
    FailedHistory(s, slot, w);
    if CommittedSeq(s) == w.since { ReadyHistory(s, slot, w); }
    if CommittedSeq(s) < w.since {
      RangeFills(s, w.since);
      OrdinaryWhole(s.book, Range(CommittedSeq(s), w.since), w.since, outcome);
      PublishHistory(s, s', b');
      FailedHistory(s', slot, w);
      if CommittedSeq(s') == w.since { ReadyHistory(s', slot, w); }
    }
  }

  /** The slice after what counts as committed fills the model: nothing is committed that is not applied. */
  lemma RangeFills(s: State, upto: nat)
    requires BookWhole(s.book)
    ensures Fills(s.book, Range(CommittedSeq(s), upto), upto)
  {
  }

  /** The window lands or not; then the proposal is recorded and the window consumed as the outcome says. */
  lemma WindowHistory(s: State, slot: nat, w: B.Uncommitted, clean: bool, outcome: Outcome)
    requires Sound(s) && RunningJob(s) == Some(ProposalJob(slot)) && slot in s.calls && s.calls[slot] == Committing(w, true)
    ensures History(CommitWindow(s, slot, w, clean, outcome))
  {
    hide LineInv, SettleQueue, EndCall, Publish, BookWhole, StreamFits, CallsFit, FailSection;
    assert CallFits(s, s.calls[slot]) by { OneCallFits(s, slot); }
    if !clean { FailedHistory(s, slot, w); } else {
      RangeFills(s, w.until);
      assert Fills(s.book, Range(w.since, w.until), w.until);
      PublishWhole(s.book, Range(w.since, w.until), w.until, Some(w), outcome);
      var b' := Publish(s.book, Range(w.since, w.until), w.until, Some(w), outcome);
      var over := Over(s, slot);
      OverHistory(s, slot);
      OnlyRunningReady(s, slot);
      PublishHistory(over, over.(book := b'), b');
      RecordedHistory(over.(book := b'), w, outcome);
      var s' := Recorded(over.(book := b'), w, outcome);
      SettledHistory(s', outcome == Committed);
      EndedHistory(SettleQueue(s', outcome == Committed), slot, w.proposal);
      WindowIs(s, slot, w, outcome);
    }
  }

  lemma OneCallFits(s: State, slot: nat)
    requires CallsFit(s) && slot in s.calls
    ensures CallFits(s, s.calls[slot])
  {
  }

  lemma OverHistory(s: State, slot: nat)
    requires History(s)
    ensures History(Over(s, slot))
  {
    hide History, EndCall, Over;
    EndedHistory(s, slot, 0);
  }

  /** After the window's publish, before the call ends. */
  function Recorded(s: State, w: B.Uncommitted, outcome: Outcome): State {
    var s' := s.(boundary := B.AfterPublish(s.boundary, w, Report(outcome)));
    if B.Succeeded(Report(outcome)) then Consume(s', w) else s'
  }

  lemma RecordedHistory(s: State, w: B.Uncommitted, outcome: Outcome)
    requires History(s) && w.since < w.until
    requires Applies(outcome) ==> w.until <= s.book.modelSeq
    requires Rebuilds(outcome) ==> s.book.treeSeq == s.book.modelSeq
    ensures History(Recorded(s, w, outcome))
  {
    hide SegmentsWhole;
    var s' := Recorded(s, w, outcome);
    forall k | k in s'.calls ensures CallFits(s', s'.calls[k]) { assert CallFits(s, s.calls[k]); }
  }

  /** The call may as well be gone from the start. */
  lemma WindowIs(s: State, slot: nat, w: B.Uncommitted, outcome: Outcome)
    ensures CommitWindow(s, slot, w, true, outcome)
      == EndCall(SettleQueue(Recorded(Over(s, slot).(book := Publish(s.book, Range(w.since, w.until), w.until, Some(w), outcome)), w, outcome),
                             outcome == Committed), slot, w.proposal)
  {
    hide Publish, WQ.Settle;
    assert s.calls - {slot} - {slot} == s.calls - {slot};
  }

  lemma RetryHistory(s: State, slot: nat, clean: bool, outcome: Outcome)
    requires Sound(s) && RunningJob(s) == Some(RetryJob(slot)) && InRetry(s, slot)
    ensures History(FinishRetry(s, slot, s.calls[slot].window, clean, outcome))
  {
    hide LineInv, SettleQueue, EndCall, Over, Publish, BookWhole, StreamFits, CallsFit;
    var u := s.calls[slot].window;
    assert CallFits(s, s.calls[slot]) by { OneCallFits(s, slot); }
    NoneReady(s);
    SettledHistory(s, false);
    OverHistory(SettleQueue(s, false), slot);
    PublishWhole(s.book, {}, 0, Some(u), outcome);
    var s' := s.(book := Publish(s.book, {}, 0, Some(u), outcome));
    PublishHistory(s, s', s'.book);
    SettledHistory(s', false);
    OverHistory(SettleQueue(s', false), slot);
    if B.Succeeded(Report(outcome)) {
      var s'' := Consume(s', u).(boundary := s.boundary.(unattributed := None));
      ResolvedHistory(s', u);
      SettledHistory(s'', outcome == Committed);
      EndedHistory(SettleQueue(s'', outcome == Committed), slot, u.proposal);
    }
  }

  lemma ResolvedHistory(s: State, u: B.Uncommitted)
    requires History(s) && u.until <= s.book.treeSeq
    ensures History(Consume(s, u).(boundary := s.boundary.(unattributed := None)))
  {
    hide SegmentsWhole;
    var s' := Consume(s, u).(boundary := s.boundary.(unattributed := None));
    forall k | k in s'.calls ensures CallFits(s', s'.calls[k]) { assert CallFits(s, s.calls[k]); }
  }

  /** Steps outside any task, and the stream's own. */
  lemma QuietHistory(s: State, step: Step)
    requires History(s) && IsQuiet(step)
    ensures History(Next(s, step))
  {
    hide BookWhole, CS.Gapless, LineInv, FinishApply, FinishOwn, RunningSection, FinishRetry, Release, Proceed, EnterSection, AllRejected, SubmitJob;
    var s' := Next(s, step);
    QuietKeepsLine(s, step);
    if step.Deliver? && s.cursor.Some? { CS.HandleKeepsGapless(s.stream, s.cursor.value); }
    StreamSteers(s, step);
    forall k | k in s'.calls ensures CallFits(s', s'.calls[k]) { assert CallFits(s, s.calls[k]); }
  }

  /** All but a delivery and a connection leave what the stream holds. */
  lemma StreamSteers(s: State, step: Step)
    requires StreamFits(s) && IsQuiet(step)
    ensures !step.Deliver? ==> CS.Gapless(Next(s, step).stream, Next(s, step).cursor)
    ensures Next(s, step).stream.applied == s.stream.applied
    ensures !step.Deliver? ==> Next(s, step).stream.queue == s.stream.queue && Next(s, step).stream.batch == s.stream.batch
  {
    hide FinishApply, FinishOwn, RunningSection, FinishRetry, Release, Proceed, EnterSection, AllRejected, SubmitJob;
  }

  /** A submission changes nothing here. */
  lemma SubmittedHistory(s: State, kind: WQ.Kind, job: Job)
    requires History(s)
    ensures History(SubmitJob(s, kind, job).0)
    ensures var s' := SubmitJob(s, kind, job).0; s' == s.(queue := s'.queue, nextId := s'.nextId)
  {
    hide BookWhole, CS.Gapless, WQ.Submit;
    CallsFitLater(s, SubmitJob(s, kind, job).0);
  }

  lemma ReleaseHistory(s: State)
    requires Sound(s)
    ensures History(Release(s))
  {
    hide LineInv, BookWhole, CS.Gapless, WQ.Submit, CallsFit;
    var stream := CS.Fire(s.stream);
    var s' := s.(stream := stream);
    CS.FireKeepsGapless(s.stream, s.cursor);
    StreamHistory(s, stream);
    if !s.stream.draining && stream.draining {
      NotTaken(s, WQ.Apply, ApplyJob(stream.batch));
      assert SubmitJob(s', WQ.Apply, ApplyJob(stream.batch)).1 == SubmitJob(s, WQ.Apply, ApplyJob(stream.batch)).1;
      assert !Wanted(Batch, s.stream.draining, s.calls);
      SubmittedHistory(s', WQ.Apply, ApplyJob(stream.batch));
      CS.ThrewKeepsGapless(stream, s.cursor);
      StreamHistory(SubmitJob(s', WQ.Apply, ApplyJob(stream.batch)).0, CS.Threw(stream));
    }
  }

  lemma StreamHistory(s: State, stream: CS.Stream)
    requires History(s) && CS.Gapless(stream, s.cursor) && stream.applied == s.stream.applied
    requires forall n :: n in stream.queue || n in stream.batch ==> n in s.stream.queue || n in s.stream.batch
    ensures History(s.(stream := stream))
  {
    hide BookWhole, CS.Gapless;
    CallsFitLater(s, s.(stream := stream));
  }

  lemma {:induction false} RejectedHistory(s: State, rest: seq<WQ.Entry<Job>>)
    requires History(s)
    ensures History(AllRejected(s, rest))
    decreases |rest|
  {
    hide History, EndCall, Over;
    if rest != [] {
      match rest[0].job {
        case ApplyJob(_) => ThrewHistory(s);
        case ProposalJob(k) => if InSection(s, k) { EndedHistory(s, k, s.calls[k].window.proposal); }
        case RetryJob(k) => OverHistory(s, k);
        case OwnJob(_) =>
      }
      RejectedHistory(Rejected(s, rest[0].job), rest[1..]);
    }
  }

  lemma ThrewHistory(s: State)
    requires History(s)
    ensures History(s.(stream := CS.Threw(s.stream)))
  {
    hide BookWhole, CS.Gapless, CallsFit;
    CS.ThrewKeepsGapless(s.stream, s.cursor);
    StreamHistory(s, CS.Threw(s.stream));
  }

  lemma QueueHistory(s: State, q: WQ.Queue<Job>)
    requires History(s)
    ensures History(s.(queue := q))
  {
    hide BookWhole, CS.Gapless;
    CallsFitLater(s, s.(queue := q));
  }

  /** A call that is not in a section: entered, answered or given up. */
  lemma CallHistory(s: State, slot: nat, c: Call)
    requires History(s) && CallFits(s, c)
    ensures History(s.(calls := s.calls[slot := c]))
  {
    hide BookWhole, CS.Gapless;
    var s' := s.(calls := s.calls[slot := c]);
    forall k | k in s'.calls ensures CallFits(s', s'.calls[k]) { assert k != slot ==> CallFits(s, s.calls[k]); }
  }

  lemma ProceedHistory(s: State, slot: nat, proposal: nat, existing: bool, sinceSeq: Option<nat>)
    requires History(s)
    ensures History(Proceed(s, slot, proposal, existing, sinceSeq))
  {
    hide History, EndCall, Over, SubmitJob, HasLanded;
    EndedHistory(s, slot, proposal);
    OverHistory(s, slot);
    SubmittedHistory(s, WQ.Proposal, RetryJob(slot));
    var s' := SubmitJob(s, WQ.Proposal, RetryJob(slot)).0;
    OverHistory(s', slot);
    match B.Proceed(s.boundary, existing || HasLanded(s.book, proposal), false, sinceSeq)
    case Retry(u) => UncommittedFits(s'); CallHistory(s', slot, Retrying(u));
    case Window(since) => CallHistory(s, slot, Waiting(proposal, since));
    case _ =>
  }

  lemma UncommittedFits(s: State)
    requires History(s)
    ensures s.boundary.unattributed.Some? ==> CallFits(s, Retrying(s.boundary.unattributed.value))
  {
  }

  lemma EnterSectionHistory(s: State, slot: nat, w: B.Uncommitted, isolated: bool)
    requires History(s) && w.since < w.until <= s.head
    ensures History(EnterSection(s, slot, w, isolated))
  {
    hide History, EndCall, Over, SubmitJob;
    EndedHistory(s, slot, w.proposal);
    SubmittedHistory(s, WQ.Proposal, ProposalJob(slot));
    var s' := SubmitJob(s, WQ.Proposal, ProposalJob(slot)).0;
    EndedHistory(s', slot, w.proposal);
    CallHistory(s', slot, Committing(w, false));
  }

  lemma {:induction false} StepKeepsHistory(s: State, step: Step)
    requires Sound(s)
    ensures Sound(Next(s, step))
  {
    hide LineInv, History, WQ.Block, WQ.Unblock, AllRejected, FinishApply, FinishOwn, CommitEarlier, CommitWindow, FinishRetry, Release, Proceed, EnterSection, SubmitJob, Over;
    StepKeepsLine(s, step);
    match step
    case TimerFires => if s.stream.armed { ReleaseHistory(s); }
    case RunApply(outcome) => if RunningJob(s).Some? && RunningJob(s).value.ApplyJob? { ApplyHistory(s, outcome); }
    case RunOwn(outcome) => if RunningJob(s).Some? && RunningJob(s).value.OwnJob? { OwnHistory(s, RunningJob(s).value.work, outcome); }
    case RunSection(clean, outcome) =>
      if RunningJob(s).Some? && RunningJob(s).value.ProposalJob? && InSection(s, RunningJob(s).value.slot) {
        var slot := RunningJob(s).value.slot;
        if s.calls[slot].ready { WindowHistory(s, slot, s.calls[slot].window, clean, outcome); } else { EarlierHistory(s, slot, outcome); }
      }
    case RunRetry(clean, outcome) =>
      if RunningJob(s).Some? && RunningJob(s).value.RetryJob? && InRetry(s, RunningJob(s).value.slot) {
        RetryHistory(s, RunningJob(s).value.slot, clean, outcome);
      }
    case SubmitOwn(kind, work) => SubmittedHistory(s, kind, OwnJob(work));
    case BlockQueue =>
      QueueHistory(s, WQ.Block(s.queue));
      RejectedHistory(s.(queue := WQ.Block(s.queue)), s.queue.pending);
    case UnblockQueue => QueueHistory(s, WQ.Unblock(s.queue));
    case EnterCommit(slot, proposal) => CallHistory(s, slot, Asked(proposal));
    case Answered(slot, existing, sinceSeq) =>
      if slot in s.calls && s.calls[slot].Asked? { ProceedHistory(s, slot, s.calls[slot].proposal, existing, sinceSeq); }
    case SubmitWindow(slot, until, isolated) =>
      if slot in s.calls && s.calls[slot].Waiting? && s.calls[slot].since < until <= s.head {
        EnterSectionHistory(s, slot, B.Uncommitted(s.calls[slot].proposal, s.calls[slot].since, until), isolated);
      }
    case GiveUpWaiting(slot) => OverHistory(s, slot);
    case _ => QuietHistory(s, step);
  }

  lemma SoundAtStart(host: Host)
    ensures Sound(Init(host))
  {
    assert Tags(WQ.Line(Init(host).queue)) == [];
  }

  /**
   * In every run, whoever calls and however publishes end: the model holds exactly the events
   * 1..modelSeq, the tree those up to its own position, and the commits cut the journal's
   * prefix into consecutive segments each of which brought in exactly its slice.
   */
  lemma {:induction false} HistoryIsComplete(host: Host, steps: seq<Step>)
    ensures Sound(Run(Init(host), steps))
    decreases |steps|
  {
    hide Sound, Next;
    if steps == [] { SoundAtStart(host); } else {
      HistoryIsComplete(host, steps[..|steps|-1]);
      StepKeepsHistory(Run(Init(host), steps[..|steps|-1]), steps[|steps|-1]);
    }
  }
}
