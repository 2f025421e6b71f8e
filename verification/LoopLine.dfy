/**
 * What the queue's line holds in every run of the live loop, with no hypothesis: one task for
 * each batch that is out and for each call that is in a section, and no other such task.
 */
module LoopLine {
  import opened Prelude
  import opened LiveLoop
  import WQ = WorkQueue
  import CS = ChangeStream
  import B = Boundary

  datatype Tag = Batch | Section(slot: nat) | Retry(slot: nat) | Own

  function TagOf(job: Job): Tag {
    match job case ApplyJob(_) => Batch case ProposalJob(k) => Section(k) case RetryJob(k) => Retry(k) case OwnJob(_) => Own
  }

  /** The tags on the line, front first: the running task, then the waiting ones. */
  function Tags(line: seq<WQ.Entry<Job>>): (tags: seq<Tag>)
    ensures |tags| == |line|
  {
    seq(|line|, i requires 0 <= i < |line| => TagOf(line[i].job))
  }

  predicate KindFits(e: WQ.Entry<Job>) {
    match e.job
    case ApplyJob(_) => e.kind == WQ.Apply
    case OwnJob(_) => e.kind != WQ.Apply && e.kind != WQ.Proposal
    case _ => e.kind == WQ.Proposal
  }

  /** Somebody is waiting for a task of this tag. */
  predicate Wanted(t: Tag, draining: bool, calls: map<nat, Call>) {
    match t
    case Batch => draining
    case Section(k) => k in calls && calls[k].Committing?
    case Retry(k) => k in calls && calls[k].Retrying?
    case Own => true
  }

  /** Such a task is on the line exactly when it is wanted, and once. */
  ghost predicate LineFits(tags: seq<Tag>, draining: bool, calls: map<nat, Call>) {
    && (forall i, j :: 0 <= i < j < |tags| && tags[i] == tags[j] ==> tags[i] == Own)
    && (forall t: Tag :: t != Own ==> (t in tags <==> Wanted(t, draining, calls)))
  }

  ghost predicate EntriesFit(line: seq<WQ.Entry<Job>>, batch: seq<nat>) {
    && (forall e :: e in line ==> KindFits(e))
    && (forall e :: e in line && e.job.ApplyJob? ==> e.job.batch == batch)
  }

  ghost predicate QueueFits(q: WQ.Queue<Job>, draining: bool, batch: seq<nat>, calls: map<nat, Call>) {
    && WQ.Inv(q)
    && EntriesFit(WQ.Line(q), batch)
    && LineFits(Tags(WQ.Line(q)), draining, calls)
  }

  /** A section past its first part is the running task. */
  ghost predicate ReadyRuns(q: WQ.Queue<Job>, calls: map<nat, Call>) {
    forall k :: k in calls && calls[k].Committing? && calls[k].ready ==> q.running.Some? && q.running.value.job == ProposalJob(k)
  }

  ghost predicate LineInv(s: State) {
    && QueueFits(s.queue, s.stream.draining, s.stream.batch, s.calls)
    && (!s.stream.draining ==> s.stream.batch == [])
    && ReadyRuns(s.queue, s.calls)
  }

  // ---------------------------------------------------------------------------
  // The line under the queue's operations
  // ---------------------------------------------------------------------------

  /** From one side to the other, a task of this tag is newly wanted. */
  ghost predicate Gives(t: Tag, draining: bool, calls: map<nat, Call>, draining': bool, calls': map<nat, Call>) {
    forall x: Tag :: x != Own ==> (Wanted(x, draining', calls') <==> Wanted(x, draining, calls) || x == t)
  }

  /** ... or no longer. */
  ghost predicate Takes(t: Tag, draining: bool, calls: map<nat, Call>, draining': bool, calls': map<nat, Call>) {
    forall x: Tag :: x != Own ==> (Wanted(x, draining', calls') <==> Wanted(x, draining, calls) && x != t)
  }

  lemma TagsAppend(line: seq<WQ.Entry<Job>>, e: WQ.Entry<Job>)
    ensures Tags(line + [e]) == Tags(line) + [TagOf(e.job)]
  {
  }

  lemma AppendFits(tags: seq<Tag>, t: Tag, draining: bool, calls: map<nat, Call>, draining': bool, calls': map<nat, Call>)
    requires LineFits(tags, draining, calls) && (t == Own || !Wanted(t, draining, calls)) && Gives(t, draining, calls, draining', calls')
    ensures LineFits(tags + [t], draining', calls')
  {
    hide Wanted;
    var tags' := tags + [t];
    assert forall x :: x in tags' <==> x in tags || x == t;
    forall i, j | 0 <= i < j < |tags'| && tags'[i] == tags'[j] ensures tags'[i] == Own {
      if j == |tags| { assert tags[i] in tags; }
    }
  }

  lemma StillThere(tags: seq<Tag>, k: nat, x: Tag)
    requires k < |tags| && x != tags[k]
    ensures x in tags[..k] + tags[k+1..] <==> x in tags
  {
    assert tags == tags[..k] + [tags[k]] + tags[k+1..];
  }

  lemma RemoveFits(tags: seq<Tag>, k: nat, draining: bool, calls: map<nat, Call>, draining': bool, calls': map<nat, Call>)
    requires LineFits(tags, draining, calls) && k < |tags| && Takes(tags[k], draining, calls, draining', calls')
    ensures LineFits(tags[..k] + tags[k+1..], draining', calls')
  {
    hide Wanted;
    var left := tags[..k] + tags[k+1..];
    assert forall j :: 0 <= j < |left| ==> left[j] == tags[if j < k then j else j + 1];
    forall x | x != tags[k] ensures x in left <==> x in tags { StillThere(tags, k, x); }
    if tags[k] != Own {
      forall j | 0 <= j < |left| ensures left[j] != tags[k] { }
    }
  }

  /** Without a batch on the line, what the batch in flight was does not matter. */
  lemma NoBatchOnLine(line: seq<WQ.Entry<Job>>, calls: map<nat, Call>, batch: seq<nat>, batch': seq<nat>)
    requires EntriesFit(line, batch) && LineFits(Tags(line), false, calls)
    ensures forall e :: e in line ==> !e.job.ApplyJob?
    ensures EntriesFit(line, batch')
  {
    forall e | e in line ensures !e.job.ApplyJob? {
      var i :| 0 <= i < |line| && line[i] == e;
      assert Tags(line)[i] in Tags(line);
    }
  }

  /** A task nobody wanted yet is never folded; accepted, it goes to the end of the line. */
  lemma SubmitFits(q: WQ.Queue<Job>, e: WQ.Entry<Job>, batch: seq<nat>, draining: bool, calls: map<nat, Call>,
                   batch': seq<nat>, draining': bool, calls': map<nat, Call>)
    requires QueueFits(q, draining, batch, calls) && KindFits(e)
    requires var t := TagOf(e.job); (t == Own || !Wanted(t, draining, calls)) && Gives(t, draining, calls, draining', calls')
    requires if e.job.ApplyJob? then batch' == e.job.batch else batch' == batch
    ensures var (q', how) := WQ.Submit(q, e, AbsorbJob);
      && how != WQ.Folded && (how == WQ.Refused ==> q' == q)
      && (how == WQ.Accepted ==>
            && QueueFits(q', draining', batch', calls')
            && WQ.Line(q') == WQ.Line(q) + [e]
            && (q.running.Some? ==> q'.running == q.running))
  {
    hide Wanted, Gives;
    var line := WQ.Line(q);
    var (q', how) := WQ.Submit(q, e, AbsorbJob);
    WQ.SubmitKeepsLine(q, e, AbsorbJob);
    if e.job.ApplyJob? { NothingOut(draining, calls); NoBatchOnLine(line, calls, batch, batch'); }
    NotFolded(q, q', e, how);
    if how == WQ.Accepted {
      TagsAppend(line, e);
      AppendFits(Tags(line), TagOf(e.job), draining, calls, draining', calls');
    }
  }

  lemma NothingOut(draining: bool, calls: map<nat, Call>)
    ensures Wanted(Batch, draining, calls) <==> draining
  {
  }

  lemma NotFolded(q: WQ.Queue<Job>, q': WQ.Queue<Job>, e: WQ.Entry<Job>, how: WQ.Submission)
    requires how == WQ.Folded ==> WQ.FoldedInto(q, q', e, AbsorbJob)
    requires e.job.ApplyJob? ==> forall x :: x in WQ.Line(q) ==> !x.job.ApplyJob?
    ensures how != WQ.Folded
  {
    assert forall i :: 0 <= i < |q.pending| ==> q.pending[i] in WQ.Line(q);
  }

  lemma SettleFits(q: WQ.Queue<Job>, ok: bool, batch: seq<nat>, draining: bool, calls: map<nat, Call>,
                   batch': seq<nat>, draining': bool, calls': map<nat, Call>)
    requires QueueFits(q, draining, batch, calls) && q.running.Some?
    requires Takes(TagOf(q.running.value.job), draining, calls, draining', calls')
    requires draining' ==> batch' == batch
    ensures QueueFits(WQ.Settle(q, ok), draining', batch', calls') && WQ.Line(WQ.Settle(q, ok)) == WQ.Line(q)[1..]
  {
    hide WQ.Settle, Takes, LineFits, EntriesFit;
    WQ.SettleKeepsLine(q, ok);
    var line := WQ.Line(q);
    assert line[0] == q.running.value && [] + line == line && [] + line[1..] == line[1..];
    OneLessOnLine([], line, draining, calls, draining', calls', batch, batch');
  }

  // ---------------------------------------------------------------------------
  // Kinds of steps
  // ---------------------------------------------------------------------------

  /** Nothing the line depends on has changed. */
  lemma SameLine(s: State, s': State)
    requires LineInv(s) && s'.queue == s.queue && s'.stream.draining == s.stream.draining && s'.stream.batch == s.stream.batch
    requires forall t :: Wanted(t, s.stream.draining, s.calls) <==> Wanted(t, s.stream.draining, s'.calls)
    requires ReadyRuns(s.queue, s'.calls)
    ensures LineInv(s')
  {
  }

  /** The running task settles, and whoever wanted it does no longer. */
  lemma Settled(s: State, ok: bool, s': State)
    requires LineInv(s) && s.queue.running.Some? && s'.queue == WQ.Settle(s.queue, ok)
    requires Takes(TagOf(s.queue.running.value.job), s.stream.draining, s.calls, s'.stream.draining, s'.calls)
    requires if s'.stream.draining then s'.stream.batch == s.stream.batch else s'.stream.batch == []
    requires forall k :: k in s'.calls ==> k in s.calls && s'.calls[k] == s.calls[k]
    ensures LineInv(s')
  {
    hide WQ.Settle;
    SettleFits(s.queue, ok, s.stream.batch, s.stream.draining, s.calls, s'.stream.batch, s'.stream.draining, s'.calls);
    forall k | k in s'.calls && s'.calls[k].Committing? ensures !s'.calls[k].ready {
      assert Wanted(Section(k), s'.stream.draining, s'.calls);
    }
  }

  /** A task is submitted, and wanted from then on. */
  lemma Submitted(s: State, kind: WQ.Kind, job: Job, s': State)
    requires LineInv(s) && KindFits(WQ.Entry(s.nextId, kind, job))
    requires s'.queue == SubmitJob(s, kind, job).0.queue && SubmitJob(s, kind, job).1 == WQ.Accepted
    requires var t := TagOf(job);
      (t == Own || !Wanted(t, s.stream.draining, s.calls)) && Gives(t, s.stream.draining, s.calls, s'.stream.draining, s'.calls)
    requires if job.ApplyJob? then s'.stream.batch == job.batch else s'.stream.batch == s.stream.batch
    requires forall k :: k in s'.calls && s'.calls[k].Committing? && s'.calls[k].ready ==> k in s.calls && s'.calls[k] == s.calls[k]
    requires !s'.stream.draining ==> s'.stream.batch == []
    ensures LineInv(s')
  {
    hide WQ.Submit, Gives, Wanted;
    SubmitFits(s.queue, WQ.Entry(s.nextId, kind, job), s.stream.batch, s.stream.draining, s.calls, s'.stream.batch, s'.stream.draining, s'.calls);
  }

  /** A task that is not taken leaves the line as it was. */
  lemma NotTaken(s: State, kind: WQ.Kind, job: Job)
    requires LineInv(s) && KindFits(WQ.Entry(s.nextId, kind, job))
    requires TagOf(job) == Own || !Wanted(TagOf(job), s.stream.draining, s.calls)
    ensures SubmitJob(s, kind, job).1 != WQ.Folded
    ensures SubmitJob(s, kind, job).1 == WQ.Refused ==> SubmitJob(s, kind, job).0.queue == s.queue
  {
    hide WQ.Submit;
    WQ.SubmitKeepsLine(s.queue, WQ.Entry(s.nextId, kind, job), AbsorbJob);
    if job.ApplyJob? { NoBatchOnLine(WQ.Line(s.queue), s.calls, s.stream.batch, []); }
    NotFolded(s.queue, SubmitJob(s, kind, job).0.queue, WQ.Entry(s.nextId, kind, job), SubmitJob(s, kind, job).1);
  }

  lemma RunningIsWanted(s: State)
    requires LineInv(s) && RunningJob(s).Some?
    ensures TagOf(RunningJob(s).value) != Own ==> Wanted(TagOf(RunningJob(s).value), s.stream.draining, s.calls)
    ensures RunningJob(s).value.ApplyJob? ==> RunningJob(s).value.batch == s.stream.batch
  {
    var line := WQ.Line(s.queue);
    assert line[0] == s.queue.running.value && line[0] in line;
    assert Tags(line)[0] in Tags(line);
  }

  // ---------------------------------------------------------------------------
  // Each step
  // ---------------------------------------------------------------------------

  lemma HeardInv(s: State, s': State, ok: bool)
    requires LineInv(s) && RunningJob(s).Some? && RunningJob(s).value.ApplyJob?
    requires s'.queue == s.queue && s'.stream == s.stream && s'.calls == s.calls
    ensures LineInv(Heard(SettleQueue(s', ok), ok))
  {
    hide WQ.Settle, LineInv;
    Settled(s, ok, Heard(SettleQueue(s', ok), ok));
  }

  lemma ApplyInv(s: State, outcome: Outcome)
    requires LineInv(s) && RunningJob(s).Some? && RunningJob(s).value.ApplyJob?
    ensures LineInv(FinishApply(s, RunningJob(s).value.batch, outcome))
  {
    hide LineInv, SettleQueue, Heard, Ordinary;
    var events := Unconsumed(RunningJob(s).value.batch, s.book.consumed);
    var s' := s.(book := Ordinary(s.book, Elems(events), MaxOf(0, events), outcome));
    HeardInv(s, s, true);
    HeardInv(s, s', !Throws(outcome));
  }

  lemma OwnInv(s: State, work: Work, outcome: Outcome)
    requires LineInv(s) && RunningJob(s).Some? && RunningJob(s).value.OwnJob?
    ensures LineInv(FinishOwn(s, work, outcome))
  {
    hide WQ.Settle, LineInv, Publish;
    NotDraining(s);
    Settled(s, Regenerates(work, s.boundary) ==> !Throws(outcome), FinishOwn(s, work, outcome));
  }

  /** The running section's or retry's call ends with its task. */
  lemma CallOverInv(s: State, slot: nat, ok: bool, s': State)
    requires LineInv(s) && RunningJob(s).Some? && RunningJob(s).value in {ProposalJob(slot), RetryJob(slot)}
    requires s'.queue == WQ.Settle(s.queue, ok) && s'.calls == s.calls - {slot}
    requires s'.stream.draining == s.stream.draining && s'.stream.batch == s.stream.batch
    ensures LineInv(s')
  {
    hide WQ.Settle;
    RunningIsWanted(s);
    Settled(s, ok, s');
  }

  lemma ReadyInv(s: State, slot: nat, w: B.Uncommitted, s': State)
    requires LineInv(s) && RunningJob(s) == Some(ProposalJob(slot)) && InSection(s, slot)
    requires s'.queue == s.queue && s'.stream == s.stream && s'.calls == s.calls
    ensures LineInv(Ready(s', slot, w))
  {
    SameLine(s, Ready(s', slot, w));
  }

  lemma FailInv(s: State, slot: nat, w: B.Uncommitted, s': State)
    requires LineInv(s) && RunningJob(s) == Some(ProposalJob(slot))
    requires s'.queue == s.queue && s'.stream == s.stream && s'.calls == s.calls
    ensures LineInv(FailSection(s', slot, w))
  {
    hide WQ.Settle, LineInv;
    CallOverInv(s, slot, false, FailSection(s', slot, w));
  }

  lemma EarlierInv(s: State, slot: nat, outcome: Outcome)
    requires LineInv(s) && RunningJob(s) == Some(ProposalJob(slot)) && InSection(s, slot)
    ensures LineInv(CommitEarlier(s, slot, s.calls[slot].window, outcome))
  {
    hide LineInv, FailSection, Ready, Ordinary, Report;
    var w := s.calls[slot].window;
    var s' := s.(book := Ordinary(s.book, Range(CommittedSeq(s), w.since), w.since, outcome));
    ReadyInv(s, slot, w, s);
    ReadyInv(s, slot, w, s');
    FailInv(s, slot, w, s);
    FailInv(s, slot, w, s');
  }

  lemma WindowInv(s: State, slot: nat, w: B.Uncommitted, clean: bool, outcome: Outcome)
    requires LineInv(s) && RunningJob(s) == Some(ProposalJob(slot)) && InSection(s, slot)
    ensures LineInv(CommitWindow(s, slot, w, clean, outcome))
  {
    hide LineInv, WQ.Settle, Publish, Report;
    CallOverInv(s, slot, clean && outcome == Committed, CommitWindow(s, slot, w, clean, outcome));
  }

  lemma SectionInv(s: State, slot: nat, clean: bool, outcome: Outcome)
    requires LineInv(s) && RunningJob(s) == Some(ProposalJob(slot)) && InSection(s, slot)
    ensures LineInv(RunningSection(s, slot, clean, outcome))
  {
    hide LineInv, CommitEarlier, CommitWindow;
    EarlierInv(s, slot, outcome);
    WindowInv(s, slot, s.calls[slot].window, clean, outcome);
  }

  lemma RetryInv(s: State, slot: nat, clean: bool, outcome: Outcome)
    requires LineInv(s) && RunningJob(s) == Some(RetryJob(slot)) && InRetry(s, slot)
    ensures LineInv(FinishRetry(s, slot, s.calls[slot].window, clean, outcome))
  {
    hide LineInv, WQ.Settle, Publish, Report;
    CallOverInv(s, slot, clean && B.Succeeded(Report(outcome)) && outcome == Committed, FinishRetry(s, slot, s.calls[slot].window, clean, outcome));
  }

  lemma SubmitOwnInv(s: State, kind: WQ.Kind, work: Work)
    requires LineInv(s) && !kind.Apply? && !kind.Proposal?
    ensures LineInv(SubmitJob(s, kind, OwnJob(work)).0)
  {
    hide WQ.Submit, LineInv;
    var (s', how) := SubmitJob(s, kind, OwnJob(work));
    NotTaken(s, kind, OwnJob(work));
    NotDraining(s);
    if how == WQ.Accepted { Submitted(s, kind, OwnJob(work), s'); } else { Untouched(s, s'); }
  }

  lemma Untouched(s: State, s': State)
    requires LineInv(s) && s'.queue == s.queue && s'.stream.draining == s.stream.draining && s'.stream.batch == s.stream.batch && s'.calls == s.calls
    ensures LineInv(s')
  {
    SameLine(s, s');
  }

  lemma ReleaseInv(s: State)
    requires LineInv(s)
    ensures LineInv(Release(s))
  {
    hide WQ.Submit, LineInv;
    var stream := CS.Fire(s.stream);
    var s' := s.(stream := stream);
    if s.stream.draining || !stream.draining { Untouched(s, s'); } else {
      var job := ApplyJob(stream.batch);
      var (s'', how) := SubmitJob(s', WQ.Apply, job);
      assert SubmitJob(s, WQ.Apply, job).0.queue == s''.queue && SubmitJob(s, WQ.Apply, job).1 == how;
      NotTaken(s, WQ.Apply, job);
      NotDraining(s);
      if how == WQ.Accepted { Submitted(s, WQ.Apply, job, s''); } else { Untouched(s, s''.(stream := CS.Threw(stream))); }
    }
  }

  lemma NotDraining(s: State)
    requires LineInv(s)
    ensures !s.stream.draining ==> s.stream.batch == []
  {
  }

  /** A call that was not in a section goes on, or ends. */
  lemma CallMoves(s: State, slot: nat, c: Option<Call>, s': State)
    requires LineInv(s) && s'.queue == s.queue && s'.stream.draining == s.stream.draining && s'.stream.batch == s.stream.batch
    requires slot in s.calls ==> s.calls[slot].Asked? || s.calls[slot].Waiting?
    requires c.Some? ==> c.value.Asked? || c.value.Waiting?
    requires s'.calls == if c.Some? then s.calls[slot := c.value] else s.calls - {slot}
    ensures LineInv(s')
  {
    hide QueueFits;
    SameLine(s, s');
  }

  lemma ProceedInv(s: State, slot: nat, existing: bool, sinceSeq: Option<nat>)
    requires LineInv(s) && slot in s.calls && s.calls[slot].Asked?
    ensures LineInv(Proceed(s, slot, s.calls[slot].proposal, existing, sinceSeq))
  {
    hide WQ.Submit, LineInv, HasLanded;
    var proposal := s.calls[slot].proposal;
    var s' := Proceed(s, slot, proposal, existing, sinceSeq);
    var entry := B.Proceed(s.boundary, existing || HasLanded(s.book, proposal), false, sinceSeq);
    if entry.Retry? {
      NotTaken(s, WQ.Proposal, RetryJob(slot));
      NotDraining(s);
      if SubmitJob(s, WQ.Proposal, RetryJob(slot)).1 == WQ.Accepted {
        Submitted(s, WQ.Proposal, RetryJob(slot), s');
      } else {
        CallMoves(s, slot, None, s');
      }
    } else {
      CallMoves(s, slot, if entry.Window? then Some(Waiting(proposal, entry.since)) else None, s');
    }
  }

  lemma EnterSectionInv(s: State, slot: nat, w: B.Uncommitted, isolated: bool)
    requires LineInv(s) && slot in s.calls && s.calls[slot].Waiting?
    ensures LineInv(EnterSection(s, slot, w, isolated))
  {
    hide WQ.Submit, LineInv;
    var s' := EnterSection(s, slot, w, isolated);
    NotTaken(s, WQ.Proposal, ProposalJob(slot));
    NotDraining(s);
    if isolated && SubmitJob(s, WQ.Proposal, ProposalJob(slot)).1 == WQ.Accepted {
      Submitted(s, WQ.Proposal, ProposalJob(slot), s');
    } else {
      CallMoves(s, slot, None, s');
    }
  }

  /** A blocked queue on its way to having rejected `rest`, the tasks that were waiting. */
  ghost predicate Rejecting(s: State, rest: seq<WQ.Entry<Job>>) {
    && WQ.Inv(s.queue) && s.queue.pending == []
    && EntriesFit(WQ.Line(s.queue) + rest, s.stream.batch)
    && LineFits(Tags(WQ.Line(s.queue) + rest), s.stream.draining, s.calls)
    && (!s.stream.draining ==> s.stream.batch == [])
    && ReadyRuns(s.queue, s.calls)
  }

  lemma OneLessOnLine(front: seq<WQ.Entry<Job>>, rest: seq<WQ.Entry<Job>>, draining: bool, calls: map<nat, Call>, draining': bool, calls': map<nat, Call>,
                      batch: seq<nat>, batch': seq<nat>)
    requires rest != [] && EntriesFit(front + rest, batch) && LineFits(Tags(front + rest), draining, calls)
    requires Takes(TagOf(rest[0].job), draining, calls, draining', calls') && (draining' ==> batch' == batch)
    ensures EntriesFit(front + rest[1..], batch') && LineFits(Tags(front + rest[1..]), draining', calls')
  {
    hide TagOf, Takes;
    var line, line', k := front + rest, front + rest[1..], |front|;
    assert line[k] == rest[0] && forall e :: e in line' ==> e in line;
    assert Tags(line)[k] == TagOf(rest[0].job);
    RemoveFits(Tags(line), k, draining, calls, draining', calls');
    assert Tags(line)[..k] + Tags(line)[k+1..] == Tags(line');
    if !draining' { NoBatchOnLine(line', calls', batch, batch'); }
  }

  lemma WaitingIsWanted(front: seq<WQ.Entry<Job>>, rest: seq<WQ.Entry<Job>>, draining: bool, calls: map<nat, Call>)
    requires rest != [] && LineFits(Tags(front + rest), draining, calls)
    ensures var t := TagOf(rest[0].job); t != Own ==> Wanted(t, draining, calls)
  {
    var line := front + rest;
    assert line[|front|] == rest[0] && Tags(line)[|front|] == TagOf(rest[0].job) && Tags(line)[|front|] in Tags(line);
  }

  lemma RejectOne(s: State, rest: seq<WQ.Entry<Job>>)
    requires Rejecting(s, rest) && rest != []
    ensures Rejecting(Rejected(s, rest[0].job), rest[1..])
  {
    hide LineFits, EntriesFit, B.Finish;
    var s' := Rejected(s, rest[0].job);
    WaitingIsWanted(WQ.Line(s.queue), rest, s.stream.draining, s.calls);
    OneLessOnLine(WQ.Line(s.queue), rest, s.stream.draining, s.calls, s'.stream.draining, s'.calls, s.stream.batch, s'.stream.batch);
  }

  lemma {:induction false} AllRejectedInv(s: State, rest: seq<WQ.Entry<Job>>)
    requires Rejecting(s, rest)
    ensures LineInv(AllRejected(s, rest))
    decreases |rest|
  {
    if rest == [] {
      assert WQ.Line(s.queue) + rest == WQ.Line(s.queue);
    } else {
      hide Rejecting, Rejected;
      RejectOne(s, rest);
      AllRejectedInv(Rejected(s, rest[0].job), rest[1..]);
    }
  }

  lemma BlockInv(s: State)
    requires LineInv(s)
    ensures LineInv(AllRejected(s.(queue := WQ.Block(s.queue)), s.queue.pending))
  {
    hide AllRejected;
    var blocked := s.(queue := WQ.Block(s.queue));
    assert WQ.Line(blocked.queue) + s.queue.pending == WQ.Line(s.queue);
    AllRejectedInv(blocked, s.queue.pending);
  }

  lemma UnblockInv(s: State)
    requires LineInv(s)
    ensures LineInv(s.(queue := WQ.Unblock(s.queue)))
  {
    hide WQ.Unblock;
    WQ.UnblockKeepsLine(s.queue);
    assert WQ.Line(WQ.Unblock(s.queue)) == WQ.Line(s.queue);
  }

  /** Steps that neither run nor submit a task nor end one. */
  predicate IsQuiet(step: Step) {
    || step.Append? || step.Connect? || step.Disconnect? || step.Deliver? || step.OperatorPause? || step.OperatorResume?
    || step.BeginProposal? || step.BeginAsks? || step.BeginHears? || step.AbortProposal? || step.HoldExpires?
  }

  lemma QuietKeepsLine(s: State, step: Step)
    requires IsQuiet(step)
    ensures var s' := Next(s, step);
      && s'.queue == s.queue && s'.calls == s.calls && s'.book == s.book && s'.host == s.host
      && s'.stream.draining == s.stream.draining && s'.stream.batch == s.stream.batch
  {
    hide FinishApply, FinishOwn, RunningSection, FinishRetry, Release, Proceed, EnterSection, AllRejected, SubmitJob,
      B.BeginPauses, B.BeginReads, B.Begin, B.Abort, B.Expire, B.Holding;
  }

  /** Every step of every run keeps the line. */
  lemma {:induction false} StepKeepsLine(s: State, step: Step)
    requires LineInv(s)
    ensures LineInv(Next(s, step))
  {
    hide LineInv, WQ.Settle, WQ.Submit, WQ.Unblock, AllRejected, FinishApply, FinishOwn, RunningSection, FinishRetry, Release, Proceed, EnterSection, SubmitJob;
    match step
    case TimerFires => if s.stream.armed { ReleaseInv(s); }
    case RunApply(outcome) => if RunningJob(s).Some? && RunningJob(s).value.ApplyJob? { ApplyInv(s, outcome); }
    case RunOwn(outcome) => if RunningJob(s).Some? && RunningJob(s).value.OwnJob? { OwnInv(s, RunningJob(s).value.work, outcome); }
    case RunSection(clean, outcome) =>
      if RunningJob(s).Some? && RunningJob(s).value.ProposalJob? && InSection(s, RunningJob(s).value.slot) {
        SectionInv(s, RunningJob(s).value.slot, clean, outcome);
      }
    case RunRetry(clean, outcome) =>
      if RunningJob(s).Some? && RunningJob(s).value.RetryJob? && InRetry(s, RunningJob(s).value.slot) {
        RetryInv(s, RunningJob(s).value.slot, clean, outcome);
      }
    case SubmitOwn(kind, work) => if !kind.Apply? && !kind.Proposal? { SubmitOwnInv(s, kind, work); }
    case BlockQueue => BlockInv(s);
    case UnblockQueue => UnblockInv(s);
    case EnterCommit(slot, proposal) =>
      if slot !in s.calls && !B.Busy(s.boundary, proposal) {
        CallMoves(s, slot, Some(Asked(proposal)), Next(s, step));
      }
    case Answered(slot, existing, sinceSeq) =>
      if slot in s.calls && s.calls[slot].Asked? { ProceedInv(s, slot, existing, sinceSeq); }
    case SubmitWindow(slot, until, isolated) =>
      if slot in s.calls && s.calls[slot].Waiting? && s.calls[slot].since < until <= s.head {
        EnterSectionInv(s, slot, B.Uncommitted(s.calls[slot].proposal, s.calls[slot].since, until), isolated);
      }
    case GiveUpWaiting(slot) => if slot in s.calls && s.calls[slot].Waiting? { CallMoves(s, slot, None, Next(s, step)); }
    case _ =>
      QuietKeepsLine(s, step);
      Untouched(s, Next(s, step));
  }
}
