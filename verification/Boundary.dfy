/**
 * The commit boundary of one approved proposal (packages/live/src/proposal.ts,
 * `ProposalBoundary`): what `begin`, `abort`, `finish` and `expire` do to the hold, to the
 * applied-but-uncommitted proposal, and to the change stream.
 */
module Boundary {
  import opened Prelude
  import CS = ChangeStream

  datatype Hold = Hold(proposal: nat, since: nat)

  /** Applied to the model, not yet committed under its contributor's name. */
  datatype Uncommitted = Uncommitted(proposal: nat, since: nat, until: nat)

  datatype State = State(hold: Option<Hold>, unattributed: Option<Uncommitted>)

  /** What the boundary asks of the stream. */
  datatype Control = Leave | HoldStream | ReleaseStream | HoldThenRelease

  /** A release leaves an operator's own pause in place (main.ts, `releaseStream`). */
  function Steer(s: CS.Stream, c: Control, operatorPaused: bool): CS.Stream {
    match c
    case Leave => s
    case HoldStream => CS.Pause(s)
    case ReleaseStream => if operatorPaused then s else CS.Resume(s)
    case HoldThenRelease => if operatorPaused then CS.Pause(s) else CS.Resume(CS.Pause(s))
  }

  predicate Holding(b: State) { b.hold.Some? || b.unattributed.Some? }

  /** Whose boundary it is: the hold's proposal, else the uncommitted one's. */
  function Owner(b: State): Option<nat> {
    if b.hold.Some? then Some(b.hold.value.proposal)
    else if b.unattributed.Some? then Some(b.unattributed.value.proposal) else None
  }

  predicate Busy(b: State, proposal: nat) { Owner(b).Some? && Owner(b).value != proposal }

  datatype BeginReply = RefusedBusy | AlreadyHeld | JournalUnread | Held

  /** `begin` before its await: refused, already held, or the stream is held and the head asked for. */
  function BeginPauses(b: State, proposal: nat): (Control, Option<BeginReply>) {
    if Busy(b, proposal) then (Leave, Some(RefusedBusy))
    else if b.hold.Some? then (Leave, Some(AlreadyHeld))
    else (HoldStream, None)
  }

  /** ... and after it: `head` is what the journal answered, None when it failed. */
  function BeginReads(b: State, proposal: nat, head: Option<nat>): (State, Control) {
    if head.None? then (b, if b.unattributed.None? then ReleaseStream else Leave)
    else (b.(hold := Some(Hold(proposal, head.value))), Leave)
  }

  /** Both, with nothing in between. */
  function Begin(b: State, proposal: nat, head: Option<nat>): (State, Control, BeginReply) {
    var (c, reply) := BeginPauses(b, proposal);
    if reply.Some? then (b, c, reply.value) else
      var (b', c') := BeginReads(b, proposal, head);
      (b', if c'.ReleaseStream? then HoldThenRelease else HoldStream, if head.None? then JournalUnread else Held)
  }

  function ClearHold(b: State, proposal: nat): State {
    if b.hold.Some? && b.hold.value.proposal == proposal then b.(hold := None) else b
  }

  function Abort(b: State, proposal: nat): (State, Control) {
    var gaveUp := if b.unattributed.Some? && b.unattributed.value.proposal == proposal then b.(unattributed := None) else b;
    var b' := ClearHold(gaveUp, proposal);
    (b', if b' != b && !Holding(b') then ReleaseStream else Leave)
  }

  function Finish(b: State, proposal: nat): (State, Control) {
    var b' := ClearHold(b, proposal);
    (b', if Holding(b') then Leave else ReleaseStream)
  }

  /** The hold's timer, set for `proposal`, fires. */
  function Expire(b: State, proposal: nat): (State, Control) {
    if b.hold.None? || b.hold.value.proposal != proposal then (b, Leave)
    else (b.(hold := None), if b.unattributed.Some? then Leave else ReleaseStream)
  }

  datatype Entry = EntryBusy | AlreadyCommitted | Retry(u: Uncommitted) | NoHold | Window(since: nat)

  /** How far `commit` gets once it knows whether a commit of the proposal exists. */
  function Proceed(b: State, existing: bool, dryRun: bool, sinceSeq: Option<nat>): Entry {
    if existing then AlreadyCommitted
    else if b.unattributed.Some? && !dryRun then Retry(b.unattributed.value)
    else if sinceSeq.Some? then Window(sinceSeq.value)
    else if b.hold.Some? then Window(b.hold.value.since)
    else NoHold
  }

  /** ... from its first check on. */
  function Enter(b: State, proposal: nat, existing: bool, dryRun: bool, sinceSeq: Option<nat>): Entry {
    if Busy(b, proposal) then EntryBusy else Proceed(b, existing, dryRun, sinceSeq)
  }

  /** What a `publish` comes to: what it reports, or an exception. */
  datatype Published = Reported(ok: bool, applied: bool, committed: bool) | Threw

  predicate Succeeded(p: Published) { p.Reported? && p.ok }

  /** A window's publish that reports failure after applying leaves the proposal uncommitted. */
  function AfterPublish(b: State, w: Uncommitted, p: Published): State {
    if p.Reported? && !p.ok && p.applied then b.(unattributed := Some(w)) else b
  }

  /** What the host answers during a section: before and after the ordinary commit, and the window's own. */
  datatype Answers = Answers(committed: nat, before: Published, committedAfter: nat, clean: bool, window: Published)

  /** What is committed ends where the window begins, at once or after an ordinary commit that came off. */
  predicate AtItsStart(w: Uncommitted, a: Answers) {
    || a.committed == w.since
    || (a.committed < w.since && a.before.Reported? && a.before.ok && a.committedAfter == w.since)
  }

  /** The window's own publish is reached on a clean tree that is exactly at its start. */
  predicate ReachesPublish(w: Uncommitted, a: Answers) { a.clean && AtItsStart(w, a) }

  /** Boundary and stream after a section and the `finally` behind it. */
  function SectionEnd(b: State, stream: CS.Stream, w: Uncommitted, a: Answers, operatorPaused: bool): (State, CS.Stream) {
    var reached := ReachesPublish(w, a);
    var stream' := if reached && Succeeded(a.window) then CS.MarkApplied(stream, w.until) else stream;
    var (b', c) := Finish(if reached then AfterPublish(b, w, a.window) else b, w.proposal);
    (b', Steer(stream', c, operatorPaused))
  }

  /** ... and after a retry of `u`: one that fails changes nothing. */
  function RetryEnd(b: State, stream: CS.Stream, u: Uncommitted, clean: bool, p: Published, operatorPaused: bool): (State, CS.Stream) {
    if !(clean && Succeeded(p)) then (b, stream) else
      var (b', c) := Finish(b.(unattributed := None), u.proposal);
      (b', Steer(CS.MarkApplied(stream, u.until), c, operatorPaused))
  }

  /** The verdict of a dry run over a window whose isolation check said `isolated`. */
  function DryRunWouldCommit(isolated: bool, committed: nat, since: nat): bool { isolated && committed <= since }

  // ---------------------------------------------------------------------------
  // The object, over the loop's stream
  // ---------------------------------------------------------------------------

  class ProposalBoundary {
    var hold: Option<Hold>
    var unattributed: Option<Uncommitted>
    var operatorPaused: bool
    const stream: CS.Subscription

    ghost function View(): State reads this { State.State(hold, unattributed) }

    /** The stream runs on, its timer armed, when nothing holds it and the operator does not; else it is as it was. */
    ghost predicate ReleasesIf(free: bool, was: CS.Stream, now: CS.Stream)
      reads this
    {
      now == if free && !operatorPaused then was.(paused := false, armed := true) else was
    }

    constructor (stream: CS.Subscription)
      ensures this.stream == stream && View() == State.State(None, None) && !operatorPaused
    {
      hold, unattributed, operatorPaused := None, None, false;
      this.stream := stream;
    }

    method ReleaseStream()
      modifies stream
      ensures stream.State() == Steer(old(stream.State()), Control.ReleaseStream, operatorPaused)
    {
      if !operatorPaused { stream.ResumeReleases(); }
    }

    method BeginHold(proposal: nat, head: Option<nat>) returns (reply: BeginReply)
      modifies this`hold, stream
      ensures var (b, c, r) := Begin(old(View()), proposal, head);
        View() == b && reply == r && stream.State() == Steer(old(stream.State()), c, operatorPaused)
      ensures reply == AlreadyHeld <==> old(hold).Some? && old(hold).value.proposal == proposal
      ensures reply == RefusedBusy <==>
        if old(hold).Some? then old(hold).value.proposal != proposal else unattributed.Some? && unattributed.value.proposal != proposal
      ensures reply in {RefusedBusy, AlreadyHeld} ==> hold == old(hold) && stream.State() == old(stream.State())
      ensures reply == Held ==> old(hold).None? && head.Some? && hold == Some(Hold(proposal, head.value)) && stream.State().paused
      ensures reply == JournalUnread ==>
        head.None? && hold == old(hold) == None && (stream.State().paused <==> unattributed.Some? || operatorPaused)
    {
      var other := if hold.Some? then Some(hold.value.proposal)
                   else if unattributed.Some? then Some(unattributed.value.proposal) else None;
      if other.Some? && other.value != proposal { return RefusedBusy; }
      if hold.Some? { return AlreadyHeld; }
      stream.PauseReleases();
      if head.None? {
        if unattributed.None? { ReleaseStream(); }
        return JournalUnread;
      }
      hold := Some(Hold(proposal, head.value));
      return Held;
    }

    method AbortProposal(proposal: nat) returns (released: bool)
      modifies this`hold, this`unattributed, stream
      ensures var (b, c) := Abort(old(View()), proposal);
        View() == b && stream.State() == Steer(old(stream.State()), c, operatorPaused)
      ensures released <==> View() != old(View())
      ensures hold == (if old(hold).Some? && old(hold).value.proposal == proposal then None else old(hold))
      ensures unattributed == (if old(unattributed).Some? && old(unattributed).value.proposal == proposal then None else old(unattributed))
      ensures ReleasesIf(released && hold.None? && unattributed.None?, old(stream.State()), stream.State())
    {
      released := false;
      if unattributed.Some? && unattributed.value.proposal == proposal {
        unattributed := None;
        released := true;
      }
      if hold.Some? && hold.value.proposal == proposal {
        hold := None;
        released := true;
      }
      if released && hold.None? && unattributed.None? { ReleaseStream(); }
    }

    method FinishProposal(proposal: nat)
      modifies this`hold, stream
      ensures var (b, c) := Finish(old(View()), proposal);
        View() == b && stream.State() == Steer(old(stream.State()), c, operatorPaused)
      ensures hold == (if old(hold).Some? && old(hold).value.proposal == proposal then None else old(hold))
      ensures ReleasesIf(hold.None? && unattributed.None?, old(stream.State()), stream.State())
    {
      if hold.Some? && hold.value.proposal == proposal { hold := None; }
      if hold.None? && unattributed.None? { ReleaseStream(); }
    }

    method ExpireHold(proposal: nat)
      modifies this`hold, stream
      ensures var (b, c) := Expire(old(View()), proposal);
        View() == b && stream.State() == Steer(old(stream.State()), c, operatorPaused)
      ensures hold == (if old(hold).Some? && old(hold).value.proposal == proposal then None else old(hold))
      ensures ReleasesIf(hold != old(hold) && unattributed.None?, old(stream.State()), stream.State())
    {
      if hold.None? || hold.value.proposal != proposal { return; }
      hold := None;
      if unattributed.None? { ReleaseStream(); }
    }

    /**
     * The start of `commit`, up to where it reads the journal. A dry run changes nothing, and
     * a commit that is already there gives the hold back.
     */
    method EnterCommit(proposal: nat, existing: bool, dryRun: bool, sinceSeq: Option<nat>) returns (entry: Entry)
      modifies this`hold, stream
      ensures entry == Enter(old(View()), proposal, existing, dryRun, sinceSeq)
      ensures entry != AlreadyCommitted || dryRun ==> View() == old(View()) && stream.State() == old(stream.State())
      ensures entry == AlreadyCommitted && !dryRun ==>
        var (b, c) := Finish(old(View()), proposal);
        View() == b && stream.State() == Steer(old(stream.State()), c, operatorPaused)
    {
      var other := if hold.Some? then Some(hold.value.proposal)
                   else if unattributed.Some? then Some(unattributed.value.proposal) else None;
      if other.Some? && other.value != proposal { return EntryBusy; }
      if existing {
        if !dryRun { FinishProposal(proposal); }
        return AlreadyCommitted;
      }
      if unattributed.Some? && !dryRun { return Retry(unattributed.value); }
      if sinceSeq.Some? { return Window(sinceSeq.value); }
      if hold.Some? { return Window(hold.value.since); }
      return NoHold;
    }

    /**
     * The exclusive section of `commit` and the `finally` after it, with the host's answers
     * given. The loop's own steps come to the same end: `LiveLoop.SectionIsTheLoops`.
     */
    method CommitSection(w: Uncommitted, a: Answers) returns (outcome: SectionOutcome)
      modifies this`hold, this`unattributed, stream
      ensures (View(), stream.State()) == SectionEnd(old(View()), old(stream.State()), w, a, operatorPaused)
      ensures outcome.Landed? <==> ReachesPublish(w, a) && Succeeded(a.window) && a.window.committed
      ensures outcome.Landed? ==> outcome.ordinaryFirst == (a.committed < w.since)
      ensures outcome == Failed(AlreadyBatched) <==> a.committed > w.since
      ensures outcome == Failed(DirtyTree) <==> AtItsStart(w, a) && !a.clean
      ensures outcome == Failed(NothingChanged) <==> AtItsStart(w, a) && a.clean && Succeeded(a.window) && !a.window.committed
      ensures outcome == Failed(Exception) <==>
        (a.committed < w.since && a.before.Threw?) || (AtItsStart(w, a) && a.clean && a.window.Threw?)
      ensures unattributed == (if AtItsStart(w, a) && a.clean && a.window.Reported? && !a.window.ok && a.window.applied then Some(w)
                               else old(unattributed))
    {
      outcome := Section(w, a);
      FinishProposal(w.proposal);
    }

    method Section(w: Uncommitted, a: Answers) returns (outcome: SectionOutcome)
      modifies this`unattributed, stream
      ensures View() == if ReachesPublish(w, a) then AfterPublish(old(View()), w, a.window) else old(View())
      ensures stream.State() == if ReachesPublish(w, a) && Succeeded(a.window) then CS.MarkApplied(old(stream.State()), w.until) else old(stream.State())
      ensures outcome.Landed? <==> ReachesPublish(w, a) && Succeeded(a.window) && a.window.committed
      ensures outcome.Landed? ==> outcome.ordinaryFirst == (a.committed < w.since)
      ensures outcome == Failed(AlreadyBatched) <==> a.committed > w.since
      ensures outcome == Failed(DirtyTree) <==> AtItsStart(w, a) && !a.clean
      ensures outcome == Failed(NothingChanged) <==> AtItsStart(w, a) && a.clean && Succeeded(a.window) && !a.window.committed
      ensures outcome == Failed(Exception) <==>
        (a.committed < w.since && a.before.Threw?) || (AtItsStart(w, a) && a.clean && a.window.Threw?)
      ensures unattributed == (if AtItsStart(w, a) && a.clean && a.window.Reported? && !a.window.ok && a.window.applied then Some(w)
                               else old(unattributed))
    {
      if a.committed > w.since { return Failed(AlreadyBatched); }
      var committed := a.committed;
      if a.committed < w.since {
        if a.before.Threw? { return Failed(Exception); }
        if !a.before.ok { return Failed(PublishFailed); }
        committed := a.committedAfter;
      }
      if committed != w.since { return Failed(PublishFailed); }
      if !a.clean { return Failed(DirtyTree); }
      if a.window.Threw? { return Failed(Exception); }
      if !a.window.ok {
        if a.window.applied { unattributed := Some(w); }
        return Failed(PublishFailed);
      }
      stream.MarkAppliedThrough(w.until);
      if !a.window.committed { return Failed(NothingChanged); }
      return Landed(a.committed < w.since);
    }

    /** The exclusive section of `retryUnattributed`, for the proposal that was uncommitted when it was called. */
    method RetrySection(u: Uncommitted, clean: bool, answer: Published) returns (outcome: SectionOutcome)
      modifies this`hold, this`unattributed, stream
      ensures (View(), stream.State()) == RetryEnd(old(View()), old(stream.State()), u, clean, answer, operatorPaused)
      ensures outcome.Landed? <==> clean && Succeeded(answer) && answer.committed
      ensures outcome == Failed(DirtyTree) <==> !clean
      ensures outcome == Failed(Exception) <==> clean && answer.Threw?
      ensures outcome == Failed(PublishFailed) <==> clean && answer.Reported? && !answer.ok
      ensures outcome == Failed(NothingChanged) <==> clean && Succeeded(answer) && !answer.committed
      ensures unattributed == if clean && answer.Reported? && answer.ok then None else old(unattributed)
    {
      if !clean { return Failed(DirtyTree); }
      if answer.Threw? { return Failed(Exception); }
      if !answer.ok { return Failed(PublishFailed); }
      unattributed := None;
      stream.MarkAppliedThrough(u.until);
      FinishProposal(u.proposal);
      if !answer.committed { return Failed(NothingChanged); }
      return Landed(false);
    }
  }

  datatype Code = AlreadyBatched | PublishFailed | DirtyTree | NothingChanged | Exception

  datatype SectionOutcome = Landed(ordinaryFirst: bool) | Failed(code: Code)
}
