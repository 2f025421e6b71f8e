/**
 * The daemon's single work queue (packages/live/src/queue.ts).
 *
 * `Queue` is the state between two turns of the event loop. The queue's `drain` is an async
 * loop: it runs synchronously until the task it started awaits, and goes on when that task
 * settles. `Pump` is one such stretch, so the functions below are the whole protocol.
 */
module WorkQueue {
  import opened Prelude

  datatype Kind = Apply | Rebuild | Merge | FullRegen | Measure | Proposal | Verify

  /** The recovery path: refusing these would make a block permanent. */
  predicate RunsWhileBlocked(kind: Kind) { kind == Merge || kind == Measure }

  datatype Entry<T> = Entry(id: nat, kind: Kind, job: T)

  datatype Queue<T> = Queue(pending: seq<Entry<T>>, running: Option<Entry<T>>, blocked: bool, draining: bool, completed: nat)

  datatype Submission = Refused | Folded | Accepted

  /** What a pending task says when asked to take a new one of its kind in. */
  type Absorb<!T> = (T, T) -> Option<T>

  predicate Eligible<T>(e: Entry<T>, blocked: bool) { !blocked || RunsWhileBlocked(e.kind) }

  /** Index of the first entry that may run now, or the length when there is none. */
  function FirstEligible<T>(pending: seq<Entry<T>>, blocked: bool): (i: nat)
    ensures i <= |pending|
    ensures i < |pending| ==> Eligible(pending[i], blocked)
    ensures forall j :: 0 <= j < i ==> !Eligible(pending[j], blocked)
  {
    if pending == [] || Eligible(pending[0], blocked) then 0
    else 1 + FirstEligible(pending[1..], blocked)
  }

  function Empty<T>(): Queue<T> { Queue([], None, false, false, 0) }

  /** The drain loop from the top: start the first task allowed to run, or stop draining. */
  function Pump<T>(q: Queue<T>): Queue<T> {
    var i := FirstEligible(q.pending, q.blocked);
    if i == |q.pending| then q.(running := None, draining := false)
    else q.(running := Some(q.pending[i]), pending := q.pending[..i] + q.pending[i+1..])
  }

  function Drain<T>(q: Queue<T>): Queue<T> {
    if q.draining then q else Pump(q.(draining := true))
  }

  /** The first pending entry of the task's kind that absorbs it, or the length. */
  function Absorber<T>(pending: seq<Entry<T>>, e: Entry<T>, absorb: Absorb<T>): (i: nat)
    ensures i <= |pending|
    ensures i < |pending| ==> pending[i].kind == e.kind && absorb(pending[i].job, e.job).Some?
  {
    if pending == [] || (pending[0].kind == e.kind && absorb(pending[0].job, e.job).Some?) then 0
    else 1 + Absorber(pending[1..], e, absorb)
  }

  function Submit<T>(q: Queue<T>, e: Entry<T>, absorb: Absorb<T>): (Queue<T>, Submission) {
    if q.blocked && !RunsWhileBlocked(e.kind) then (q, Refused)
    else
      var i := Absorber(q.pending, e, absorb);
      if i < |q.pending| then
        var merged := q.pending[i].(job := absorb(q.pending[i].job, e.job).value);
        (q.(pending := q.pending[i := merged]), Folded)
      else (Drain(q.(pending := q.pending + [e])), Accepted)
  }

  /** The running task resolved or threw; the loop goes on with the next one. */
  function Settle<T>(q: Queue<T>, ok: bool): Queue<T> {
    Pump(q.(running := None, completed := q.completed + if ok then 1 else 0))
  }

  function Block<T>(q: Queue<T>): Queue<T> { q.(blocked := true, pending := []) }

  function Unblock<T>(q: Queue<T>): Queue<T> {
    if !q.blocked then q else Drain(q.(blocked := false))
  }

  // ---------------------------------------------------------------------------
  // The queue is one line: the running task first, then the pending ones.
  // ---------------------------------------------------------------------------

  function Line<T>(q: Queue<T>): seq<Entry<T>> {
    (if q.running.Some? then [q.running.value] else []) + q.pending
  }

  /**
   * Holds between any two turns. The last clause is "no lost wake-up": a queue that is not
   * draining has nothing waiting at all, not merely nothing that may run.
   */
  ghost predicate Inv<T>(q: Queue<T>) {
    && (q.blocked ==> forall e :: e in q.pending ==> RunsWhileBlocked(e.kind))
    && (q.draining <==> q.running.Some?)
    && (!q.draining ==> q.pending == [])
  }

  /** Under the invariant the scan for a task that may run always takes the front one. */
  lemma ScanTakesTheFront<T>(q: Queue<T>)
    requires Inv(q)
    ensures FirstEligible(q.pending, q.blocked) == 0
  {
    if q.pending != [] { assert q.pending[0] in q.pending; }
  }

  predicate Absorbs<T>(waiting: Entry<T>, e: Entry<T>, absorb: Absorb<T>) {
    waiting.kind == e.kind && absorb(waiting.job, e.job).Some?
  }

  /** The first waiting entry that absorbs the newcomer took its job in; nothing else changed. */
  ghost predicate FoldedInto<T>(q: Queue<T>, q': Queue<T>, e: Entry<T>, absorb: Absorb<T>) {
    exists i ::
      && 0 <= i < |q.pending| && Absorbs(q.pending[i], e, absorb)
      && (forall k :: 0 <= k < i ==> !Absorbs(q.pending[k], e, absorb))
      && q' == q.(pending := q.pending[i := q.pending[i].(job := absorb(q.pending[i].job, e.job).value)])
  }

  lemma SubmitKeepsLine<T>(q: Queue<T>, e: Entry<T>, absorb: Absorb<T>)
    requires Inv(q)
    ensures var (q', how) := Submit(q, e, absorb);
      && Inv(q') && q'.blocked == q.blocked && q'.completed == q.completed
      && (q.running.Some? ==> q'.running == q.running)
      && (how == Refused <==> q.blocked && e.kind !in {Merge, Measure})
      && (how == Refused ==> q' == q)
      && (how == Accepted ==> Line(q') == Line(q) + [e])
      && (how == Folded ==> FoldedInto(q, q', e, absorb))
  {
    hide Drain, FirstEligible, FoldedInto, Line, Inv;
    var (q', how) := Submit(q, e, absorb);
    if how == Accepted { AcceptedKeepsLine(q, e); } else if how == Folded { FoldedKeepsLine(q, e, absorb); }
  }

  lemma AcceptedKeepsLine<T>(q: Queue<T>, e: Entry<T>)
    requires Inv(q) && Eligible(e, q.blocked)
    ensures var q' := Drain(q.(pending := q.pending + [e]));
      && Inv(q') && q'.blocked == q.blocked && q'.completed == q.completed
      && (q.running.Some? ==> q'.running == q.running) && Line(q') == Line(q) + [e]
  {
    hide FirstEligible, Pump;
    if !q.draining {
      assert q.pending + [e] == [e] && FirstEligible([e], q.blocked) == 0 by { FrontIsEligible(e, q.blocked); }
      PumpTakesTheFront(q.(pending := [e], draining := true));
    } else {
      assert forall x :: x in q.pending + [e] ==> x in q.pending || x == e;
      assert [q.running.value] + (q.pending + [e]) == Line(q) + [e];
    }
  }

  lemma FrontIsEligible<T>(e: Entry<T>, blocked: bool)
    requires Eligible(e, blocked)
    ensures FirstEligible([e], blocked) == 0
  {
  }

  /** A waiting entry's job takes the newcomer in: the line is as long as it was. */
  lemma FoldedKeepsLine<T>(q: Queue<T>, e: Entry<T>, absorb: Absorb<T>)
    requires Inv(q) && Submit(q, e, absorb).1 == Folded
    ensures var q' := Submit(q, e, absorb).0;
      Inv(q') && q'.blocked == q.blocked && q'.running == q.running && FoldedInto(q, q', e, absorb)
  {
    hide Drain, Line;
    var i, q' := Absorber(q.pending, e, absorb), Submit(q, e, absorb).0;
    FirstAbsorbs(q.pending, e, absorb);
    assert Absorbs(q.pending[i], e, absorb);
    forall x | x in q'.pending ensures q.blocked ==> RunsWhileBlocked(x.kind) {
      var k :| 0 <= k < |q'.pending| && q'.pending[k] == x;
      assert q.pending[k] in q.pending && q.pending[i] in q.pending;
    }
  }

  lemma {:induction false} FirstAbsorbs<T>(pending: seq<Entry<T>>, e: Entry<T>, absorb: Absorb<T>)
    ensures forall k :: 0 <= k < Absorber(pending, e, absorb) ==> !Absorbs(pending[k], e, absorb)
    decreases |pending|
  {
    if pending != [] {
      FirstAbsorbs(pending[1..], e, absorb);
      assert forall k :: 0 < k < |pending| ==> pending[k] == pending[1..][k - 1];
    }
  }

  lemma SettleKeepsLine<T>(q: Queue<T>, ok: bool)
    requires Inv(q) && q.running.Some?
    ensures var q' := Settle(q, ok);
      && Inv(q') && Line(q') == Line(q)[1..] && q'.blocked == q.blocked && q'.completed == q.completed + (if ok then 1 else 0)
      && q'.running == (if q.pending == [] then None else Some(q.pending[0]))
      && q'.pending == (if q.pending == [] then [] else q.pending[1..])
  {
    ScanTakesTheFront(q);
    PumpTakesTheFront(q.(running := None, completed := q.completed + if ok then 1 else 0));
    assert Line(q)[1..] == q.pending;
  }

  /** The loop from the top, when the scan takes the front: the line is what was pending. */
  lemma PumpTakesTheFront<T>(q: Queue<T>)
    requires q.draining && FirstEligible(q.pending, q.blocked) == 0
    requires q.blocked ==> forall e :: e in q.pending ==> RunsWhileBlocked(e.kind)
    ensures var q' := Pump(q);
      && Inv(q') && Line(q') == q.pending && q'.blocked == q.blocked && q'.completed == q.completed
      && q'.running == (if q.pending == [] then None else Some(q.pending[0]))
      && q'.pending == (if q.pending == [] then [] else q.pending[1..])
  {
    hide FirstEligible;
    var q' := Pump(q);
    if q.pending == [] {
      assert q' == q.(running := None, draining := false);
    } else {
      FrontAndRest(q.pending);
      assert q' == q.(running := Some(q.pending[0]), pending := q.pending[1..]);
      assert forall e :: e in q.pending[1..] ==> e in q.pending;
    }
  }

  lemma FrontAndRest<T>(s: seq<T>)
    requires s != []
    ensures s[..0] + s[1..] == s[1..] && [s[0]] + s[1..] == s
  {
  }

  lemma BlockKeepsLine<T>(q: Queue<T>)
    requires Inv(q)
    ensures Inv(Block(q)) && Block(q).running == q.running && Block(q).pending == []
  {
  }

  lemma UnblockKeepsLine<T>(q: Queue<T>)
    requires Inv(q)
    ensures Inv(Unblock(q)) && Unblock(q).running == q.running && Unblock(q).pending == q.pending && !Unblock(q).blocked
  {
  }

  // ---------------------------------------------------------------------------
  // Whole runs
  // ---------------------------------------------------------------------------

  datatype Event<T> = Submitted(kind: Kind, job: T) | Settled(ok: bool) | Blocked | Unblocked

  /** A run so far: the queue and where every submitted task went. Tasks are numbered as they come. */
  datatype History<T> = History(
    queue: Queue<T>, next: nat,
    refused: set<nat>, folded: set<nat>, rejected: set<nat>, started: seq<nat>, finished: set<nat>)

  function Ids<T>(entries: seq<Entry<T>>): (ids: seq<nat>)
    ensures |ids| == |entries|
  {
    seq(|entries|, i requires 0 <= i < |entries| => entries[i].id)
  }

  function Elems(s: seq<nat>): set<nat> { set n | n in s }

  /** Ids the step started running: the one running in `after` if it was not running before. */
  ghost function Starts<T>(before: Queue<T>, after: Queue<T>): seq<nat> {
    if after.running.Some? && after.running != before.running then [after.running.value.id] else []
  }

  ghost function Next<T>(h: History<T>, event: Event<T>, absorb: Absorb<T>): History<T> {
    match event
    case Submitted(kind, job) =>
      var (q, how) := Submit(h.queue, Entry(h.next, kind, job), absorb);
      h.(queue := q, next := h.next + 1, started := h.started + Starts(h.queue, q),
         refused := h.refused + if how == Refused then {h.next} else {},
         folded := h.folded + if how == Folded then {h.next} else {})
    case Settled(ok) =>
      if h.queue.running.None? then h else
        var q := Settle(h.queue, ok);
        h.(queue := q, started := h.started + Starts(h.queue, q), finished := h.finished + {h.queue.running.value.id})
    case Blocked => h.(queue := Block(h.queue), rejected := h.rejected + Elems(Ids(h.queue.pending)))
    case Unblocked =>
      var q := Unblock(h.queue);
      h.(queue := q, started := h.started + Starts(h.queue, q))
  }

  ghost function Run<T>(events: seq<Event<T>>, absorb: Absorb<T>): History<T> {
    if events == [] then History(Empty(), 0, {}, {}, {}, [], {})
    else Next(Run(events[..|events|-1], absorb), events[|events|-1], absorb)
  }

  /** Everything ever started, in the order it started, then everything waiting, in order. */
  function Tickets<T>(h: History<T>): seq<nat> { h.started + Ids(h.queue.pending) }

  ghost predicate Increasing(s: seq<nat>) { forall i, j :: 0 <= i < j < |s| ==> s[i] < s[j] }

  /**
   * The protocol. Tickets increase, so starts are first come first served and nothing
   * waiting came before something started. Every submitted task is in exactly one place:
   * refused, folded, rejected by a block, or holding a ticket; and a ticket that was called
   * is the running task's, the last one called, or finished.
   */
  ghost predicate HistoryInv<T>(h: History<T>) {
    && Inv(h.queue)
    && Increasing(Tickets(h))
    && (forall n: nat :: n < h.next <==> n in h.refused || n in h.folded || n in h.rejected || n in Tickets(h))
    && h.refused !! h.folded !! h.rejected !! Elems(Tickets(h))
    && (match h.queue.running
        case None => h.finished == Elems(h.started)
        case Some(e) => |h.started| > 0 && h.started[|h.started|-1] == e.id && h.finished == Elems(h.started[..|h.started|-1]))
  }

  lemma {:induction false} StepKeepsProtocol<T>(h: History<T>, event: Event<T>, absorb: Absorb<T>)
    requires HistoryInv(h)
    ensures HistoryInv(Next(h, event, absorb))
  {
    match event
    case Submitted(kind, job) => SubmitKeepsProtocol(h, kind, job, absorb);
    case Settled(ok) => if h.queue.running.Some? { SettleKeepsProtocol(h, ok, absorb); }
    case Blocked => BlockKeepsProtocol(h, absorb);
    case Unblocked => UnblockKeepsProtocol(h, absorb);
  }

  lemma UnblockKeepsProtocol<T>(h: History<T>, absorb: Absorb<T>)
    requires HistoryInv(h)
    ensures HistoryInv(Next(h, Unblocked, absorb))
  {
    hide Unblock, Ids;
    var h' := Next(h, Unblocked, absorb);
    UnblockKeepsLine(h.queue);
    assert h'.started == h.started;
    assert Tickets(h') == Tickets(h);
  }

  lemma BlockKeepsProtocol<T>(h: History<T>, absorb: Absorb<T>)
    requires HistoryInv(h)
    ensures HistoryInv(Next(h, Blocked, absorb))
  {
    hide Pump, Drain, Submit, Settle, Ids;
    var h' := Next(h, Blocked, absorb);
    var waiting := Ids(h.queue.pending);
    BlockKeepsLine(h.queue);
    TicketsSplit(h);
    NothingWaits(h'.queue);
    assert Tickets(h') == h.started + Ids(h'.queue.pending) == h.started;
    assert h'.rejected == h.rejected + Elems(waiting);
    assert forall n :: n in Tickets(h) <==> n in h.started || n in waiting;
    assert Elems(Tickets(h')) == Elems(h.started);
  }

  lemma NothingWaits<T>(q: Queue<T>)
    requires q.pending == []
    ensures Ids(q.pending) == []
  {
  }

  lemma TicketsSplit<T>(h: History<T>)
    requires Increasing(Tickets(h))
    ensures Increasing(h.started) && Elems(h.started) !! Elems(Ids(h.queue.pending))
    ensures Elems(Tickets(h)) == Elems(h.started) + Elems(Ids(h.queue.pending))
  {
    var t, k := Tickets(h), |h.started|;
    assert h.started == t[..k] && Ids(h.queue.pending) == t[k..];
    forall i, j | 0 <= i < k && 0 <= j < |t| - k ensures h.started[i] != Ids(h.queue.pending)[j] {
      assert t[i] < t[k + j];
    }
  }

  lemma SubmitKeepsProtocol<T>(h: History<T>, kind: Kind, job: T, absorb: Absorb<T>)
    requires HistoryInv(h)
    ensures HistoryInv(Next(h, Submitted(kind, job), absorb))
  {
    hide Submit, HistoryInv, Ids;
    var e := Entry(h.next, kind, job);
    var (q, how) := Submit(h.queue, e, absorb);
    var h' := Next(h, Submitted(kind, job), absorb);
    assert Inv(q) by {
      HistoryQueue(h);
      SubmitKeepsLine(h.queue, e, absorb);
    }
    if how == Accepted {
      AcceptedTicket(h, kind, job, absorb);
      TicketTaken(h, h');
    } else {
      NoTicket(h, kind, job, absorb);
      PutAside(h, h', if how == Refused then {h.next} else {}, if how == Folded then {h.next} else {});
    }
  }

  lemma HistoryQueue<T>(h: History<T>)
    requires HistoryInv(h)
    ensures Inv(h.queue)
  {
  }

  /** A newcomer gets the next ticket; alone, it is called at once. */
  lemma TicketTaken<T>(h: History<T>, h': History<T>)
    requires HistoryInv(h) && Inv(h'.queue) && Tickets(h') == Tickets(h) + [h.next]
    requires h' == h.(queue := h'.queue, next := h.next + 1, started := h'.started)
    requires if h.queue.running.Some? then h'.started == h.started && h'.queue.running == h.queue.running
             else h'.started == h.started + [h.next] && h'.queue.running.Some? && h'.queue.running.value.id == h.next
    ensures HistoryInv(h')
  {
    NewTicket(Tickets(h), h.next);
    if h.queue.running.None? { assert h'.started[..|h'.started| - 1] == h.started; }
  }

  /** A refused or folded newcomer leaves the tickets alone. */
  lemma PutAside<T>(h: History<T>, h': History<T>, refused: set<nat>, folded: set<nat>)
    requires HistoryInv(h) && Inv(h'.queue) && Ids(h'.queue.pending) == Ids(h.queue.pending) && h'.queue.running == h.queue.running
    requires h' == h.(queue := h'.queue, next := h.next + 1, refused := h.refused + refused, folded := h.folded + folded)
    requires refused !! folded && refused + folded == {h.next}
    ensures HistoryInv(h')
  {
    assert Tickets(h') == Tickets(h);
    assert forall n: nat :: n in refused || n in folded <==> n == h.next;
  }

  lemma NoTicket<T>(h: History<T>, kind: Kind, job: T, absorb: Absorb<T>)
    requires HistoryInv(h) && Submit(h.queue, Entry(h.next, kind, job), absorb).1 != Accepted
    ensures var h' := Next(h, Submitted(kind, job), absorb);
      Ids(h'.queue.pending) == Ids(h.queue.pending) && h'.queue.running == h.queue.running && h'.started == h.started
  {
    hide Drain, Pump, Absorber;
    var h' := Next(h, Submitted(kind, job), absorb);
    assert h'.started == h.started;
  }

  lemma NewTicket(t: seq<nat>, n: nat)
    requires Increasing(t) && (forall m :: m in t ==> m < n)
    ensures Increasing(t + [n]) && Elems(t + [n]) == Elems(t) + {n}
  {
    forall i, j | 0 <= i < j < |t + [n]| ensures (t + [n])[i] < (t + [n])[j] { assert t[i] in t; }
  }

  lemma AcceptedTicket<T>(h: History<T>, kind: Kind, job: T, absorb: Absorb<T>)
    requires HistoryInv(h) && Submit(h.queue, Entry(h.next, kind, job), absorb).1 == Accepted
    ensures var h' := Next(h, Submitted(kind, job), absorb);
      && Tickets(h') == Tickets(h) + [h.next]
      && (if h.queue.running.Some? then h'.started == h.started && h'.queue.running == h.queue.running
          else h'.started == h.started + [h.next] && h'.queue.running == Some(Entry(h.next, kind, job)))
  {
    hide Submit, Increasing, Elems;
    var e := Entry(h.next, kind, job);
    var q := Submit(h.queue, e, absorb).0;
    SubmitKeepsLine(h.queue, e, absorb);
    LineGrows(h.queue, q, e);
    if h.queue.running.Some? { assert Ids(q.pending) == Ids(h.queue.pending) + [e.id]; }
  }

  /** One more on the line: behind the rest, or alone and running. */
  lemma LineGrows<T>(q: Queue<T>, q': Queue<T>, e: Entry<T>)
    requires Inv(q) && Inv(q') && Line(q') == Line(q) + [e] && (q.running.Some? ==> q'.running == q.running)
    ensures if q.running.Some? then q'.running == q.running && q'.pending == q.pending + [e]
            else q'.running == Some(e) && q'.pending == []
  {
    if q.running.Some? {
      assert Line(q')[1..] == q'.pending && (Line(q) + [e])[1..] == q.pending + [e];
    } else {
      assert Line(q') == [e] && q'.running.Some?;
      assert Line(q')[0] == q'.running.value;
    }
  }

  /** `after` is `before` with its running task gone and the front of the line started. */
  ghost predicate Advanced<T>(before: Queue<T>, after: Queue<T>) {
    && before.running.Some? && Inv(after)
    && (if before.pending == [] then after.running == None && after.pending == []
        else after.running == Some(before.pending[0]) && after.pending == before.pending[1..])
  }

  lemma SettleKeepsProtocol<T>(h: History<T>, ok: bool, absorb: Absorb<T>)
    requires HistoryInv(h) && h.queue.running.Some?
    ensures HistoryInv(Next(h, Settled(ok), absorb))
  {
    var q := Settle(h.queue, ok);
    assert Advanced(h.queue, q) by { SettleKeepsLine(h.queue, ok); }
    var h' := h.(queue := q, started := h.started + Starts(h.queue, q), finished := h.finished + {h.queue.running.value.id});
    AdvanceKeepsProtocol(h, h');
    assert h' == Next(h, Settled(ok), absorb);
  }

  lemma AdvanceKeepsProtocol<T>(h: History<T>, h': History<T>)
    requires HistoryInv(h) && Advanced(h.queue, h'.queue)
    requires h' == h.(queue := h'.queue, started := h.started + Starts(h.queue, h'.queue),
                      finished := h.finished + {h.queue.running.value.id})
    ensures HistoryInv(h')
  {
    var k := |h.started|;
    AdvanceCallsNext(h.started, h.queue, h'.queue);
    assert Tickets(h') == Tickets(h);
    assert h.started == h.started[..k - 1] + [h.queue.running.value.id];
    assert h'.finished == Elems(h.started);
    if h.queue.pending != [] { assert h'.started[..k] == h.started; }
  }

  /** Settling a task calls the next ticket, if any, and loses none. */
  lemma AdvanceCallsNext<T>(started: seq<nat>, q: Queue<T>, q': Queue<T>)
    requires Advanced(q, q') && Increasing(started + Ids(q.pending))
    requires |started| > 0 && started[|started|-1] == q.running.value.id
    ensures Starts(q, q') == if q.pending == [] then [] else [q.pending[0].id]
    ensures started + Starts(q, q') + Ids(q'.pending) == started + Ids(q.pending)
  {
    if q.pending != [] {
      var t := started + Ids(q.pending);
      assert t[|started| - 1] < t[|started|] == q.pending[0].id;
      assert Ids(q.pending) == [q.pending[0].id] + Ids(q'.pending);
    }
  }

  /**
   * The queue protocol, for every sequence of submissions, settlements, blocks and
   * unblocks: at most one task runs, every submitted task is in exactly one place, starts
   * are first come first served, and a waiting task implies the loop is draining.
   */
  lemma {:induction false} QueueProtocol<T>(events: seq<Event<T>>, absorb: Absorb<T>)
    ensures HistoryInv(Run(events, absorb))
    decreases |events|
  {
    if events == [] {
    } else {
      QueueProtocol(events[..|events|-1], absorb);
      StepKeepsProtocol(Run(events[..|events|-1], absorb), events[|events|-1], absorb);
    }
  }

  // ---------------------------------------------------------------------------
  // The object
  // ---------------------------------------------------------------------------

  /** The source's `WorkQueue`: its fields, updated in place. */
  class TaskQueue<T(0)> {
    var pending: seq<Entry<T>>
    var running: Option<Entry<T>>
    var blocked: bool
    var draining: bool
    var completed: nat
    const absorb: Absorb<T>

    ghost function State(): Queue<T> reads this { Queue(pending, running, blocked, draining, completed) }

    constructor (absorb: Absorb<T>)
      ensures State() == Empty() && this.absorb == absorb
    {
      pending, running, blocked, draining, completed := [], None, false, false, 0;
      this.absorb := absorb;
    }

    /** One turn of the drain loop: the scan for a task it may run, then that task or the end. */
    method RunNext()
      modifies this
      ensures State() == Pump(old(State()))
    {
      var i := 0;
      while i < |pending| && !Eligible(pending[i], blocked)
        invariant i <= |pending| && State() == old(State())
        invariant FirstEligible(pending, blocked) == i + FirstEligible(pending[i..], blocked)
      {
        assert pending[i..][1..] == pending[i + 1..];
        i := i + 1;
      }
      if i == |pending| {
        running, draining := None, false;
      } else {
        running := Some(pending[i]);
        pending := pending[..i] + pending[i + 1..];
      }
    }

    method DrainLoop()
      modifies this
      ensures State() == Drain(old(State()))
    {
      if draining { return; }
      draining := true;
      RunNext();
    }

    method Enqueue(e: Entry<T>) returns (how: Submission)
      modifies this
      ensures (State(), how) == Submit(old(State()), e, absorb)
    {
      if blocked && !RunsWhileBlocked(e.kind) { return Refused; }
      var i := 0;
      while i < |pending|
        invariant i <= |pending| && State() == old(State())
        invariant Absorber(pending, e, absorb) == i + Absorber(pending[i..], e, absorb)
      {
        if pending[i].kind == e.kind {
          var merged := absorb(pending[i].job, e.job);
          if merged.Some? {
            pending := pending[i := pending[i].(job := merged.value)];
            return Folded;
          }
        }
        assert pending[i..][1..] == pending[i + 1..];
        i := i + 1;
      }
      pending := pending + [e];
      DrainLoop();
      return Accepted;
    }

    method TaskSettled(ok: bool)
      modifies this
      ensures State() == Settle(old(State()), ok)
    {
      if ok { completed := completed + 1; }
      running := None;
      RunNext();
    }

    /** Returns the entries whose promises are rejected, in order. */
    method Stop() returns (rejected: seq<Entry<T>>)
      modifies this
      ensures State() == Block(old(State()))
      ensures rejected == old(pending)
    {
      blocked := true;
      rejected := [];
      while pending != []
        invariant blocked && running == old(running) && draining == old(draining) && completed == old(completed)
        invariant rejected + pending == old(pending)
        decreases |pending|
      {
        rejected := rejected + [pending[0]];
        pending := pending[1..];
      }
    }

    method Resume()
      modifies this
      ensures State() == Unblock(old(State()))
    {
      if !blocked { return; }
      blocked := false;
      DrainLoop();
    }
  }
}
