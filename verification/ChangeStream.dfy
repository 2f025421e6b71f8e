/**
 * The change stream (packages/live/src/events.ts, `ChangeStream`): events wait in a queue
 * until the stream has been quiet, then the whole queue is handed over as one batch.
 *
 * An event is its journal sequence number; what it says is the journal's entry there.
 */
module ChangeStream {
  import opened Prelude

  /** `batch` is what the consumer holds while `draining`; `armed` is the quiet timer. */
  datatype Stream = Stream(applied: nat, queue: seq<nat>, batch: seq<nat>, draining: bool, paused: bool, armed: bool)

  function Fresh(since: nat): Stream { Stream(since, [], [], false, false, false) }

  /** A `change` frame: at or below the resume point it is a redelivery and is dropped. */
  function Handle(s: Stream, event: nat): Stream {
    if event <= s.applied then s else s.(queue := s.queue + [event], armed := true)
  }

  /** The quiet timer fires: release the queue as one batch, unless something is in the way. */
  function Fire(s: Stream): Stream {
    if s.draining || s.paused || s.queue == [] then s.(armed := false)
    else s.(armed := false, draining := true, batch := s.queue, queue := [])
  }

  /** The consumer returned. */
  function Returned(s: Stream): Stream {
    s.(applied := MaxOf(s.applied, s.batch), batch := [], draining := false, armed := s.armed || s.queue != [])
  }

  /** The consumer threw: its batch goes back to the front. */
  function Threw(s: Stream): Stream {
    var queue := s.batch + s.queue;
    s.(queue := queue, batch := [], draining := false, armed := s.armed || queue != [])
  }

  function Pause(s: Stream): Stream { s.(paused := true) }

  function Resume(s: Stream): Stream { s.(paused := false, armed := true) }

  function MarkApplied(s: Stream, seqNo: nat): Stream { s.(applied := Max(s.applied, seqNo)) }

  // ---------------------------------------------------------------------------
  // Runs against a journal: events 1, 2, 3, ... served in order after the resume point
  // ---------------------------------------------------------------------------

  /**
   * A subscription over a growing journal. `cursor` is the last event this connection was
   * served; `received` the highest ever; `handed` the events of batches that returned;
   * `marked` the highest `MarkApplied`. `accepted` lists the arrivals past the resume point
   * of their time as they came, and `returned` the batches that returned, end to end.
   */
  datatype Feed = Feed(stream: Stream, since: nat, head: nat, cursor: Option<nat>, received: nat, handed: set<nat>,
    marked: nat, accepted: seq<nat>, returned: seq<nat>)

  datatype Event = Append | Connect | Disconnect | Deliver | TimerFires | BatchReturns | BatchThrows | PauseStream | ResumeStream | Mark(seqNo: nat)

  function Next(f: Feed, e: Event): Feed {
    match e
    case Append => f.(head := f.head + 1)
    case Connect => f.(cursor := Some(f.stream.applied))
    case Disconnect => f.(cursor := None)
    case Deliver =>
      if f.cursor.None? || f.cursor.value >= f.head then f else
        var n := f.cursor.value + 1;
        f.(stream := Handle(f.stream, n), cursor := Some(n), received := Max(f.received, n),
          accepted := f.accepted + if f.stream.applied < n then [n] else [])
    case TimerFires => if f.stream.armed then f.(stream := Fire(f.stream)) else f
    case BatchReturns =>
      if !f.stream.draining then f else
        f.(stream := Returned(f.stream), handed := f.handed + (set n | n in f.stream.batch),
          returned := f.returned + f.stream.batch)
    case BatchThrows => if !f.stream.draining then f else f.(stream := Threw(f.stream))
    case PauseStream => f.(stream := Pause(f.stream))
    case ResumeStream => f.(stream := Resume(f.stream))
    case Mark(n) => f.(stream := MarkApplied(f.stream, n), marked := Max(f.marked, n))
  }

  function Run(since: nat, events: seq<Event>): Feed {
    if events == [] then Feed(Fresh(since), since, since, None, since, {}, 0, [], [])
    else Next(Run(since, events[..|events|-1]), events[|events|-1])
  }

  /** Nothing received is lost: it is applied, waiting, or in the batch in flight. */
  ghost predicate NothingSkipped(f: Feed) {
    forall n :: f.stream.applied < n <= f.received ==> n in f.stream.queue || n in f.stream.batch
  }

  /** The resume point passed only what a returned batch held or `MarkApplied` covered. */
  ghost predicate AppliedIsEarned(f: Feed) {
    forall n :: f.since < n <= f.stream.applied ==> n in f.handed || n <= f.marked
  }

  /** A waiting event will be released: unless paused or busy, the timer is running. */
  ghost predicate WillRelease(s: Stream) { s.queue != [] && !s.draining && !s.paused ==> s.armed }

  ghost predicate FeedInv(f: Feed) {
    && NothingSkipped(f) && AppliedIsEarned(f) && WillRelease(f.stream)
    && f.since <= f.received && f.since <= f.stream.applied
    && (!f.stream.draining ==> f.stream.batch == [])
    // The batch in flight reaches back to the resume point without a hole.
    && (forall n, top :: f.stream.applied < n <= top && top in f.stream.batch ==> n in f.stream.batch)
    && (forall n :: n in f.stream.batch || n in f.stream.queue ==> n <= f.received)
    && (f.cursor.Some? ==> f.cursor.value <= f.received || f.cursor.value <= f.stream.applied)
  }

  lemma {:induction false} StepSkipsNothing(f: Feed, e: Event)
    requires FeedInv(f)
    ensures FeedInv(Next(f, e))
  {
    match e
    case Deliver => DeliverSkipsNothing(f);
    case TimerFires =>
    case BatchReturns =>
      if f.stream.draining {
        var s, s' := f.stream, Returned(f.stream);
        forall n | s'.applied < n <= f.received ensures n in s'.queue { assert n !in s.batch; }
        forall n | f.since < n <= s'.applied ensures n in Next(f, e).handed || n <= f.marked {
          if n > s.applied { assert s'.applied in s.batch; }
        }
      }
    case BatchThrows =>
    case _ =>
  }

  lemma DeliverSkipsNothing(f: Feed)
    requires FeedInv(f)
    ensures FeedInv(Next(f, Deliver))
  {
    if f.cursor.Some? && f.cursor.value < f.head {
      var n, s := f.cursor.value + 1, f.stream;
      var f' := Next(f, Deliver);
      var s' := f'.stream;
      assert forall m :: m in s.queue ==> m in s'.queue;
      forall m | s'.applied < m <= f'.received ensures m in s'.queue || m in s'.batch {
        if m == n { assert s.applied < n; assert s'.queue[|s.queue|] == n; }
      }
    }
  }

  /**
   * No skipped event: whatever the interleaving of journal growth, connections dropped and
   * resumed, deliveries (fresh or again), quiet-timer firings, pauses, failing batches and
   * `MarkApplied`, every event between the resume point and the highest received one is
   * waiting or in flight, and the resume point never passes an event that was not handed
   * over in a batch that returned or covered by a mark.
   */
  lemma {:induction false} NoSkippedEvent(since: nat, events: seq<Event>)
    ensures FeedInv(Run(since, events))
    decreases |events|
  {
    if events != [] {
      NoSkippedEvent(since, events[..|events|-1]);
      StepSkipsNothing(Run(since, events[..|events|-1]), events[|events|-1]);
    }
  }

  // ---------------------------------------------------------------------------
  // In order
  // ---------------------------------------------------------------------------

  /** What was accepted, as it came, is what returned, then the batch in flight, then the queue. */
  ghost predicate InArrivalOrder(f: Feed) {
    && f.returned + f.stream.batch + f.stream.queue == f.accepted
    && (!f.stream.draining ==> f.stream.batch == [])
    && f.marked <= f.stream.applied
  }

  /**
   * First in, first out: in every run, across disconnects, redeliveries, pauses, marks and
   * batches thrown back, the batches that returned, the one in flight and the queue are, end
   * to end, the accepted arrivals in the order they came. Nothing overtakes, nothing is
   * dropped and nothing is handed over twice for one arrival.
   */
  lemma {:induction false} FirstInFirstOut(since: nat, events: seq<Event>)
    ensures InArrivalOrder(Run(since, events))
    decreases |events|
  {
    if events != [] {
      FirstInFirstOut(since, events[..|events|-1]);
      StepKeepsOrder(Run(since, events[..|events|-1]), events[|events|-1]);
    }
  }

  lemma StepKeepsOrder(f: Feed, e: Event)
    requires InArrivalOrder(f)
    ensures InArrivalOrder(Next(f, e))
  {
    var s, s' := f.stream, Next(f, e).stream;
    assert e == BatchThrows && s.draining ==> f.returned + (s.batch + s.queue) == f.returned + s.batch + s.queue;
    assert f.returned + s.batch + (s.queue + []) == f.returned + s.batch + s.queue;
  }

  /**
   * One batch at a time, all of the queue at once: a step puts a batch in flight exactly when
   * the timer fires with something waiting and nothing in the way, and then the queue is
   * empty and the batch is all that waited.
   */
  lemma OneWholeBatch(f: Feed, e: Event)
    ensures var s, s' := f.stream, Next(f, e).stream;
      && (!s.draining && s'.draining <==> e == TimerFires && s.armed && !s.draining && !s.paused && s.queue != [])
      && (!s.draining && s'.draining ==> s'.batch == s.queue && s'.queue == [])
      && (s.draining && s'.draining ==> s'.batch == s.batch && s.queue <= s'.queue)
      && (s.draining && !s'.draining ==> e in {BatchReturns, BatchThrows})
  {
  }

  // ---------------------------------------------------------------------------
  // Without holes
  // ---------------------------------------------------------------------------

  /**
   * What waits and what is in flight reach back to the resume point without a hole, up to
   * what the connection was served.
   */
  ghost predicate Gapless(s: Stream, cursor: Option<nat>) {
    && (!s.draining ==> s.batch == [])
    && (forall n, top :: s.applied < n <= top && top in s.batch ==> n in s.batch)
    && (forall n, top :: s.applied < n <= top && top in s.queue ==> n in s.queue || n in s.batch)
    && (cursor.Some? ==> forall n :: s.applied < n <= cursor.value ==> n in s.queue || n in s.batch)
  }

  lemma HandleKeepsGapless(s: Stream, cursor: nat)
    requires Gapless(s, Some(cursor))
    ensures Gapless(Handle(s, cursor + 1), Some(cursor + 1))
  {
    var s' := Handle(s, cursor + 1);
    assert forall n :: n in s'.queue <==> n in s.queue || (n == cursor + 1 && n > s.applied);
  }

  lemma FireKeepsGapless(s: Stream, cursor: Option<nat>)
    requires Gapless(s, cursor)
    ensures Gapless(Fire(s), cursor)
  {
  }

  lemma ReturnedKeepsGapless(s: Stream, cursor: Option<nat>)
    requires Gapless(s, cursor)
    ensures Gapless(Returned(s), cursor)
  {
    assert forall n :: n in s.batch ==> n <= Returned(s).applied;
  }

  lemma ThrewKeepsGapless(s: Stream, cursor: Option<nat>)
    requires Gapless(s, cursor)
    ensures Gapless(Threw(s), cursor)
  {
    assert forall n :: n in s.batch + s.queue <==> n in s.batch || n in s.queue;
  }

  // ---------------------------------------------------------------------------
  // The object
  // ---------------------------------------------------------------------------

  class Subscription {
    var appliedSeq: nat
    var queue: seq<nat>
    var batch: seq<nat>
    var draining: bool
    var paused: bool
    var armed: bool

    ghost function State(): Stream reads this { Stream(appliedSeq, queue, batch, draining, paused, armed) }

    constructor (since: nat)
      ensures State() == Fresh(since)
    {
      appliedSeq, queue, batch := since, [], [];
      draining, paused, armed := false, false, false;
    }

    method HandleChange(event: nat)
      modifies this
      ensures State() == Handle(old(State()), event)
    {
      if event <= appliedSeq { return; }
      queue := queue + [event];
      armed := true;
    }

    /** Returns the batch to hand over, empty when nothing is released. */
    method DrainOnTimer() returns (released: seq<nat>)
      modifies this
      ensures State() == Fire(old(State()))
      ensures released == if old(draining) || old(paused) then [] else old(queue)
    {
      armed := false;
      if draining || paused || queue == [] { return []; }
      draining := true;
      batch, queue := queue, [];
      return batch;
    }

    method BatchReturned()
      modifies this
      ensures State() == Returned(old(State()))
    {
      var highest, i := appliedSeq, |batch|;
      while i > 0
        invariant 0 <= i <= |batch| && State() == old(State())
        invariant highest == MaxOf(appliedSeq, batch[i..])
      {
        i := i - 1;
        assert batch[i..] == [batch[i]] + batch[i + 1..];
        if highest < batch[i] { highest := batch[i]; }
      }
      assert batch[0..] == batch;
      appliedSeq, batch, draining := highest, [], false;
      if queue != [] { armed := true; }
    }

    method BatchThrew()
      modifies this
      ensures State() == Threw(old(State()))
    {
      queue, batch, draining := batch + queue, [], false;
      if queue != [] { armed := true; }
    }

    method PauseReleases()
      modifies this
      ensures State() == Pause(old(State()))
    { paused := true; }

    method ResumeReleases()
      modifies this
      ensures State() == Resume(old(State()))
    {
      paused := false;
      armed := true;
    }

    method MarkAppliedThrough(seqNo: nat)
      modifies this
      ensures State() == MarkApplied(old(State()), seqNo)
    {
      if appliedSeq < seqNo { appliedSeq := seqNo; }
    }
  }
}
