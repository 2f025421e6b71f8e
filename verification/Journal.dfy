/**
 * Reading the change journal (packages/live/src/proposal.ts): a range proven complete, the
 * wait for a check-in, and whether a window can be attributed to one proposal.
 *
 * The journal is whatever answers a read; it is asked with a call number so that two reads
 * at the same position may be answered differently.
 */
module Journal {
  import opened Prelude
  import opened Sorting

  datatype Target = FunctionTarget | GlobalTarget | DatatypeTarget | ProgramTarget

  datatype ChangeEvent = ChangeEvent(seqNo: int, kind: string, target: Target, txId: Option<int>, txDescription: Option<string>)

  /** The events of one page; the head it also reports is only used in messages. */
  type Reader = (nat, int) -> seq<ChangeEvent>

  const CHECKIN_TX := "Update Metadata"

  datatype Error = Gap | Mixed | NothingChanged

  predicate BySeq(a: ChangeEvent, b: ChangeEvent) { a.seqNo <= b.seqNo }

  /** What a page holds of the range still to be read, in order. */
  function Served(page: seq<ChangeEvent>, after: int, upTo: int): seq<ChangeEvent> {
    Sort(Filter(page, (e: ChangeEvent) => after < e.seqNo <= upTo), BySeq)
  }

  /** Events numbered after+1, after+2, ... without a hole. */
  ghost predicate Contiguous(events: seq<ChangeEvent>, after: int) {
    forall i :: 0 <= i < |events| ==> events[i].seqNo == after + 1 + i
  }

  /** A page the reader may not go on from. */
  ghost predicate Unusable(page: seq<ChangeEvent>, after: int, upTo: int) {
    Served(page, after, upTo) == [] || !Contiguous(Served(page, after, upTo), after)
  }

  /** Some read at or past `from` answered with this event, which lay ahead of it. */
  ghost predicate WasServed(journal: Reader, from: int, e: ChangeEvent) {
    exists call: nat, after: int :: from <= after < e.seqNo && e in journal(call, after)
  }

  /**
   * `readRange`: whatever the pages say, it ends, and either it fails on a page it could not
   * use or returns exactly the events from+1..to, in order, each of them served.
   */
  method ReadRange(journal: Reader, from: int, upTo: int) returns (r: Result<seq<ChangeEvent>, Error>)
    ensures r.Ok? ==> |r.value| == Max(0, upTo - from) && Contiguous(r.value, from)
    ensures r.Ok? ==> forall e :: e in r.value ==> WasServed(journal, from, e)
    ensures r.Err? ==> r.error == Gap
    ensures r.Err? ==> exists call: nat, after: int :: from <= after < upTo && Unusable(journal(call, after), after, upTo)
  {
    hide Sort, Filter, Served, WasServed;
    var out: seq<ChangeEvent> := [];
    var cursor, call: nat := from, 0;
    while cursor < upTo
      invariant from <= cursor && (from <= upTo ==> cursor <= upTo) && (upTo < from ==> cursor == from)
      invariant |out| == cursor - from && Contiguous(out, from)
      invariant forall e :: e in out ==> WasServed(journal, from, e)
      decreases upTo - cursor
    {
      var start, before := cursor, out;
      var page := journal(call, start);
      var events := Served(page, start, upTo);
      ServedIsWithin(page, start, upTo);
      if events == [] {
        assert Unusable(journal(call, start), start, upTo);
        return Err(Gap);
      }
      for i := 0 to |events|
        invariant cursor == start + i && out == before + events[..i] && Contiguous(events[..i], start)
      {
        if events[i].seqNo != cursor + 1 {
          assert Unusable(journal(call, start), start, upTo);
          return Err(Gap);
        }
        out := out + [events[i]];
        cursor := events[i].seqNo;
      }
      assert events[|events| - 1] in events && events[..|events|] == events;
      MoreServed(journal, from, call, start, before, events);
      call := call + 1;
    }
    return Ok(out);
  }

  lemma MoreServed(journal: Reader, from: int, call: nat, start: int, before: seq<ChangeEvent>, events: seq<ChangeEvent>)
    requires from <= start && Contiguous(before, from) && |before| == start - from && Contiguous(events, start)
    requires forall e :: e in before ==> WasServed(journal, from, e)
    requires forall e :: e in events ==> start < e.seqNo && e in journal(call, start)
    ensures Contiguous(before + events, from)
    ensures forall e :: e in before + events ==> WasServed(journal, from, e)
  {
    forall e | e in events ensures WasServed(journal, from, e) {
      assert from <= start < e.seqNo && e in journal(call, start);
    }
  }

  lemma ServedIsWithin(page: seq<ChangeEvent>, after: int, upTo: int)
    ensures forall e :: e in Served(page, after, upTo) <==> e in page && after < e.seqNo <= upTo
  {
    var kept := Filter(page, (e: ChangeEvent) => after < e.seqNo <= upTo);
    SameMembers(kept, Sort(kept, BySeq));
  }

  // ---------------------------------------------------------------------------
  // Against a journal that tells the truth
  // ---------------------------------------------------------------------------

  /** Entry k of the journal is event k+1. */
  ghost predicate IsJournal(j: seq<ChangeEvent>) { Contiguous(j, 0) }

  /** A page after `after` is the next events of the journal, however many and in whatever order. */
  ghost predicate TruePage(j: seq<ChangeEvent>, page: seq<ChangeEvent>, after: int) {
    0 <= after <= |j| && after + |page| <= |j| && multiset(page) == multiset(j[after..after + |page|])
  }

  ghost predicate Truthful(j: seq<ChangeEvent>, journal: Reader) {
    forall call: nat, after: int :: 0 <= after <= |j| ==> TruePage(j, journal(call, after), after)
  }

  /** ... and never an empty one while there is more. */
  ghost predicate Forthcoming(j: seq<ChangeEvent>, journal: Reader) {
    forall call: nat, after: int :: 0 <= after < |j| ==> journal(call, after) != []
  }

  lemma {:induction false} FilterPrefix(page: seq<ChangeEvent>, after: int, first: int, upTo: int)
    requires Contiguous(page, first) && after <= first <= upTo
    ensures var n := if first + |page| <= upTo then |page| else upTo - first;
      Filter(page, (e: ChangeEvent) => after < e.seqNo <= upTo) == page[..n]
    decreases |page|
  {
    if page != [] {
      assert page[0].seqNo == first + 1;
      if first + 1 <= upTo {
        assert Contiguous(page[1..], first + 1);
        FilterPrefix(page[1..], after, first + 1, upTo);
      } else {
        NothingPast(page, after, upTo);
      }
    }
  }

  lemma {:induction false} NothingPast(page: seq<ChangeEvent>, after: int, upTo: int)
    requires forall e :: e in page ==> e.seqNo > upTo
    ensures Filter(page, (e: ChangeEvent) => after < e.seqNo <= upTo) == []
    decreases |page|
  {
    if page != [] {
      assert page[0] in page;
      NothingPast(page[1..], after, upTo);
    }
  }

  /** Put in order, a page is the slice it was made of. */
  lemma {:induction false} SortedIsSlice(r: seq<ChangeEvent>, slice: seq<ChangeEvent>, after: int)
    requires Sorted(r, BySeq) && Contiguous(slice, after) && multiset(r) == multiset(slice)
    ensures r == slice
    decreases |slice|
  {
    if slice == [] {
      NothingIn(r);
    } else {
      FirstOfSlice(r, slice, after);
      SameRest(r, slice);
      SortedIsSlice(r[1..], slice[1..], after + 1);
      assert r == [r[0]] + r[1..] && slice == [slice[0]] + slice[1..];
    }
  }

  lemma FirstOfSlice(r: seq<ChangeEvent>, slice: seq<ChangeEvent>, after: int)
    requires Sorted(r, BySeq) && Contiguous(slice, after) && multiset(r) == multiset(slice) && slice != []
    ensures r != [] && r[0] == slice[0]
  {
    SameMembers(slice, r);
    assert slice[0] in r && r[0] in slice;
    var i :| 0 <= i < |r| && r[i] == slice[0];
    var k :| 0 <= k < |slice| && slice[k] == r[0];
    assert r[0].seqNo <= r[i].seqNo by { assert i > 0 ==> BySeq(r[0], r[i]); }
  }

  lemma SameRest<T>(r: seq<T>, s: seq<T>)
    requires r != [] && s != [] && r[0] == s[0] && multiset(r) == multiset(s)
    ensures multiset(r[1..]) == multiset(s[1..])
  {
    assert r == [r[0]] + r[1..] && s == [s[0]] + s[1..];
    assert multiset(r[1..]) == multiset(r) - multiset{r[0]};
  }

  lemma NothingIn(r: seq<ChangeEvent>)
    requires multiset(r) == multiset([])
    ensures r == []
  {
    assert |multiset(r)| == |r|;
  }

  lemma SeqOrderIsTotal()
    ensures TotalPreorder(BySeq)
  {
  }

  lemma SortIsSlice(page: seq<ChangeEvent>, slice: seq<ChangeEvent>, after: int)
    requires Contiguous(slice, after) && multiset(page) == multiset(slice)
    ensures Sort(page, BySeq) == slice
  {
    SeqOrderIsTotal();
    SortSorts(page, BySeq);
    SortedIsSlice(Sort(page, BySeq), slice, after);
  }

  lemma TruePageIsServed(j: seq<ChangeEvent>, page: seq<ChangeEvent>, after: int, upTo: int)
    requires IsJournal(j) && TruePage(j, page, after) && after <= upTo
    ensures var n := if after + |page| <= upTo then |page| else upTo - after;
      Served(page, after, upTo) == j[after..after + n] && Contiguous(j[after..after + n], after)
  {
    hide Filter, Sort, BySeq;
    var slice := j[after..after + |page|];
    var n := if after + |page| <= upTo then |page| else upTo - after;
    SliceFollows(j, after, |page|);
    SliceFollows(j, after, n);
    assert slice[..n] == j[after..after + n];
    KeptOfSlice(page, slice, after, upTo, n);
    SortIsSlice(Filter(page, (e: ChangeEvent) => after < e.seqNo <= upTo), slice[..n], after);
  }

  lemma SliceFollows(j: seq<ChangeEvent>, after: int, n: int)
    requires IsJournal(j) && 0 <= after <= after + n <= |j|
    ensures Contiguous(j[after..after + n], after)
  {
  }

  lemma KeptOfSlice(page: seq<ChangeEvent>, slice: seq<ChangeEvent>, after: int, upTo: int, n: nat)
    requires Contiguous(slice, after) && multiset(page) == multiset(slice) && after <= upTo
    requires n == if after + |slice| <= upTo then |slice| else upTo - after
    ensures multiset(Filter(page, (e: ChangeEvent) => after < e.seqNo <= upTo)) == multiset(slice[..n])
  {
    hide Filter;
    FilterPrefix(slice, after, after, upTo);
    FilterSize(page, slice, (e: ChangeEvent) => after < e.seqNo <= upTo);
  }

  /** On a truthful journal that reaches `to`, a read that ends well is the journal's slice. */
  lemma TruthfulRange(j: seq<ChangeEvent>, journal: Reader, from: int, to: int, out: seq<ChangeEvent>)
    requires IsJournal(j) && Truthful(j, journal) && 0 <= from <= to <= |j|
    requires |out| == to - from && Contiguous(out, from)
    requires forall e :: e in out ==> WasServed(journal, from, e)
    ensures out == j[from..to]
  {
    forall i | 0 <= i < |out| ensures out[i] == j[from + i] {
      assert out[i] in out;
      ServedTruly(j, journal, from, out[i], to);
    }
  }

  lemma ServedTruly(j: seq<ChangeEvent>, journal: Reader, from: int, e: ChangeEvent, to: int)
    requires IsJournal(j) && Truthful(j, journal) && 0 <= from <= to <= |j| && e.seqNo <= to && WasServed(journal, from, e)
    ensures 0 < e.seqNo <= |j| && j[e.seqNo - 1] == e
  {
    var call: nat, after: int :| from <= after < e.seqNo && e in journal(call, after);
    var page := journal(call, after);
    assert TruePage(j, page, after);
    var slice := j[after..after + |page|];
    SameMembers(slice, page);
    var k :| 0 <= k < |slice| && slice[k] == e;
    assert slice[k] == j[after + k] && j[after + k].seqNo == after + k + 1;
  }

  /** ... and it does end well if the journal is forthcoming: no page is unusable. */
  lemma ForthcomingIsUsable(j: seq<ChangeEvent>, journal: Reader, call: nat, after: int, to: int)
    requires IsJournal(j) && Truthful(j, journal) && Forthcoming(j, journal) && 0 <= after < to <= |j|
    ensures !Unusable(journal(call, after), after, to)
  {
    var page := journal(call, after);
    TruePageIsServed(j, page, after, to);
  }

  /** Both halves: over a truthful, forthcoming journal `readRange` returns exactly its slice. */
  method ReadTruthfulRange(ghost j: seq<ChangeEvent>, journal: Reader, from: int, to: int) returns (r: Result<seq<ChangeEvent>, Error>)
    requires IsJournal(j) && Truthful(j, journal) && Forthcoming(j, journal) && 0 <= from <= to <= |j|
    ensures r == Ok(j[from..to])
  {
    r := ReadRange(journal, from, to);
    if r.Err? {
      ghost var call: nat, after: int :| from <= after < to && Unusable(journal(call, after), after, to);
      ForthcomingIsUsable(j, journal, call, after, to);
      assert false;
    } else {
      TruthfulRange(j, journal, from, to, r.value);
    }
  }

  // ---------------------------------------------------------------------------
  // Waiting for the check-in
  // ---------------------------------------------------------------------------

  predicate IsCheckinMarker(e: ChangeEvent) {
    e.kind == "restored" && e.target == ProgramTarget && e.txDescription == Some(CHECKIN_TX)
  }

  /** What a page holds past `after`, in order. */
  function Ahead(page: seq<ChangeEvent>, after: int): seq<ChangeEvent> {
    Sort(Filter(page, (e: ChangeEvent) => after < e.seqNo), BySeq)
  }

  datatype Wait = Found(seqNo: int) | TimedOut(readUpTo: int) | StillWaiting(readUpTo: int)

  ghost predicate NoMarkerIn(j: seq<ChangeEvent>, after: int, upTo: int)
    requires 0 <= after <= upTo <= |j|
  {
    forall k :: after <= k < upTo ==> !IsCheckinMarker(j[k])
  }

  /** `seqNo` is the first check-in after `since`. */
  ghost predicate FirstMarker(j: seq<ChangeEvent>, since: int, seqNo: int)
    requires 0 <= since <= |j|
  {
    since < seqNo <= |j| && IsCheckinMarker(j[seqNo - 1]) && NoMarkerIn(j, since, seqNo - 1)
  }

  /**
   * `waitForCheckin`, for the first `rounds` polls; `late(i)` says the deadline has passed at
   * poll i. `j` is the journal as it ends up: at each poll it may serve any amount, so a
   * growing journal and any paging are covered.
   */
  method WaitForCheckin(ghost j: seq<ChangeEvent>, journal: Reader, late: nat -> bool, since: int, rounds: nat) returns (r: Wait)
    requires IsJournal(j) && Truthful(j, journal) && 0 <= since <= |j|
    ensures r.Found? ==> FirstMarker(j, since, r.seqNo)
    ensures !r.Found? ==> since <= r.readUpTo <= |j| && NoMarkerIn(j, since, r.readUpTo)
    ensures r.TimedOut? ==> exists i: nat :: i < rounds && late(i) && journal(i, r.readUpTo) == []
    ensures r.StillWaiting? && Forthcoming(j, journal) && rounds >= |j| - since ==> r.readUpTo == |j|
  {
    hide Sort, Filter, Ahead, Truthful, Forthcoming, IsCheckinMarker;
    var cursor := since;
    for i := 0 to rounds
      invariant since <= cursor <= |j| && NoMarkerIn(j, since, cursor)
      invariant Forthcoming(j, journal) ==> cursor == |j| || cursor >= since + i
    {
      var start := cursor;
      var page := journal(i, start);
      PageAt(j, journal, i, start);
      var events := Ahead(page, start);
      for k := 0 to |events|
        invariant cursor == start + k && NoMarkerIn(j, since, cursor)
      {
        assert events[k] == j[start + k] && j[start + k].seqNo == start + k + 1;
        if IsCheckinMarker(events[k]) { return Found(events[k].seqNo); }
        cursor := events[k].seqNo;
      }
      if |events| == 0 && late(i) { return TimedOut(cursor); }
    }
    return StillWaiting(cursor);
  }

  lemma PageAt(j: seq<ChangeEvent>, journal: Reader, call: nat, after: int)
    requires IsJournal(j) && Truthful(j, journal) && 0 <= after <= |j|
    ensures TruePage(j, journal(call, after), after) && Ahead(journal(call, after), after) == j[after..after + |journal(call, after)|]
    ensures Forthcoming(j, journal) && after < |j| ==> journal(call, after) != []
  {
    assert TruePage(j, journal(call, after), after);
    TruePageIsPage(j, journal(call, after), after);
  }

  lemma TruePageIsPage(j: seq<ChangeEvent>, page: seq<ChangeEvent>, after: int)
    requires IsJournal(j) && TruePage(j, page, after)
    ensures Ahead(page, after) == j[after..after + |page|]
  {
    var slice := j[after..after + |page|];
    SameMembers(slice, page);
    assert Contiguous(slice, after) && forall e :: e in page ==> after < e.seqNo;
    FilterAll(page, (e: ChangeEvent) => after < e.seqNo);
    SortIsSlice(page, slice, after);
  }

  lemma {:induction false} FilterAll(page: seq<ChangeEvent>, p: ChangeEvent -> bool)
    requires forall e :: e in page ==> p(e)
    ensures Filter(page, p) == page
    decreases |page|
  {
    if page != [] {
      assert page[0] in page;
      FilterAll(page[1..], p);
    }
  }

  // ---------------------------------------------------------------------------
  // Is the window one proposal's?
  // ---------------------------------------------------------------------------

  datatype Transaction = Transaction(txId: int, txDescription: Option<string>, events: nat)

  datatype Verdict = Verdict(ok: bool, code: Option<Error>, content: nat, transactions: seq<Transaction>)

  /** The events that change the program: all but the check-in itself. */
  function Content(window: seq<ChangeEvent>): seq<ChangeEvent> {
    Filter(window, (e: ChangeEvent) => !IsCheckinMarker(e))
  }

  /** Stamped with a transaction that is not the check-in's own. */
  predicate Stamped(e: ChangeEvent) { e.txId.Some? && e.txDescription != Some(CHECKIN_TX) }

  function EventsOf(s: seq<ChangeEvent>, txId: int): seq<ChangeEvent> {
    Filter(s, (e: ChangeEvent) => Stamped(e) && e.txId == Some(txId))
  }

  /** One entry per transaction, with its number of events and its first description. */
  ghost predicate Summarises(txs: seq<Transaction>, s: seq<ChangeEvent>) {
    && (forall i, k :: 0 <= i < k < |txs| ==> txs[i].txId != txs[k].txId)
    && (forall t :: t in txs ==> Describes(t, s))
    && (forall e :: e in s && Stamped(e) ==> exists t :: t in txs && Some(t.txId) == e.txId)
  }

  ghost predicate Describes(t: Transaction, s: seq<ChangeEvent>) {
    var events := EventsOf(s, t.txId);
    events != [] && t.events == |events| && t.txDescription == events[0].txDescription
  }

  /**
   * What makes a window one proposal's: it changes something, nothing in it is an undo, every
   * change is stamped, and apart from the tail the check-in flushed there is exactly one
   * transaction, described as expected when a description is expected.
   */
  ghost predicate Attributable(window: seq<ChangeEvent>, expected: Option<string>) {
    var content := Content(window);
    && (forall e :: e in content ==> e.kind != "restored" && e.txId.Some?)
    && exists e :: e in content && IsTheProposal(e, content, expected)
  }

  ghost predicate IsTheProposal(e: ChangeEvent, content: seq<ChangeEvent>, expected: Option<string>) {
    var stamped := Filter(content, Stamped);
    && stamped != []
    && Stamped(e)
    && EventsOf(content, e.txId.value) == stamped
    && (expected.Some? ==> stamped[0].txDescription == expected)
  }

  method Summarise(content: seq<ChangeEvent>) returns (txs: seq<Transaction>)
    ensures Summarises(txs, content)
  {
    txs := [];
    for i := 0 to |content|
      invariant Summarises(txs, content[..i])
    {
      var e := content[i];
      assert content[..i + 1] == content[..i] + [e];
      if Stamped(e) {
        var k := 0;
        while k < |txs| && txs[k].txId != e.txId.value
          invariant 0 <= k <= |txs|
          invariant forall n :: 0 <= n < k ==> txs[n].txId != e.txId.value
        {
          k := k + 1;
        }
        ghost var before := txs;
        txs := if k < |txs| then txs[k := txs[k].(events := txs[k].events + 1)]
               else txs + [Transaction(e.txId.value, e.txDescription, 1)];
        OneMore(before, content[..i], e, k, txs);
      } else {
        NotCounted(txs, content[..i], e);
      }
    }
    assert content[..|content|] == content;
  }

  lemma NotCounted(txs: seq<Transaction>, s: seq<ChangeEvent>, e: ChangeEvent)
    requires Summarises(txs, s) && !Stamped(e)
    ensures Summarises(txs, s + [e])
  {
    forall t | t in txs ensures Describes(t, s + [e]) {
      FilterConcat(s, [e], (e: ChangeEvent) => Stamped(e) && e.txId == Some(t.txId));
    }
  }

  lemma OneMore(txs: seq<Transaction>, s: seq<ChangeEvent>, e: ChangeEvent, k: nat, after: seq<Transaction>)
    requires Summarises(txs, s) && Stamped(e) && k <= |txs|
    requires forall n :: 0 <= n < k ==> txs[n].txId != e.txId.value
    requires k < |txs| ==> txs[k].txId == e.txId.value && after == txs[k := txs[k].(events := txs[k].events + 1)]
    requires k == |txs| ==> after == txs + [Transaction(e.txId.value, e.txDescription, 1)]
    ensures Summarises(after, s + [e])
  {
    forall t | t in after ensures Describes(t, s + [e]) {
      FilterConcat(s, [e], (e: ChangeEvent) => Stamped(e) && e.txId == Some(t.txId));
      var i :| 0 <= i < |after| && after[i] == t;
      if i < |txs| {
        assert txs[i] in txs && Describes(txs[i], s);
      } else {
        NoneYet(txs, s, t.txId);
      }
    }
    forall x | x in s + [e] && Stamped(x) ensures exists t :: t in after && Some(t.txId) == x.txId {
      if x in s {
        var t :| t in txs && Some(t.txId) == x.txId;
        var i :| 0 <= i < |txs| && txs[i] == t;
        assert after[i] in after && after[i].txId == t.txId;
      } else {
        assert after[k] in after && after[k].txId == e.txId.value;
      }
    }
  }

  lemma NoneYet(txs: seq<Transaction>, s: seq<ChangeEvent>, txId: int)
    requires Summarises(txs, s) && forall i :: 0 <= i < |txs| ==> txs[i].txId != txId
    ensures EventsOf(s, txId) == []
  {
    forall e | e in s && Stamped(e) ensures e.txId != Some(txId) {
      var t :| t in txs && Some(t.txId) == e.txId;
    }
    HeadIsMember(EventsOf(s, txId));
  }

  lemma Misses(content: seq<ChangeEvent>, txId: int, e: ChangeEvent)
    requires e in content && Stamped(e) && e.txId != Some(txId)
    ensures EventsOf(content, txId) != Filter(content, Stamped)
  {
    assert e in Filter(content, Stamped) && e !in EventsOf(content, txId);
  }

  /** One entry in the summary, rightly described: that is the proposal. */
  lemma OneTransaction(txs: seq<Transaction>, content: seq<ChangeEvent>, expected: Option<string>)
    requires Summarises(txs, content)
    ensures (exists e :: e in content && IsTheProposal(e, content, expected))
      <==> |txs| == 1 && (expected.Some? ==> txs[0].txDescription == expected)
  {
    if |txs| == 1 {
      assert txs[0] in txs && Describes(txs[0], content);
      var events := EventsOf(content, txs[0].txId);
      assert events[0] in events;
      SameFilter(content, (e: ChangeEvent) => Stamped(e) && e.txId == Some(txs[0].txId), Stamped);
      assert forall e :: e in content && Stamped(e) ==> e.txId == Some(txs[0].txId);
      if expected.Some? ==> txs[0].txDescription == expected {
        assert IsTheProposal(events[0], content, expected);
      }
    } else {
      forall e | e in content && Stamped(e) ensures !IsTheProposal(e, content, expected) {
        var t :| t in txs && Some(t.txId) == e.txId;
        var i :| 0 <= i < |txs| && txs[i] == t;
        var other := txs[if i == 0 then 1 else 0];
        assert other in txs && Describes(other, content);
        Misses(content, e.txId.value, EventsOf(content, other.txId)[0]);
      }
    }
  }

  /** `checkIsolation`: it passes a window exactly when it is attributable. */
  method CheckIsolation(window: seq<ChangeEvent>, expected: Option<string>) returns (v: Verdict)
    ensures v.ok <==> Attributable(window, expected)
    ensures v.code == if v.ok then None else if Content(window) == [] then Some(NothingChanged) else Some(Mixed)
    ensures v.content == |Content(window)| && Summarises(v.transactions, Content(window))
  {
    var content := Content(window);
    var transactions := Summarise(content);
    OneTransaction(transactions, content, expected);
    var no := Verdict(false, Some(Mixed), |content|, transactions);
    if |content| == 0 { return no.(code := Some(NothingChanged)); }
    var restored := Filter(content, (e: ChangeEvent) => e.kind == "restored");
    if |restored| > 0 {
      assert restored[0] in restored;
      return no;
    }
    var unstamped := Filter(content, (e: ChangeEvent) => e.txId.None?);
    if |unstamped| > 0 {
      assert unstamped[0] in unstamped;
      return no;
    }
    assert forall e :: e in content ==> e !in restored && e !in unstamped;
    if |transactions| != 1 { return no; }
    if expected.Some? && transactions[0].txDescription != expected { return no; }
    return Verdict(true, None, |content|, transactions);
  }

  // ---------------------------------------------------------------------------
  // Attribution told of the window itself
  // ---------------------------------------------------------------------------

  /** The metadata update a check-in ends with. */
  predicate IsCheckin(e: ChangeEvent) {
    e.kind == "restored" && e.target.ProgramTarget? && e.txDescription == Some("Update Metadata")
  }

  /** Part of transaction `t`: a change stamped with it and not described as the check-in's. */
  predicate OfTransaction(e: ChangeEvent, t: int) {
    !IsCheckin(e) && e.txId == Some(t) && e.txDescription != Some("Update Metadata")
  }

  /** The check-in itself, a stamped change the check-in flushed, or part of transaction `t`. */
  predicate BelongsTo(e: ChangeEvent, t: int) {
    IsCheckin(e) || (e.kind != "restored" && e.txId.Some? && (e.txDescription == Some("Update Metadata") || e.txId == Some(t)))
  }

  /** The first change of the transaction, and with it of any. */
  ghost predicate OpensWith(window: seq<ChangeEvent>, t: int, i: nat) {
    && i < |window| && OfTransaction(window[i], t)
    && forall k :: 0 <= k < i ==> !OfTransaction(window[k], t)
  }

  lemma {:induction false} FirstKept<T(!new)>(s: seq<T>, p: T -> bool, q: T -> bool) returns (i: nat)
    requires exists x :: x in s && p(x) && q(x)
    ensures i < |s| && p(s[i]) && q(s[i]) && forall k :: 0 <= k < i ==> !(p(s[k]) && q(s[k]))
    ensures Filter(Filter(s, p), q) != [] && Filter(Filter(s, p), q)[0] == s[i]
    decreases |s|
  {
    if p(s[0]) && q(s[0]) {
      i := 0;
    } else {
      assert s == [s[0]] + s[1..];
      var k := FirstKept(s[1..], p, q);
      i := k + 1;
      assert forall n :: 1 <= n < |s| ==> s[n] == s[1..][n - 1];
    }
  }

  /** What makes the first of the stamped changes the transaction's first. */
  lemma StampedIs(e: ChangeEvent, t: int)
    ensures IsCheckin(e) <==> IsCheckinMarker(e)
    ensures OfTransaction(e, t) <==> !IsCheckinMarker(e) && Stamped(e) && e.txId == Some(t)
    ensures BelongsTo(e, t) <==>
      IsCheckinMarker(e) || (e.kind != "restored" && e.txId.Some? && (Stamped(e) ==> e.txId == Some(t)))
  {
  }

  lemma OpeningIs(window: seq<ChangeEvent>, t: int) returns (i: nat)
    requires forall e :: e in window && !IsCheckinMarker(e) && Stamped(e) ==> e.txId == Some(t)
    requires exists e :: e in window && !IsCheckinMarker(e) && Stamped(e)
    ensures i < |window| && OpensWith(window, t, i) && Filter(Content(window), Stamped) != [] && Filter(Content(window), Stamped)[0] == window[i]
  {
    hide Filter, IsCheckinMarker, Stamped, OfTransaction, BelongsTo, IsCheckin;
    i := FirstKept(window, (e: ChangeEvent) => !IsCheckinMarker(e), Stamped);
    StampedIs(window[i], t);
    forall k | 0 <= k < i ensures !OfTransaction(window[k], t) { StampedIs(window[k], t); }
  }

  ghost predicate AllOf(window: seq<ChangeEvent>, t: int) { forall e :: e in window ==> BelongsTo(e, t) }

  lemma ProposalOpens(window: seq<ChangeEvent>, expected: Option<string>, e: ChangeEvent) returns (i: nat)
    requires (forall x :: x in Content(window) ==> x.kind != "restored" && x.txId.Some?) && e in Content(window)
    requires IsTheProposal(e, Content(window), expected)
    ensures i < |window| && OpensWith(window, e.txId.value, i) && (expected.Some? ==> window[i].txDescription == expected)
    ensures AllOf(window, e.txId.value)
  {
    hide IsCheckinMarker, Stamped, OfTransaction, BelongsTo, IsCheckin, OpensWith;
    var content, t := Content(window), e.txId.value;
    forall x | x in content && Stamped(x) ensures x.txId == Some(t) { assert x in Filter(content, Stamped) && x in EventsOf(content, t); }
    forall x | x in window ensures BelongsTo(x, t) {
      StampedIs(x, t);
      assert IsCheckinMarker(x) || x in content;
    }
    assert forall x :: x in window && !IsCheckinMarker(x) ==> x in content;
    i := OpeningIs(window, t);
  }

  lemma OpeningProposes(window: seq<ChangeEvent>, expected: Option<string>, t: int, i: nat)
    requires OpensWith(window, t, i) && (expected.Some? ==> window[i].txDescription == expected) && AllOf(window, t)
    ensures Attributable(window, expected)
  {
    hide IsCheckinMarker, Stamped, OfTransaction, BelongsTo, IsCheckin;
    var content := Content(window);
    forall x | x in window ensures BelongsTo(x, t) { }
    forall x ensures (IsCheckin(x) <==> IsCheckinMarker(x))
      && (BelongsTo(x, t) <==> IsCheckinMarker(x) || (x.kind != "restored" && x.txId.Some? && (Stamped(x) ==> x.txId == Some(t))))
      && (OfTransaction(x, t) <==> !IsCheckinMarker(x) && Stamped(x) && x.txId == Some(t))
    {
      StampedIs(x, t);
    }
    assert window[i] in window && window[i] in content;
    var first := OpeningIs(window, t);
    assert first == i;
    SameFilter(content, (e: ChangeEvent) => Stamped(e) && e.txId == Some(t), Stamped);
    assert IsTheProposal(window[i], content, expected);
  }

  /**
   * A window is attributable exactly when some transaction has every event of it that is not
   * the check-in's, it has one at least, nothing is an undo or unstamped, and its first event
   * is described as expected, when a description is.
   */
  lemma AttributableExactly(window: seq<ChangeEvent>, expected: Option<string>)
    ensures Attributable(window, expected) <==>
      exists t: int, i: nat ::
        i < |window| && OpensWith(window, t, i) && (expected.Some? ==> window[i].txDescription == expected) && AllOf(window, t)
  {
    hide OpensWith, AllOf, IsTheProposal, Content;
    if Attributable(window, expected) {
      var e :| e in Content(window) && IsTheProposal(e, Content(window), expected);
      var i := ProposalOpens(window, expected, e);
    }
    forall t: int, i: nat | i < |window| && OpensWith(window, t, i) && AllOf(window, t)
      ensures (expected.Some? ==> window[i].txDescription == expected) ==> Attributable(window, expected)
    {
      if expected.Some? ==> window[i].txDescription == expected { OpeningProposes(window, expected, t, i); }
    }
  }
}
