/**
 * The function list (packages/live/src/model.ts): the index of functions by the data
 * addresses their instructions reference, and where a new function goes.
 */
module FunctionList {
  import opened Prelude
  import opened Sorting

  datatype Fn = Fn(address: string, platform: Option<string>, refs: seq<Option<string>>)

  /** How an address spelling is normalised (addressKey) and what it is worth (addressValue). */
  datatype Spelling = Spelling(key: string -> string, value: string -> nat)

  predicate IsPrimary(f: Fn) { f.platform.None? || f.platform.value == "" }

  predicate Given(s: Option<string>) { s.Some? && s.value != "" }

  // ---------------------------------------------------------------------------
  // Readers of a range
  // ---------------------------------------------------------------------------

  datatype Ref = Ref(to: nat, fn: string)

  predicate ByTarget(a: Ref, b: Ref) { a.to <= b.to }

  /** The plain question: does this function reference a byte of [start, end)? */
  predicate References(f: Fn, sp: Spelling, start: nat, end: int) {
    && f.platform in {None, Some("")}
    && exists r :: r in f.refs && r !in {None, Some("")} && start <= sp.value(r.value) < end
  }

  /** ... and the plain answer: filter the list. */
  function Referencing(fns: seq<Fn>, sp: Spelling, start: nat, end: int): set<string> {
    set f | f in fns && References(f, sp, start, end) :: sp.key(f.address)
  }

  ghost predicate IsIndex(entries: seq<Ref>, fns: seq<Fn>, sp: Spelling) {
    && (forall e :: e in entries ==> exists f, r :: f in fns && r in f.refs && IsEntry(e, f, r, sp))
    && (forall f, r :: f in fns && r in f.refs && IsPrimary(f) && Given(r) ==> Ref(sp.value(r.value), sp.key(f.address)) in entries)
  }

  predicate IsEntry(e: Ref, f: Fn, r: Option<string>, sp: Spelling) {
    IsPrimary(f) && Given(r) && e == Ref(sp.value(r.value), sp.key(f.address))
  }

  /** `dataRefIndex`: the entries, sorted by target. */
  method DataRefIndex(functions: seq<Fn>, sp: Spelling) returns (entries: seq<Ref>)
    ensures IsIndex(entries, functions, sp) && Sorted(entries, ByTarget)
  {
    entries := [];
    for i := 0 to |functions|
      invariant IsIndex(entries, functions[..i], sp)
    {
      var fn := functions[i];
      ghost var before := functions[..i];
      assert functions[..i + 1] == before + [fn];
      if IsPrimary(fn) {
        entries := AddRefs(entries, before, fn, sp);
      }
    }
    assert functions[..|functions|] == functions;
    var sorted := Sort(entries, ByTarget);
    SortSorts(entries, ByTarget);
    SameMembers(entries, sorted);
    entries := sorted;
  }

  method AddRefs(before: seq<Ref>, ghost fns: seq<Fn>, fn: Fn, sp: Spelling) returns (entries: seq<Ref>)
    requires IsIndex(before, fns, sp) && IsPrimary(fn)
    ensures IsIndex(entries, fns + [fn], sp)
  {
    entries := before;
    var key := sp.key(fn.address);
    for k := 0 to |fn.refs|
      invariant before <= entries
      invariant forall e :: e in entries[|before|..] ==> exists r :: r in fn.refs && IsEntry(e, fn, r, sp)
      invariant forall j :: 0 <= j < k && Given(fn.refs[j]) ==> Ref(sp.value(fn.refs[j].value), key) in entries
    {
      var r := fn.refs[k];
      if Given(r) {
        var e := Ref(sp.value(r.value), key);
        assert r in fn.refs && IsEntry(e, fn, r, sp);
        assert (entries + [e])[|before|..] == entries[|before|..] + [e];
        entries := entries + [e];
      }
    }
    assert entries == before + entries[|before|..];
    IndexGrows(before, entries[|before|..], fns, fn, sp);
  }

  lemma IndexGrows(before: seq<Ref>, added: seq<Ref>, fns: seq<Fn>, fn: Fn, sp: Spelling)
    requires IsIndex(before, fns, sp) && IsPrimary(fn)
    requires forall e :: e in added ==> exists r :: r in fn.refs && IsEntry(e, fn, r, sp)
    requires forall r :: r in fn.refs && Given(r) ==> Ref(sp.value(r.value), sp.key(fn.address)) in before + added
    ensures IsIndex(before + added, fns + [fn], sp)
  {
    forall e | e in before + added ensures exists f, r :: f in fns + [fn] && r in f.refs && IsEntry(e, f, r, sp) {
      if e in before {
        var f, r :| f in fns && r in f.refs && IsEntry(e, f, r, sp);
        assert f in fns + [fn];
      } else {
        var r :| r in fn.refs && IsEntry(e, fn, r, sp);
        assert fn in fns + [fn];
      }
    }
  }

  lemma NoneAfter(entries: seq<Ref>, i: nat, end: int)
    requires Sorted(entries, ByTarget) && i <= |entries| && (i < |entries| ==> entries[i].to >= end)
    ensures forall k :: i <= k < |entries| ==> entries[k].to >= end
  {
    assert forall k :: i < k < |entries| ==> ByTarget(entries[i], entries[k]);
  }

  lemma Halves(entries: seq<Ref>, mid: nat)
    requires Sorted(entries, ByTarget) && mid < |entries|
    ensures forall k :: 0 <= k < mid ==> entries[k].to <= entries[mid].to
    ensures forall k :: mid < k < |entries| ==> entries[mid].to <= entries[k].to
  {
    assert forall k :: 0 <= k < mid ==> ByTarget(entries[k], entries[mid]);
    assert forall k :: mid < k < |entries| ==> ByTarget(entries[mid], entries[k]);
  }

  /** `readers`: lower bound by halving, then a scan. On a sorted index it is the plain filter. */
  method Readers(entries: seq<Ref>, sp: Spelling, addr: string, extent: int) returns (out: set<string>)
    requires Sorted(entries, ByTarget)
    ensures forall key :: key in out <==>
      exists e :: e in entries && e.fn == key && sp.value(addr) <= e.to < sp.value(addr) + Max(1, extent)
  {
    hide Sorted;
    var start := sp.value(addr);
    var end := start + Max(1, extent);
    var lo, hi := 0, |entries|;
    while lo < hi
      invariant 0 <= lo <= hi <= |entries|
      invariant forall k :: 0 <= k < lo ==> entries[k].to < start
      invariant forall k :: hi <= k < |entries| ==> start <= entries[k].to
    {
      var mid := (lo + hi) / 2;
      Halves(entries, mid);
      if entries[mid].to < start { lo := mid + 1; } else { hi := mid; }
    }
    out := {};
    var i := lo;
    while i < |entries| && entries[i].to < end
      invariant lo <= i <= |entries|
      invariant forall k :: lo <= k < i ==> entries[k].fn in out && entries[k].to < end
      invariant forall key :: key in out ==> exists e :: e in entries && e.fn == key && start <= e.to < end
    {
      assert entries[i] in entries;
      out := out + {entries[i].fn};
      i := i + 1;
    }
    NoneAfter(entries, i, end);
    forall e | e in entries && start <= e.to < end ensures e.fn in out {
      var k :| 0 <= k < |entries| && entries[k] == e;
    }
  }

  /** Index refinement: for every function list, address and extent, the index answers as the filter does. */
  method ReadersOf(functions: seq<Fn>, sp: Spelling, addr: string, extent: int) returns (out: set<string>)
    ensures out == Referencing(functions, sp, sp.value(addr), sp.value(addr) + Max(1, extent))
  {
    var entries := DataRefIndex(functions, sp);
    out := Readers(entries, sp, addr, extent);
    IndexRefines(entries, functions, sp, sp.value(addr), sp.value(addr) + Max(1, extent), out);
  }

  lemma IndexRefines(entries: seq<Ref>, fns: seq<Fn>, sp: Spelling, start: nat, end: int, out: set<string>)
    requires IsIndex(entries, fns, sp)
    requires forall key :: key in out <==> exists e :: e in entries && e.fn == key && start <= e.to < end
    ensures out == Referencing(fns, sp, start, end)
  {
    forall key | key in out ensures key in Referencing(fns, sp, start, end) {
      var e :| e in entries && e.fn == key && start <= e.to < end;
      var f, r :| f in fns && r in f.refs && IsEntry(e, f, r, sp);
      assert References(f, sp, start, end);
    }
    forall f | f in fns && References(f, sp, start, end) ensures sp.key(f.address) in out {
      var r :| r in f.refs && Given(r) && start <= sp.value(r.value) < end;
      assert Ref(sp.value(r.value), sp.key(f.address)) in entries;
    }
  }

  // ---------------------------------------------------------------------------
  // Where a new function goes
  // ---------------------------------------------------------------------------

  /** The primary binary's own functions stand in address order, whatever is between them. */
  ghost predicate InAddressOrder(fns: seq<Fn>, sp: Spelling) {
    forall i, j :: 0 <= i < j < |fns| && IsPrimary(fns[i]) && IsPrimary(fns[j]) ==> sp.value(fns[i].address) <= sp.value(fns[j].address)
  }

  /** Merged records come after all primary ones. */
  ghost predicate MergedLast(fns: seq<Fn>) {
    forall i, j :: 0 <= i < j < |fns| && IsPrimary(fns[j]) ==> IsPrimary(fns[i])
  }

  function Inserted(fns: seq<Fn>, i: nat, fn: Fn): seq<Fn>
    requires i <= |fns|
  {
    fns[..i] + [fn] + fns[i..]
  }

  predicate Above(f: Fn, target: nat, sp: Spelling) { IsPrimary(f) && sp.value(f.address) > target }

  /** Before the first primary function above it; with none above, before the first merged one. */
  ghost predicate IsPlace(fns: seq<Fn>, at: nat, target: nat, sp: Spelling) {
    && at <= |fns|
    && (forall k :: 0 <= k < at ==> !Above(fns[k], target, sp))
    && ((at < |fns| && Above(fns[at], target, sp))
      || ((forall f :: f in fns ==> !Above(f, target, sp)) && (forall k :: 0 <= k < at ==> IsPrimary(fns[k]))
        && (at < |fns| ==> !IsPrimary(fns[at]))))
  }

  class PrimaryFunctions {
    var functions: seq<Fn>

    constructor (fns: seq<Fn>)
      ensures functions == fns
    {
      functions := fns;
    }

    /** `insertPrimaryFunction`. */
    method Insert(fn: Fn, sp: Spelling) returns (ghost at: nat)
      requires IsPrimary(fn)
      modifies this
      ensures IsPlace(old(functions), at, sp.value(fn.address), sp) && functions == Inserted(old(functions), at, fn)
      ensures forall k :: 0 <= k < at && IsPrimary(old(functions)[k]) ==> sp.value(old(functions)[k].address) <= sp.value(fn.address)
      ensures at < |old(functions)| && IsPrimary(old(functions)[at]) ==> sp.value(old(functions)[at].address) > sp.value(fn.address)
      ensures InAddressOrder(old(functions), sp) && MergedLast(old(functions)) ==>
        InAddressOrder(functions, sp) && MergedLast(functions)
    {
      var target := sp.value(fn.address);
      for i := 0 to |functions|
        invariant functions == old(functions)
        invariant forall k :: 0 <= k < i ==> !Above(functions[k], target, sp)
      {
        if IsPrimary(functions[i]) {
          if sp.value(functions[i].address) > target {
            functions := functions[..i] + [fn] + functions[i..];
            at := i;
            InsertionKeeps(old(functions), at, fn, sp);
            return;
          }
        }
      }
      var firstMerged := 0;
      while firstMerged < |functions| && IsPrimary(functions[firstMerged])
        invariant 0 <= firstMerged <= |functions|
        invariant functions == old(functions)
        invariant forall k :: 0 <= k < firstMerged ==> IsPrimary(functions[k])
      {
        firstMerged := firstMerged + 1;
      }
      at := firstMerged;
      functions := functions[..firstMerged] + [fn] + functions[firstMerged..];
      InsertionKeeps(old(functions), at, fn, sp);
    }
  }

  /** Such a place keeps both orders. */
  lemma InsertionKeeps(fns: seq<Fn>, at: nat, fn: Fn, sp: Spelling)
    requires IsPrimary(fn) && IsPlace(fns, at, sp.value(fn.address), sp)
    ensures InAddressOrder(fns, sp) && MergedLast(fns) ==>
      InAddressOrder(Inserted(fns, at, fn), sp) && MergedLast(Inserted(fns, at, fn))
  {
    if InAddressOrder(fns, sp) && MergedLast(fns) {
      var s := Inserted(fns, at, fn);
      assert forall k :: 0 <= k < |s| ==> s[k] == if k < at then fns[k] else if k == at then fn else fns[k - 1];
      assert forall k :: at < k < |fns| && IsPrimary(fns[k]) ==> IsPrimary(fns[at]);
    }
  }
}
