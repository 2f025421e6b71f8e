/**
 * The merge and the strip record by record: which records come in, in what order and with
 * which fields, and which go out again.
 */
module MergedRecords {
  import opened Prelude
  import opened Sorting
  import opened SecondaryMerge

  // ---------------------------------------------------------------------------
  // What is matched
  // ---------------------------------------------------------------------------

  ghost predicate LastAt<T>(s: seq<T>, key: T -> string, k: string, i: nat) {
    i < |s| && key(s[i]) == k && forall j :: i < j < |s| ==> key(s[j]) != k
  }

  ghost predicate OnlyAt<T>(s: seq<T>, key: T -> string, k: string, i: nat) {
    i < |s| && forall j :: 0 <= j < |s| ==> (key(s[j]) == k <==> j == i)
  }

  ghost predicate Nowhere<T>(s: seq<T>, key: T -> string, k: string) { forall j :: 0 <= j < |s| ==> key(s[j]) != k }

  lemma {:induction false} LastWithIs<T>(s: seq<T>, key: T -> string, k: string, i: nat)
    ensures LastAt(s, key, k, i) ==> LastWith(s, key, k) == Some(i)
    ensures Nowhere(s, key, k) ==> LastWith(s, key, k) == None
    decreases |s|
  {
    if s != [] { LastWithIs(s[..|s| - 1], key, k, i); }
  }

  lemma {:induction false} AllWithIs<T>(s: seq<T>, key: T -> string, k: string)
    ensures forall i, j :: 0 <= i < j < |AllWith(s, key, k)| ==> AllWith(s, key, k)[i] < AllWith(s, key, k)[j]
    decreases |s|
  {
    if s != [] {
      AllWithIs(s[..|s| - 1], key, k);
      var before := AllWith(s[..|s| - 1], key, k);
      assert forall i :: 0 <= i < |before| ==> before[i] in before;
    }
  }

  lemma OnlyWithIs<T>(s: seq<T>, key: T -> string, k: string, i: nat)
    ensures OnlyAt(s, key, k, i) ==> AllWith(s, key, k) == [i]
    ensures |AllWith(s, key, k)| == 1 ==> OnlyAt(s, key, k, AllWith(s, key, k)[0])
  {
    AllWithIs(s, key, k);
    var r := AllWith(s, key, k);
    if OnlyAt(s, key, k, i) { OnlyMeansOne(s, key, k, r, i); }
    if |r| == 1 { OneMeansOnly(s, key, k, r); }
  }

  lemma OnlyMeansOne<T>(s: seq<T>, key: T -> string, k: string, r: seq<nat>, i: nat)
    requires OnlyAt(s, key, k, i) && forall j: nat :: j in r <==> j < |s| && key(s[j]) == k
    requires |r| < 2 || r[0] < r[1]
    ensures r == [i]
  {
    assert i in r;
    forall a | 0 <= a < |r| ensures r[a] == i { assert r[a] in r; }
  }

  lemma OneMeansOnly<T>(s: seq<T>, key: T -> string, k: string, r: seq<nat>)
    requires |r| == 1 && forall i: nat :: i in r <==> i < |s| && key(s[i]) == k
    ensures OnlyAt(s, key, k, r[0])
  {
    assert r == [r[0]] && r[0] in r;
    forall j | 0 <= j < |s| ensures key(s[j]) == k <==> j == r[0] {
      var n: nat := j;
      assert n in r <==> key(s[n]) == k;
      assert n in [r[0]] <==> n == r[0];
    }
  }

  /** What namespace a record says it is in: none is the empty one. */
  function Scope(namespace: Option<string>): string { if namespace.Some? then namespace.value else "" }

  lemma ColonInside(a: string, x: string, b: string, y: string)
    requires a + "::" + x == b + "::" + y
    ensures |x| < |y| ==> ':' in y
  {
    var s, t := a + "::" + x, b + "::" + y;
    if |x| < |y| {
      assert s[|s| - |x| - 1] == ':' && t[|t| - |x| - 1] == y[|y| - |x| - 1];
    }
  }

  lemma SameJoin(a: string, x: string, b: string, y: string)
    requires ':' !in x && ':' !in y && a + "::" + x == b + "::" + y
    ensures a == b && x == y
  {
    ColonInside(a, x, b, y);
    ColonInside(b, y, a, x);
    var s, t := a + "::" + x, b + "::" + y;
    assert s[|s| - |x|..] == x && t[|t| - |y|..] == y && s[..|a|] == a && t[..|b|] == b;
  }

  /** Qualified names tell records apart by namespace and name, where names hold no colon. */
  lemma QualifiedTellsApart(a: Option<string>, x: string, b: Option<string>, y: string)
    requires ':' !in x && ':' !in y
    ensures Qualified(a, x) == Qualified(b, y) <==> Scope(a) == Scope(b) && x == y
  {
    if Scope(a) != "" && Scope(b) != "" && Qualified(a, x) == Qualified(b, y) { SameJoin(a.value, x, b.value, y); }
    assert Scope(a) != "" ==> Qualified(a, x)[|Scope(a)|] == ':';
    assert Scope(b) != "" ==> Qualified(b, y)[|Scope(b)|] == ':';
  }

  /** Keys tell types apart by category and name likewise; no category is the one spelled "undefined". */
  lemma KeyTellsApart(t: TypeRecord, u: TypeRecord)
    requires ':' !in t.name && ':' !in u.name
    ensures TypeKey(t) == TypeKey(u) <==>
      t.name == u.name && (t.category == u.category || {t.category, u.category} == {None, Some("undefined")})
  {
    if TypeKey(t) == TypeKey(u) {
      SameJoin(if t.category.Some? then t.category.value else "undefined", t.name, if u.category.Some? then u.category.value else "undefined", u.name);
    }
  }

  /** No qualified name decides, and the bare name is none's or several functions'. */
  ghost predicate LeftToLinks(primary: seq<Fn>, f: Fn) {
    Nowhere(primary, FnQualified, Qualified(f.namespace, f.name)) && forall i: nat :: !OnlyAt(primary, FnName, f.name, i)
  }

  /**
   * The match in the primary: the last function of the same qualified name; failing that
   * the only one of the same bare name; failing that the last one at the address the last
   * link from the secondary function leads to.
   */
  lemma MatchIs(primary: seq<Fn>, links: seq<Link>, bare: string -> string, f: Fn, i: nat, l: nat)
    ensures var r := MatchOf(primary, links, bare, f);
      && (LastAt(primary, FnQualified, Qualified(f.namespace, f.name), i) ==> r == Some(i))
      && (Nowhere(primary, FnQualified, Qualified(f.namespace, f.name)) && OnlyAt(primary, FnName, f.name, i) ==> r == Some(i))
      && (LeftToLinks(primary, f) && Nowhere(links, LinkMac(bare), bare(f.address)) ==> r == None)
      && (LeftToLinks(primary, f) && LastAt(links, LinkMac(bare), bare(f.address), l) ==>
            && (bare(links[l].win) == "" || Nowhere(primary, FnAddress(bare), bare(links[l].win)) ==> r == None)
            && (bare(links[l].win) != "" && LastAt(primary, FnAddress(bare), bare(links[l].win), i) ==> r == Some(i)))
  {
    hide Nowhere, LastAt, OnlyAt, LastWith, AllWith, Qualified;
    LastWithIs(primary, FnQualified, Qualified(f.namespace, f.name), i);
    OnlyWithIs(primary, FnName, f.name, i);
    LastWithIs(links, LinkMac(bare), bare(f.address), l);
    if LastAt(links, LinkMac(bare), bare(f.address), l) {
      LastWithIs(primary, FnAddress(bare), bare(links[l].win), i);
    }
  }

  // ---------------------------------------------------------------------------
  // What comes in
  // ---------------------------------------------------------------------------

  /** Its name is not the one the disassembler makes up. */
  predicate Named(name: string, prefix: string) { !(prefix <= name) }

  /** The record a secondary function becomes: its own in everything but the two tags. */
  predicate ComesInAs(u: Fn, r: Fn, platform: string, ifdef: string) {
    r == Fn(u.name, u.namespace, u.address, u.decompiled, u.isThunk, u.isExternal, Some(platform), Some(ifdef), u.anchor)
  }

  /**
   * The appended functions are the named unmatched ones of the secondary in its order, each
   * with its own name, namespace, address, body, flags and anchor and with the source's
   * platform and ifdef.
   */
  lemma AppendedFunctions(x: Extracted, secondary: Extracted, m: FnMatch, platform: string, ifdef: string) returns (at: seq<nat>)
    ensures var s, r := secondary.functions, Merged(x, secondary, m, platform, ifdef).functions;
      && Places(at, |s|) && |r| == |x.functions| + |at|
      && (forall k: nat :: k in at <==> k < |s| && Named(s[k].name, "FUN_") && m(s[k]).None?)
      && (forall i :: 0 <= i < |at| ==> ComesInAs(s[at[i]], r[|x.functions| + i], platform, ifdef))
  {
    hide Merged, Filter, Unmatched, ComesInAs, Places;
    var s := secondary.functions;
    at := UnmatchedAt(s, m);
    AddedComeIn(x, secondary, m, platform, ifdef, Unmatched(Filter(s, IsNamed), m));
  }

  lemma AddedComeIn(x: Extracted, secondary: Extracted, m: FnMatch, platform: string, ifdef: string, added: seq<Fn>)
    requires added == Unmatched(Filter(secondary.functions, IsNamed), m)
    ensures var r := Merged(x, secondary, m, platform, ifdef).functions;
      |r| == |x.functions| + |added| && forall i :: 0 <= i < |added| ==> ComesInAs(added[i], r[|x.functions| + i], platform, ifdef)
  {
    hide Merged, Filter, Unmatched, ComesInAs, Tag, Anchored;
    MergedIs(x, secondary, m, platform, ifdef);
    var r := Merged(x, secondary, m, platform, ifdef).functions;
    forall i | 0 <= i < |added| ensures ComesInAs(added[i], r[|x.functions| + i], platform, ifdef) {
      assert r[|x.functions| + i] == Tag(platform, ifdef)(added[i]);
      TagComesIn(added[i], platform, ifdef);
    }
  }

  lemma MergedIs(x: Extracted, secondary: Extracted, m: FnMatch, platform: string, ifdef: string)
    ensures var named := Filter(secondary.functions, IsNamed);
      Merged(x, secondary, m, platform, ifdef).functions ==
      Anchored(x.functions, named, m, platform) + Map(Unmatched(named, m), Tag(platform, ifdef))
  {
    hide Filter, Unmatched, Anchored, NewTypes, Tag, TagGlobal, TagType, Map, NewGlobal, NewNamespace, GlobalNames, TypeKeys;
  }

  lemma TagComesIn(f: Fn, platform: string, ifdef: string)
    ensures ComesInAs(f, Tag(platform, ifdef)(f), platform, ifdef)
  {
  }

  lemma UnmatchedAt(s: seq<Fn>, m: FnMatch) returns (at: seq<nat>)
    ensures Places(at, |s|) && AreAt(Unmatched(Filter(s, IsNamed), m), s, at)
    ensures forall k: nat :: k in at <==> k < |s| && Named(s[k].name, "FUN_") && m(s[k]).None?
  {
    hide Filter, IsNamed;
    var unmatched := (f: Fn) => m(f).None?;
    var both := (f: Fn) => IsNamed(f) && unmatched(f);
    FilterTwice(s, IsNamed, unmatched, both);
    at := Picked(s, both);
    forall k: nat | k < |s| ensures IsNamed(s[k]) <==> Named(s[k].name, "FUN_") { NamedIs(s[k]); }
    assert Unmatched(Filter(s, IsNamed), m) == Filter(Filter(s, IsNamed), unmatched);
  }

  /** The last place of the secondary that is named and matched to place `i` of the primary. */
  ghost predicate LastMatch(s: seq<Fn>, m: FnMatch, i: nat, k: nat) {
    && k < |s| && Named(s[k].name, "FUN_") && m(s[k]) == Some(i)
    && forall j :: k < j < |s| && Named(s[j].name, "FUN_") ==> m(s[j]) != Some(i)
  }

  ghost predicate NoMatch(s: seq<Fn>, m: FnMatch, i: nat) {
    forall k :: 0 <= k < |s| && Named(s[k].name, "FUN_") ==> m(s[k]) != Some(i)
  }

  lemma {:induction false} LastMatchedAt(s: seq<Fn>, m: FnMatch, i: nat, k: nat)
    ensures LastMatch(s, m, i, k) ==> LastMatched(Filter(s, IsNamed), m, i) == Some(s[k])
    ensures NoMatch(s, m, i) ==> LastMatched(Filter(s, IsNamed), m, i) == None
    decreases |s|
  {
    hide Filter, IsNamed;
    if s != [] {
      var n := |s| - 1;
      LastMatchedAt(s[..n], m, i, k);
      assert s == s[..n] + [s[n]];
      FilterOneMore(s[..n], s[n], IsNamed);
      OneMoreMatched(Filter(s[..n], IsNamed), s[n], m, i);
      NamedIs(s[n]);
      assert Filter(s[..n], IsNamed) + [] == Filter(s[..n], IsNamed);
      assert forall j :: 0 <= j < n ==> s[j] == s[..n][j];
    } else {
      NonePicked(s, IsNamed);
    }
  }

  lemma OneMoreMatched(named: seq<Fn>, f: Fn, m: FnMatch, i: nat)
    ensures LastMatched(named + [f], m, i) == if m(f) == Some(i) then Some(f) else LastMatched(named, m, i)
  {
    assert (named + [f])[..|named|] == named;
  }

  lemma NamedIs(f: Fn)
    ensures IsNamed(f) <==> Named(f.name, "FUN_")
  {
  }

  /**
   * A primary function stays in its place with everything it had but the anchor, which is
   * the address of the last named secondary function matched to it, or what it was when
   * none is.
   */
  lemma PrimaryFunctionsStay(x: Extracted, secondary: Extracted, m: FnMatch, platform: string, ifdef: string, i: nat, k: nat)
    requires i < |x.functions|
    ensures var s, u, r := secondary.functions, x.functions[i], Merged(x, secondary, m, platform, ifdef).functions[i];
      && r == Fn(u.name, u.namespace, u.address, u.decompiled, u.isThunk, u.isExternal, u.platform, u.ifdef, r.anchor)
      && (LastMatch(s, m, i, k) ==> r.anchor == Some(Anchor(s[k].address, platform)))
      && (NoMatch(s, m, i) ==> r.anchor == u.anchor)
  {
    hide Filter, LastMatch, NoMatch, IsNamed;
    LastMatchedAt(secondary.functions, m, i, k);
  }

  ghost predicate UnknownGlobal(known: seq<Global>, u: Global) {
    forall g: Global :: g in known ==> Qualified(g.namespace, g.name) != Qualified(u.namespace, u.name)
  }

  /** Globals come in when named and of a qualified name the primary did not have; duplicates all do. */
  lemma AppendedGlobals(x: Extracted, secondary: Extracted, m: FnMatch, platform: string, ifdef: string) returns (at: seq<nat>)
    ensures var s, r := secondary.globals, Merged(x, secondary, m, platform, ifdef).globals;
      && Places(at, |s|) && |r| == |x.globals| + |at| && r[..|x.globals|] == x.globals
      && (forall k: nat :: k in at <==> k < |s| && Named(s[k].name, "DAT_") && UnknownGlobal(x.globals, s[k]))
      && (forall i :: 0 <= i < |at| ==> var u := s[at[i]];
            r[|x.globals| + i] == Global(u.name, u.namespace, Some(platform), Some(ifdef), u.rest))
  {
    hide Anchored, Unmatched, NewTypes;
    var p, s := NewGlobal(GlobalNames(x.globals)), secondary.globals;
    at := Picked(s, p);
    forall k: nat | k < |s|
      ensures p(s[k]) <==> Named(s[k].name, "DAT_") && UnknownGlobal(x.globals, s[k])
    {
      hide Qualified;
    }
  }

  /** Namespaces come in as they are when the primary did not have them. */
  lemma AppendedNamespaces(x: Extracted, secondary: Extracted, m: FnMatch, platform: string, ifdef: string) returns (at: seq<nat>)
    ensures var s, r := secondary.namespaces, Merged(x, secondary, m, platform, ifdef).namespaces;
      && Places(at, |s|) && |r| == |x.namespaces| + |at| && r[..|x.namespaces|] == x.namespaces
      && (forall k: nat :: k in at <==> k < |s| && s[k] !in x.namespaces)
      && (forall i :: 0 <= i < |at| ==> r[|x.namespaces| + i] == s[at[i]])
  {
    hide Anchored, Unmatched, NewTypes;
    at := Picked(secondary.namespaces, NewNamespace(x.namespaces));
  }

  /** Of a key not there yet, and the first of its key in the secondary. */
  ghost predicate FirstOfNewKey(known: seq<TypeRecord>, s: seq<TypeRecord>, k: nat) {
    && k < |s| && (forall t: TypeRecord :: t in known ==> TypeKey(t) != TypeKey(s[k]))
    && forall j :: 0 <= j < k ==> TypeKey(s[j]) != TypeKey(s[k])
  }

  ghost predicate AllKeysSeen(known: seq<TypeRecord>, s: seq<TypeRecord>, r: seq<TypeRecord>) {
    forall k: nat :: k < |s| ==> TypeKey(s[k]) in TypeKeys(known) || TypeKey(s[k]) in TypeKeys(r)
  }

  lemma {:induction false} NewTypesAt(known: seq<TypeRecord>, s: seq<TypeRecord>) returns (at: seq<nat>)
    ensures Places(at, |s|) && AreAt(NewTypes(TypeKeys(known), s), s, at)
    ensures forall k: nat :: k in at <==> FirstOfNewKey(known, s, k)
    ensures AllKeysSeen(known, s, NewTypes(TypeKeys(known), s))
    decreases |s|
  {
    hide TypeKey, TypeKeys, FirstOfNewKey, AllKeysSeen, Places;
    if s == [] { at := []; NoTypes(known); return; }
    var n, keys := |s| - 1, TypeKeys(known);
    var before := NewTypesAt(known, s[..n]);
    var r := NewTypes(keys, s[..n]);
    assert s == s[..n] + [s[n]];
    NewKeyIsNew(known, s[..n], s[n], r, before);
    var isNew := FirstOfNewKey(known, s, n);
    at := before + if isNew then [n] else [];
    assert NewTypes(keys, s) == r + if isNew then [s[n]] else [];
    OneMoreAt(r, s[..n], s[n], before, isNew);
    OneMorePlace(before, n);
    assert before + [] == before;
    forall k: nat ensures k in at <==> FirstOfNewKey(known, s, k) { FirstStays(known, s[..n], s[n], k); }
    OneMoreSeen(known, s[..n], s[n], r, isNew);
  }

  lemma NoTypes(known: seq<TypeRecord>)
    ensures Places([], 0) && AreAt(NewTypes(TypeKeys(known), []), [], [])
    ensures forall k: nat :: !FirstOfNewKey(known, [], k)
    ensures AllKeysSeen(known, [], NewTypes(TypeKeys(known), []))
  {
  }

  lemma FirstStays(known: seq<TypeRecord>, s: seq<TypeRecord>, t: TypeRecord, k: nat)
    ensures k < |s| ==> (FirstOfNewKey(known, s + [t], k) <==> FirstOfNewKey(known, s, k))
    ensures k > |s| ==> !FirstOfNewKey(known, s + [t], k)
    ensures k >= |s| ==> !FirstOfNewKey(known, s, k)
  {
    hide TypeKey;
    assert forall j :: 0 <= j < |s| ==> (s + [t])[j] == s[j];
  }

  lemma OneMoreSeen(known: seq<TypeRecord>, s: seq<TypeRecord>, t: TypeRecord, r: seq<TypeRecord>, isNew: bool)
    requires AllKeysSeen(known, s, r) && (isNew || TypeKey(t) in TypeKeys(known) || TypeKey(t) in TypeKeys(r))
    ensures AllKeysSeen(known, s + [t], r + if isNew then [t] else [])
  {
    hide TypeKey;
    var r' := r + if isNew then [t] else [];
    assert forall u :: u in r ==> u in r';
    assert isNew ==> r'[|r|] == t;
  }

  lemma NewKeyIsNew(known: seq<TypeRecord>, s: seq<TypeRecord>, t: TypeRecord, r: seq<TypeRecord>, at: seq<nat>)
    requires Places(at, |s|) && AreAt(r, s, at) && AllKeysSeen(known, s, r)
    ensures FirstOfNewKey(known, s + [t], |s|) <==> TypeKey(t) !in TypeKeys(known) && TypeKey(t) !in TypeKeys(r)
  {
    hide TypeKey;
    assert forall j :: 0 <= j < |s| ==> (s + [t])[j] == s[j];
    forall u | u in r ensures u in s {
      var i :| 0 <= i < |r| && r[i] == u;
      assert s[at[i]] == u;
    }
  }

  /** Types come in by key, the first of each new one. */
  lemma AppendedTypes(x: Extracted, secondary: Extracted, m: FnMatch, platform: string, ifdef: string) returns (at: seq<nat>)
    ensures var s, r := secondary.dataTypes, Merged(x, secondary, m, platform, ifdef).dataTypes;
      && Places(at, |s|) && |r| == |x.dataTypes| + |at| && r[..|x.dataTypes|] == x.dataTypes
      && (forall k: nat :: k in at <==> FirstOfNewKey(x.dataTypes, s, k))
      && (forall i :: 0 <= i < |at| ==> var u := s[at[i]];
            r[|x.dataTypes| + i] == TypeRecord(u.name, u.category, Some(platform), Some(ifdef), u.rest))
  {
    hide Anchored, Unmatched, Filter, NewTypes;
    at := NewTypesAt(x.dataTypes, secondary.dataTypes);
  }

  // ---------------------------------------------------------------------------
  // What goes out
  // ---------------------------------------------------------------------------

  /** A record belongs to a source that is switched off. */
  predicate OfDisabled(platform: Option<string>, disabled: set<string>) {
    platform.Some? && platform.value in disabled - {""}
  }

  function Stays(disabled: set<string>): Fn -> bool { (f: Fn) => !OfDisabled(f.platform, disabled) }

  /** The function stays, but its anchor is to a source that is switched off. */
  function LosesAnchor(disabled: set<string>): Fn -> bool {
    (f: Fn) => !OfDisabled(f.platform, disabled) && f.anchor.Some? && f.anchor.value.platform in disabled
  }

  /** What comes of a function that stays. */
  predicate ComesOutAs(f: Fn, r: Fn, disabled: set<string>) {
    r == Fn(f.name, f.namespace, f.address, f.decompiled, f.isThunk, f.isExternal, f.platform, f.ifdef,
      if LosesAnchor(disabled)(f) then None else f.anchor)
  }

  /**
   * Whatever set of sources is switched off: the functions kept are those of no such source,
   * in their order and as they were but for an anchor to one of them, which goes.
   */
  lemma {:induction false} StrippedFunctions(fns: seq<Fn>, disabled: set<string>) returns (at: seq<nat>)
    ensures var r := StripFunctions(fns, disabled);
      && Picks(at, fns, Stays(disabled)) && |r| == |at|
      && (forall i :: 0 <= i < |at| ==> ComesOutAs(fns[at[i]], r[i], disabled))
    decreases |fns|
  {
    hide OfDisabled, ComesOutAs, Unanchored, Disabled, Stays;
    if fns == [] { at := []; NonePicked(fns, Stays(disabled)); return; }
    var n, u := |fns| - 1, fns[|fns| - 1];
    var before := StrippedFunctions(fns[..n], disabled);
    assert fns == fns[..n] + [u];
    OneMorePick(before, fns[..n], u, Stays(disabled));
    DisabledIs(u, disabled);
    at := before + if Stays(disabled)(u) then [n] else [];
  }

  lemma DisabledIs(f: Fn, disabled: set<string>)
    ensures Stays(disabled)(f) <==> !Disabled(f.platform, disabled)
    ensures Stays(disabled)(f) ==> ComesOutAs(f, Unanchored(f, disabled), disabled)
    ensures LosesAnchor(disabled)(f) <==> Stays(disabled)(f) && Unanchored(f, disabled) != f
  {
  }

  /** The anchors counted are those that go. */
  lemma {:induction false} StrippedAnchors(fns: seq<Fn>, disabled: set<string>) returns (gone: seq<nat>)
    ensures Picks(gone, fns, LosesAnchor(disabled)) && |gone| == AnchorCount(fns, disabled)
    decreases |fns|
  {
    hide Unanchored, Disabled, Stays, LosesAnchor;
    if fns == [] { gone := []; NonePicked(fns, LosesAnchor(disabled)); return; }
    var n, u := |fns| - 1, fns[|fns| - 1];
    var before := StrippedAnchors(fns[..n], disabled);
    assert fns == fns[..n] + [u];
    OneMorePick(before, fns[..n], u, LosesAnchor(disabled));
    DisabledIs(u, disabled);
    gone := before + if LosesAnchor(disabled)(u) then [n] else [];
  }

  /** Globals and types likewise, untouched. */
  lemma StrippedRecords(x: Extracted, disabled: set<string>) returns (globals: seq<nat>, types: seq<nat>)
    ensures var r := Stripped(x, disabled);
      && r.namespaces == x.namespaces
      && Picks(globals, x.globals, (g: Global) => !OfDisabled(g.platform, disabled)) && AreAt(r.globals, x.globals, globals)
      && Picks(types, x.dataTypes, (t: TypeRecord) => !OfDisabled(t.platform, disabled)) && AreAt(r.dataTypes, x.dataTypes, types)
  {
    globals := Picked(x.globals, Enabled(disabled));
    types := Picked(x.dataTypes, EnabledType(disabled));
  }
}
