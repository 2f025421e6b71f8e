/**
 * Folding a secondary binary's extraction into the primary one, and taking it out again
 * (packages/reconstruct/src/index.ts: buildPrimaryMatcher, mergeSecondaryPure;
 * packages/reconstruct/src/additional-sources.ts: stripDisabledSources).
 */
module SecondaryMerge {
  import opened Prelude
  import opened Sorting

  datatype Anchor = Anchor(address: string, platform: string)

  datatype Fn = Fn(
    name: string, namespace: Option<string>, address: string, decompiled: Option<string>,
    isThunk: bool, isExternal: bool, platform: Option<string>, ifdef: Option<string>, anchor: Option<Anchor>)

  /** `rest` stands for what else a record holds; the merge copies it along. */
  datatype Global = Global(name: string, namespace: Option<string>, platform: Option<string>, ifdef: Option<string>, rest: string)

  datatype TypeRecord = TypeRecord(name: string, category: Option<string>, platform: Option<string>, ifdef: Option<string>, rest: string)

  datatype Extracted = Extracted(functions: seq<Fn>, globals: seq<Global>, namespaces: seq<string>, dataTypes: seq<TypeRecord>)

  datatype Link = Link(mac: string, win: string)

  function Qualified(namespace: Option<string>, name: string): string {
    if namespace.Some? && namespace.value != "" then namespace.value + "::" + name else name
  }

  function TypeKey(dt: TypeRecord): string {
    (if dt.category.Some? then dt.category.value else "undefined") + "::" + dt.name
  }

  predicate HasPrefix(name: string, prefix: string) { |prefix| <= |name| && name[..|prefix|] == prefix }

  predicate IsNamed(f: Fn) { !HasPrefix(f.name, "FUN_") }

  predicate IsNamedGlobal(g: Global) { !HasPrefix(g.name, "DAT_") }

  // ---------------------------------------------------------------------------
  // The match
  // ---------------------------------------------------------------------------

  /** The last place with a given key: what a map filled in order holds. */
  function LastWith<T>(s: seq<T>, key: T -> string, k: string): (r: Option<nat>)
    ensures r.Some? ==> r.value < |s| && key(s[r.value]) == k
    ensures r.None? ==> forall i :: 0 <= i < |s| ==> key(s[i]) != k
  {
    if s == [] then None
    else if key(s[|s| - 1]) == k then Some(|s| - 1)
    else LastWith(s[..|s| - 1], key, k)
  }

  function AllWith<T>(s: seq<T>, key: T -> string, k: string): (r: seq<nat>)
    ensures forall i: nat :: i in r <==> i < |s| && key(s[i]) == k
  {
    if s == [] then [] else
      AllWith(s[..|s| - 1], key, k) + if key(s[|s| - 1]) == k then [|s| - 1] else []
  }

  function FnName(f: Fn): string { f.name }

  function FnQualified(f: Fn): string { Qualified(f.namespace, f.name) }

  function FnAddress(bare: string -> string): Fn -> string { (f: Fn) => bare(f.address) }

  function LinkMac(bare: string -> string): Link -> string { (l: Link) => bare(l.mac) }

  /**
   * The primary function that is the same code: by qualified name, else by a bare name only
   * one function has, else by an explicit link between addresses.
   */
  function MatchOf(primary: seq<Fn>, links: seq<Link>, bare: string -> string, f: Fn): (r: Option<nat>)
    ensures r.Some? ==> r.value < |primary|
  {
    var q := LastWith(primary, FnQualified, FnQualified(f));
    var named := AllWith(primary, FnName, f.name);
    if q.Some? then q
    else if |named| == 1 then assert named[0] in named; Some(named[0])
    else
      var l := LastWith(links, LinkMac(bare), bare(f.address));
      if l.None? || bare(links[l.value].win) == "" then None
      else LastWith(primary, FnAddress(bare), bare(links[l.value].win))
  }

  datatype Matcher = Matcher(
    byQualified: map<string, nat>, byAddress: map<string, nat>, byBareName: map<string, seq<nat>>, linked: map<string, string>)

  function Lookup<T>(m: map<string, T>, k: string): Option<T> { if k in m then Some(m[k]) else None }

  ghost predicate Indexes<T>(m: map<string, nat>, s: seq<T>, key: T -> string) {
    forall k :: Lookup(m, k) == LastWith(s, key, k)
  }

  ghost predicate Groups<T>(m: map<string, seq<nat>>, s: seq<T>, key: T -> string) {
    forall k :: (if k in m then m[k] else []) == AllWith(s, key, k)
  }

  ghost predicate Follows(m: map<string, string>, links: seq<Link>, bare: string -> string) {
    forall k :: var l := LastWith(links, LinkMac(bare), k);
      Lookup(m, k) == if l.Some? then Some(bare(links[l.value].win)) else None
  }

  method BuildPrimaryMatcher(primary: seq<Fn>, links: seq<Link>, bare: string -> string) returns (m: Matcher)
    ensures forall f :: Match(m, bare, f) == MatchOf(primary, links, bare, f)
  {
    var byQualified: map<string, nat>, byAddress: map<string, nat>, byBareName: map<string, seq<nat>> := map[], map[], map[];
    for i := 0 to |primary|
      invariant Indexes(byQualified, primary[..i], FnQualified)
      invariant Indexes(byAddress, primary[..i], FnAddress(bare))
      invariant Groups(byBareName, primary[..i], FnName)
    {
      var f := primary[i];
      assert primary[..i + 1] == primary[..i] + [f];
      OneMoreIndexed(byQualified, primary[..i], FnQualified, f);
      OneMoreIndexed(byAddress, primary[..i], FnAddress(bare), f);
      OneMoreGrouped(byBareName, primary[..i], FnName, f);
      byQualified := byQualified[Qualified(f.namespace, f.name) := i];
      byAddress := byAddress[bare(f.address) := i];
      byBareName := byBareName[f.name := (if f.name in byBareName then byBareName[f.name] else []) + [i]];
    }
    var linked: map<string, string> := map[];
    for i := 0 to |links|
      invariant Follows(linked, links[..i], bare)
    {
      OneMoreFollowed(linked, links[..i], bare, links[i]);
      assert links[..i + 1] == links[..i] + [links[i]];
      linked := linked[bare(links[i].mac) := bare(links[i].win)];
    }
    assert primary[..|primary|] == primary && links[..|links|] == links;
    m := Matcher(byQualified, byAddress, byBareName, linked);
    MatcherMatches(m, primary, links, bare);
  }

  lemma OneMoreIndexed<T>(m: map<string, nat>, s: seq<T>, key: T -> string, x: T)
    requires Indexes(m, s, key)
    ensures Indexes(m[key(x) := |s|], s + [x], key)
  {
    forall k ensures Lookup(m[key(x) := |s|], k) == LastWith(s + [x], key, k) {
      assert (s + [x])[..|s|] == s;
      assert Lookup(m, k) == LastWith(s, key, k);
    }
  }

  lemma AllWithOneMore<T>(s: seq<T>, key: T -> string, x: T, k: string)
    ensures AllWith(s + [x], key, k) == AllWith(s, key, k) + if key(x) == k then [|s|] else []
  {
    assert (s + [x])[..|s|] == s;
  }

  lemma OneMoreGrouped<T>(m: map<string, seq<nat>>, s: seq<T>, key: T -> string, x: T)
    requires Groups(m, s, key)
    ensures Groups(m[key(x) := (if key(x) in m then m[key(x)] else []) + [|s|]], s + [x], key)
  {
    hide AllWith;
    var after := m[key(x) := (if key(x) in m then m[key(x)] else []) + [|s|]];
    forall k ensures (if k in after then after[k] else []) == AllWith(s + [x], key, k) {
      AllWithOneMore(s, key, x, k);
      assert (if k in m then m[k] else []) == AllWith(s, key, k);
      assert k != key(x) ==> AllWith(s, key, k) + [] == AllWith(s, key, k);
    }
  }

  lemma OneMoreFollowed(m: map<string, string>, links: seq<Link>, bare: string -> string, l: Link)
    requires Follows(m, links, bare)
    ensures Follows(m[bare(l.mac) := bare(l.win)], links + [l], bare)
  {
    assert (links + [l])[..|links|] == links;
    forall k ensures LastWith(links + [l], LinkMac(bare), k) == if bare(l.mac) == k then Some(|links|) else LastWith(links, LinkMac(bare), k) { }
  }

  /** The matcher the source builds: three lookups, tried in order. */
  function Match(m: Matcher, bare: string -> string, f: Fn): Option<nat> {
    var q := Qualified(f.namespace, f.name);
    if q in m.byQualified then Some(m.byQualified[q])
    else if f.name in m.byBareName && |m.byBareName[f.name]| == 1 then Some(m.byBareName[f.name][0])
    else
      var linkedWin := Lookup(m.linked, bare(f.address));
      if linkedWin.Some? && linkedWin.value != "" then Lookup(m.byAddress, linkedWin.value) else None
  }

  lemma MatcherMatches(m: Matcher, primary: seq<Fn>, links: seq<Link>, bare: string -> string)
    requires Indexes(m.byQualified, primary, FnQualified) && Indexes(m.byAddress, primary, FnAddress(bare))
    requires Groups(m.byBareName, primary, FnName) && Follows(m.linked, links, bare)
    ensures forall f :: Match(m, bare, f) == MatchOf(primary, links, bare, f)
  {
    forall f ensures Match(m, bare, f) == MatchOf(primary, links, bare, f) {
      assert Lookup(m.byQualified, FnQualified(f)) == LastWith(primary, FnQualified, FnQualified(f));
      assert (if f.name in m.byBareName then m.byBareName[f.name] else []) == AllWith(primary, FnName, f.name);
      var l := LastWith(links, LinkMac(bare), bare(f.address));
      assert Lookup(m.linked, bare(f.address)) == if l.Some? then Some(bare(links[l.value].win)) else None;
    }
  }

  // ---------------------------------------------------------------------------
  // The merge
  // ---------------------------------------------------------------------------

  /** A match into a list of `n` functions, fixed before the merge starts. */
  type FnMatch = Fn -> Option<nat>

  /** The one the source uses: into the primary as it is then. */
  function Matching(primary: seq<Fn>, links: seq<Link>, bare: string -> string): FnMatch {
    (f: Fn) => MatchOf(primary, links, bare, f)
  }

  lemma MatchingIsInto(primary: seq<Fn>, links: seq<Link>, bare: string -> string)
    ensures Into(Matching(primary, links, bare), |primary|)
  {
  }

  ghost predicate Into(m: FnMatch, n: nat) { forall f :: m(f).Some? ==> m(f).value < n }

  function Map<A, B>(s: seq<A>, f: A -> B): (r: seq<B>)
    ensures |r| == |s| && forall i :: 0 <= i < |s| ==> r[i] == f(s[i])
  {
    seq(|s|, i requires 0 <= i < |s| => f(s[i]))
  }

  function Tag(platform: string, ifdef: string): Fn -> Fn {
    (f: Fn) => f.(platform := Some(platform), ifdef := Some(ifdef))
  }

  function TagGlobal(platform: string, ifdef: string): Global -> Global {
    (g: Global) => g.(platform := Some(platform), ifdef := Some(ifdef))
  }

  function TagType(platform: string, ifdef: string): TypeRecord -> TypeRecord {
    (t: TypeRecord) => t.(platform := Some(platform), ifdef := Some(ifdef))
  }

  /** The last function matched to a place. */
  function LastMatched(named: seq<Fn>, m: FnMatch, i: nat): (r: Option<Fn>)
    ensures r.Some? ==> r.value in named && m(r.value) == Some(i)
    ensures r.None? ==> forall f :: f in named ==> m(f) != Some(i)
  {
    if named == [] then None else
      assert named == named[..|named| - 1] + [named[|named| - 1]];
      if m(named[|named| - 1]) == Some(i) then Some(named[|named| - 1]) else LastMatched(named[..|named| - 1], m, i)
  }

  function WithAnchor(f: Fn, last: Option<Fn>, platform: string): Fn {
    if last.Some? then f.(anchor := Some(Anchor(last.value.address, platform))) else f
  }

  /** The primary functions with the addresses of their matches. */
  function Anchored(primary: seq<Fn>, named: seq<Fn>, m: FnMatch, platform: string): (r: seq<Fn>)
    ensures |r| == |primary|
  {
    seq(|primary|, i requires 0 <= i < |primary| => WithAnchor(primary[i], LastMatched(named, m, i), platform))
  }

  /** Functions only the secondary has. */
  function Unmatched(named: seq<Fn>, m: FnMatch): seq<Fn> { Filter(named, (f: Fn) => m(f).None?) }

  function GlobalNames(globals: seq<Global>): set<string> { set g | g in globals :: Qualified(g.namespace, g.name) }

  function NewGlobal(known: set<string>): Global -> bool {
    (g: Global) => IsNamedGlobal(g) && Qualified(g.namespace, g.name) !in known
  }

  function NewNamespace(known: seq<string>): string -> bool { (n: string) => n !in known }

  function TypeKeys(types: seq<TypeRecord>): set<string> { set t | t in types :: TypeKey(t) }

  /** Types of a key not known yet, the first of each. */
  function NewTypes(known: set<string>, types: seq<TypeRecord>): seq<TypeRecord> {
    if types == [] then [] else
      var n := |types| - 1;
      var r := NewTypes(known, types[..n]);
      if TypeKey(types[n]) in known || TypeKey(types[n]) in TypeKeys(r) then r else r + [types[n]]
  }

  function Merged(x: Extracted, secondary: Extracted, m: FnMatch, platform: string, ifdef: string): Extracted {
    var named := Filter(secondary.functions, IsNamed);
    Extracted(
      Anchored(x.functions, named, m, platform) + Map(Unmatched(named, m), Tag(platform, ifdef)),
      x.globals + Map(Filter(secondary.globals, NewGlobal(GlobalNames(x.globals))), TagGlobal(platform, ifdef)),
      x.namespaces + Filter(secondary.namespaces, NewNamespace(x.namespaces)),
      x.dataTypes + Map(NewTypes(TypeKeys(x.dataTypes), secondary.dataTypes), TagType(platform, ifdef)))
  }

  /** The extraction the pipeline holds; the merge changes it in place. */
  class Extraction {
    var functions: seq<Fn>
    var globals: seq<Global>
    var namespaces: seq<string>
    var dataTypes: seq<TypeRecord>

    function Value(): Extracted
      reads this
    {
      Extracted(functions, globals, namespaces, dataTypes)
    }

    constructor (x: Extracted)
      ensures Value() == x
    {
      functions, globals, namespaces, dataTypes := x.functions, x.globals, x.namespaces, x.dataTypes;
    }

    /** `mergeSecondaryPure`. */
    method Merge(secondary: Extracted, m: FnMatch, platform: string, ifdef: string)
      requires Into(m, |functions|)
      modifies this
      ensures Value() == Merged(old(Value()), secondary, m, platform, ifdef)
    {
      MergeFunctions(secondary.functions, m, platform, ifdef);
      MergeGlobals(secondary.globals, platform, ifdef);
      MergeNamespaces(secondary.namespaces);
      MergeTypes(secondary.dataTypes, platform, ifdef);
    }

    method MergeFunctions(fns: seq<Fn>, m: FnMatch, platform: string, ifdef: string)
      requires Into(m, |functions|)
      modifies this`functions
      ensures var named := Filter(fns, IsNamed);
        functions == Anchored(old(functions), named, m, platform) + Map(Unmatched(named, m), Tag(platform, ifdef))
    {
      hide Anchored, Unmatched;
      var named := Filter(fns, IsNamed);
      ghost var primary := functions;
      NothingMerged(primary, m, platform, ifdef);
      for i := 0 to |named|
        invariant functions == MergedPrefix(primary, named[..i], m, platform, ifdef)
      {
        var func := named[i];
        assert named[..i + 1] == named[..i] + [func];
        OneMoreMerged(primary, named[..i], func, m, platform, ifdef);
        var primaryMatch := m(func);
        if primaryMatch.Some? {
          var k := primaryMatch.value;
          functions := functions[k := functions[k].(anchor := Some(Anchor(func.address, platform)))];
        } else {
          functions := functions + [func.(platform := Some(platform), ifdef := Some(ifdef))];
        }
      }
      assert named[..|named|] == named;
    }

    method MergeGlobals(secondary: seq<Global>, platform: string, ifdef: string)
      modifies this`globals
      ensures globals == old(globals) + Map(Filter(secondary, NewGlobal(GlobalNames(old(globals)))), TagGlobal(platform, ifdef))
    {
      hide Filter, Map, NewGlobal;
      var known := GlobalNames(globals);
      KeepNone(secondary, NewGlobal(known), TagGlobal(platform, ifdef));
      for i := 0 to |secondary|
        invariant globals == old(globals) + Map(Filter(secondary[..i], NewGlobal(known)), TagGlobal(platform, ifdef))
      {
        var g := secondary[i];
        KeepOneMore(secondary, i, NewGlobal(known), TagGlobal(platform, ifdef));
        NewGlobalIs(known, g);
        if IsNamedGlobal(g) && Qualified(g.namespace, g.name) !in known {
          globals := globals + [g.(platform := Some(platform), ifdef := Some(ifdef))];
        }
      }
      assert secondary[..|secondary|] == secondary;
    }

    method MergeNamespaces(secondary: seq<string>)
      modifies this`namespaces
      ensures namespaces == old(namespaces) + Filter(secondary, NewNamespace(old(namespaces)))
    {
      var known := namespaces;
      for i := 0 to |secondary|
        invariant namespaces == known + Filter(secondary[..i], NewNamespace(known))
      {
        assert secondary[..i + 1] == secondary[..i] + [secondary[i]];
        FilterConcat(secondary[..i], [secondary[i]], NewNamespace(known));
        if secondary[i] !in known { namespaces := namespaces + [secondary[i]]; }
      }
      assert secondary[..|secondary|] == secondary;
    }

    method MergeTypes(secondary: seq<TypeRecord>, platform: string, ifdef: string)
      modifies this`dataTypes
      ensures dataTypes == old(dataTypes) + Map(NewTypes(TypeKeys(old(dataTypes)), secondary), TagType(platform, ifdef))
    {
      ghost var known := TypeKeys(dataTypes);
      var existing := TypeKeys(dataTypes);
      for i := 0 to |secondary|
        invariant existing == known + TypeKeys(NewTypes(known, secondary[..i]))
        invariant dataTypes == old(dataTypes) + Map(NewTypes(known, secondary[..i]), TagType(platform, ifdef))
      {
        var t := secondary[i];
        assert secondary[..i + 1][..i] == secondary[..i];
        if TypeKey(t) !in existing {
          dataTypes := dataTypes + [t.(platform := Some(platform), ifdef := Some(ifdef))];
          existing := existing + {TypeKey(t)};
        }
      }
      assert secondary[..|secondary|] == secondary;
    }
  }

  lemma KeepNone<A(!new), B>(s: seq<A>, p: A -> bool, f: A -> B)
    ensures Map(Filter(s[..0], p), f) == [] && s[..|s|] == s
  {
  }

  lemma KeepOneMore<A(!new), B>(s: seq<A>, i: nat, p: A -> bool, f: A -> B)
    requires i < |s|
    ensures Map(Filter(s[..i + 1], p), f) == Map(Filter(s[..i], p), f) + if p(s[i]) then [f(s[i])] else []
  {
    assert s[..i + 1] == s[..i] + [s[i]];
    FilterConcat(s[..i], [s[i]], p);
  }

  lemma NewGlobalIs(known: set<string>, g: Global)
    ensures NewGlobal(known)(g) <==> IsNamedGlobal(g) && Qualified(g.namespace, g.name) !in known
  {
  }

  function MergedPrefix(primary: seq<Fn>, named: seq<Fn>, m: FnMatch, platform: string, ifdef: string): (r: seq<Fn>)
    ensures |r| >= |primary|
  {
    Anchored(primary, named, m, platform) + Map(Unmatched(named, m), Tag(platform, ifdef))
  }

  lemma NothingMerged(primary: seq<Fn>, m: FnMatch, platform: string, ifdef: string)
    ensures MergedPrefix(primary, [], m, platform, ifdef) == primary
  {
    assert Anchored(primary, [], m, platform) == primary;
  }

  lemma OneMoreMerged(primary: seq<Fn>, named: seq<Fn>, f: Fn, m: FnMatch, platform: string, ifdef: string)
    requires Into(m, |primary|)
    ensures var before, after := MergedPrefix(primary, named, m, platform, ifdef), MergedPrefix(primary, named + [f], m, platform, ifdef);
      if m(f).Some?
      then after == before[m(f).value := before[m(f).value].(anchor := Some(Anchor(f.address, platform)))]
      else after == before + [Tag(platform, ifdef)(f)]
  {
    hide Anchored, Unmatched;
    AnchoredOneMore(primary, named, f, m, platform);
    UnmatchedOneMore(named, f, m);
    var anchored, added := Anchored(primary, named, m, platform), Map(Unmatched(named, m), Tag(platform, ifdef));
    if m(f).Some? {
      var k := m(f).value;
      assert (anchored + added)[k] == anchored[k];
      assert anchored[k := anchored[k].(anchor := Some(Anchor(f.address, platform)))] + added
          == (anchored + added)[k := anchored[k].(anchor := Some(Anchor(f.address, platform)))];
    } else {
      assert Map(Unmatched(named, m) + [f], Tag(platform, ifdef)) == added + [Tag(platform, ifdef)(f)];
      assert anchored + (added + [Tag(platform, ifdef)(f)]) == (anchored + added) + [Tag(platform, ifdef)(f)];
    }
  }

  lemma UnmatchedOneMore(named: seq<Fn>, f: Fn, m: FnMatch)
    ensures Unmatched(named + [f], m) == Unmatched(named, m) + if m(f).None? then [f] else []
  {
    FilterConcat(named, [f], (x: Fn) => m(x).None?);
  }

  lemma AnchoredOneMore(primary: seq<Fn>, named: seq<Fn>, f: Fn, m: FnMatch, platform: string)
    requires Into(m, |primary|)
    ensures var before, after := Anchored(primary, named, m, platform), Anchored(primary, named + [f], m, platform);
      after == if m(f).Some? then before[m(f).value := before[m(f).value].(anchor := Some(Anchor(f.address, platform)))] else before
  {
    assert (named + [f])[..|named|] == named;
    assert forall i :: 0 <= i < |primary| ==>
      LastMatched(named + [f], m, i) == if m(f) == Some(i) then Some(f) else LastMatched(named, m, i);
  }

  // ---------------------------------------------------------------------------
  // Taking a source out again
  // ---------------------------------------------------------------------------

  predicate Disabled(platform: Option<string>, disabled: set<string>) {
    platform.Some? && platform.value != "" && platform.value in disabled
  }

  function Unanchored(f: Fn, disabled: set<string>): Fn {
    if f.anchor.Some? && f.anchor.value.platform in disabled then f.(anchor := None) else f
  }

  function StripFunctions(fns: seq<Fn>, disabled: set<string>): seq<Fn> {
    if fns == [] then [] else
      var n := |fns| - 1;
      StripFunctions(fns[..n], disabled) + if Disabled(fns[n].platform, disabled) then [] else [Unanchored(fns[n], disabled)]
  }

  function AnchorCount(fns: seq<Fn>, disabled: set<string>): nat {
    if fns == [] then 0 else
      var n := |fns| - 1;
      AnchorCount(fns[..n], disabled)
      + if !Disabled(fns[n].platform, disabled) && Unanchored(fns[n], disabled) != fns[n] then 1 else 0
  }

  function Enabled(disabled: set<string>): Global -> bool { (g: Global) => !Disabled(g.platform, disabled) }

  function EnabledType(disabled: set<string>): TypeRecord -> bool { (t: TypeRecord) => !Disabled(t.platform, disabled) }

  datatype StripResult = StripResult(functions: seq<Fn>, dataTypes: seq<TypeRecord>, globals: seq<Global>,
    removedFunctions: int, removedAnchors: int, removedDataTypes: int, removedGlobals: int)

  function Stripped(x: Extracted, disabled: set<string>): Extracted {
    Extracted(StripFunctions(x.functions, disabled), Filter(x.globals, Enabled(disabled)), x.namespaces,
      Filter(x.dataTypes, EnabledType(disabled)))
  }

  /** `stripDisabledSources`. */
  method StripDisabledSources(functions: seq<Fn>, dataTypes: seq<TypeRecord>, globals: seq<Global>, disabled: set<string>)
    returns (r: StripResult)
    ensures Extracted(r.functions, r.globals, [], r.dataTypes) == Stripped(Extracted(functions, globals, [], dataTypes), disabled)
    ensures r.removedFunctions == |functions| - |r.functions| && r.removedAnchors == AnchorCount(functions, disabled)
    ensures r.removedDataTypes == |dataTypes| - |r.dataTypes| && r.removedGlobals == |globals| - |r.globals|
  {
    if disabled == {} {
      NothingDisabled(functions);
      FilterKeepsAll(globals, Enabled({}));
      FilterKeepsAll(dataTypes, EnabledType({}));
      return StripResult(functions, dataTypes, globals, 0, 0, 0, 0);
    }
    var removedAnchors := 0;
    var kept: seq<Fn> := [];
    for i := 0 to |functions|
      invariant kept == StripFunctions(functions[..i], disabled) && removedAnchors == AnchorCount(functions[..i], disabled)
    {
      var f := functions[i];
      assert functions[..i + 1][..i] == functions[..i];
      if Disabled(f.platform, disabled) {
      } else if f.anchor.Some? && f.anchor.value.platform in disabled {
        kept := kept + [f.(anchor := None)];
        removedAnchors := removedAnchors + 1;
      } else {
        kept := kept + [f];
      }
    }
    assert functions[..|functions|] == functions;
    var types, symbols := Filter(dataTypes, EnabledType(disabled)), Filter(globals, Enabled(disabled));
    return StripResult(kept, types, symbols, |functions| - |kept|, removedAnchors, |dataTypes| - |types|, |globals| - |symbols|);
  }

  lemma {:induction false} NothingDisabled(fns: seq<Fn>)
    ensures StripFunctions(fns, {}) == fns && AnchorCount(fns, {}) == 0
    decreases |fns|
  {
    if fns != [] {
      NothingDisabled(fns[..|fns| - 1]);
      assert fns == fns[..|fns| - 1] + [fns[|fns| - 1]];
    }
  }

  lemma {:induction false} FilterKeepsAll<T(!new)>(s: seq<T>, p: T -> bool)
    requires forall x :: x in s ==> p(x)
    ensures Filter(s, p) == s
    decreases |s|
  {
    if s != [] {
      assert s[0] in s && forall x :: x in s[1..] ==> x in s;
      FilterKeepsAll(s[1..], p);
      assert s == [s[0]] + s[1..];
    }
  }

  lemma {:induction false} FilterKeepsNone<T(!new)>(s: seq<T>, p: T -> bool)
    requires forall x :: x in s ==> !p(x)
    ensures Filter(s, p) == []
    decreases |s|
  {
    if s != [] {
      assert s[0] in s && forall x :: x in s[1..] ==> x in s;
      FilterKeepsNone(s[1..], p);
    }
  }

  lemma {:induction false} StripConcat(a: seq<Fn>, b: seq<Fn>, disabled: set<string>)
    ensures StripFunctions(a + b, disabled) == StripFunctions(a, disabled) + StripFunctions(b, disabled)
    decreases |b|
  {
    if b == [] { assert a + b == a; } else {
      var n := |b| - 1;
      StripConcat(a, b[..n], disabled);
      assert (a + b)[..|a + b| - 1] == a + b[..n];
    }
  }

  /** A strip keeps the length exactly when no record is of a disabled source; then it unanchors each. */
  lemma {:induction false} StripKeepsLength(fns: seq<Fn>, disabled: set<string>)
    ensures |StripFunctions(fns, disabled)| <= |fns|
    ensures |StripFunctions(fns, disabled)| == |fns| <==> forall i :: 0 <= i < |fns| ==> !Disabled(fns[i].platform, disabled)
    ensures |StripFunctions(fns, disabled)| == |fns| ==>
      forall i :: 0 <= i < |fns| ==> StripFunctions(fns, disabled)[i] == Unanchored(fns[i], disabled)
    decreases |fns|
  {
    if fns != [] {
      var n := |fns| - 1;
      StripKeepsLength(fns[..n], disabled);
      assert forall i :: 0 <= i < n ==> fns[..n][i] == fns[i];
    }
  }

  lemma {:induction false} TaggedAreStripped(fns: seq<Fn>, platform: string, ifdef: string)
    requires platform != ""
    ensures StripFunctions(Map(fns, Tag(platform, ifdef)), {platform}) == []
    decreases |fns|
  {
    if fns != [] {
      var n := |fns| - 1;
      TaggedAreStripped(fns[..n], platform, ifdef);
      assert Map(fns, Tag(platform, ifdef))[..n] == Map(fns[..n], Tag(platform, ifdef));
    }
  }

  /** The primary holds nothing of this source. */
  ghost predicate Free(x: Extracted, platform: string) {
    && (forall f :: f in x.functions ==> f.platform != Some(platform))
    && (forall f :: f in x.functions && f.anchor.Some? ==> f.anchor.value.platform != platform)
    && (forall g :: g in x.globals ==> g.platform != Some(platform))
    && (forall t :: t in x.dataTypes ==> t.platform != Some(platform))
  }

  /** No primary function the merge would anchor has an anchor already, of whatever source. */
  ghost predicate FreeMatches(x: Extracted, secondary: Extracted, m: FnMatch) {
    forall f :: f in Filter(secondary.functions, IsNamed) && m(f).Some? && m(f).value < |x.functions| ==>
      x.functions[m(f).value].anchor == None
  }

  /** Stripping the functions: what each primary one comes back as. */
  lemma StripMergedFunctions(x: Extracted, secondary: Extracted, m: FnMatch, platform: string, ifdef: string)
    requires platform != "" && Into(m, |x.functions|)
    ensures StripFunctions(Merged(x, secondary, m, platform, ifdef).functions, {platform}) == x.functions <==>
      (forall f :: f in x.functions ==> f.platform != Some(platform) && (f.anchor.Some? ==> f.anchor.value.platform != platform))
      && FreeMatches(x, secondary, m)
  {
    hide Filter, LastMatched;
    var named := Filter(secondary.functions, IsNamed);
    var anchored := Anchored(x.functions, named, m, platform);
    var added := Map(Unmatched(named, m), Tag(platform, ifdef));
    StripConcat(anchored, added, {platform});
    TaggedAreStripped(Unmatched(named, m), platform, ifdef);
    StripKeepsLength(anchored, {platform});
    var r := StripFunctions(anchored, {platform});
    assert StripFunctions(anchored + added, {platform}) == r;
    if r == x.functions {
      WhatComesBackIsFree(x.functions, named, m, platform);
    } else if FreeMatches(x, secondary, m) {
      MatchesComeBack(x.functions, named, m, platform, r);
    }
  }

  lemma WhatComesBackIsFree(primary: seq<Fn>, named: seq<Fn>, m: FnMatch, platform: string)
    requires platform != "" && Into(m, |primary|) && StripFunctions(Anchored(primary, named, m, platform), {platform}) == primary
    ensures forall f :: f in primary ==> f.platform != Some(platform) && (f.anchor.Some? ==> f.anchor.value.platform != platform)
    ensures forall f :: f in named && m(f).Some? ==> primary[m(f).value].anchor == None
  {
    hide StripFunctions;
    var anchored := Anchored(primary, named, m, platform);
    StripKeepsLength(anchored, {platform});
    forall i | 0 <= i < |primary|
      ensures primary[i].platform != Some(platform) && Unanchored(anchored[i], {platform}) == primary[i]
    {
      assert anchored[i].platform == primary[i].platform;
    }
  }

  lemma MatchesComeBack(primary: seq<Fn>, named: seq<Fn>, m: FnMatch, platform: string, r: seq<Fn>)
    requires Into(m, |primary|) && platform != "" && r == StripFunctions(Anchored(primary, named, m, platform), {platform}) && r != primary
    requires forall f :: f in named && m(f).Some? ==> primary[m(f).value].anchor == None
    ensures exists f :: f in primary && (f.platform == Some(platform) || (f.anchor.Some? && f.anchor.value.platform == platform))
  {
    var anchored := Anchored(primary, named, m, platform);
    StripKeepsLength(anchored, {platform});
    if |r| == |primary| {
      var i :| 0 <= i < |r| && r[i] != primary[i];
      assert primary[i] in primary && r[i] == Unanchored(anchored[i], {platform});
    } else {
      var i :| 0 <= i < |anchored| && Disabled(anchored[i].platform, {platform});
      assert primary[i] in primary;
    }
  }

  lemma {:induction false} TaggedGlobalsGo(s: seq<Global>, platform: string, ifdef: string)
    requires platform != ""
    ensures Filter(Map(s, TagGlobal(platform, ifdef)), Enabled({platform})) == []
  {
    FilterKeepsNone(Map(s, TagGlobal(platform, ifdef)), Enabled({platform}));
  }

  lemma {:induction false} TaggedTypesGo(s: seq<TypeRecord>, platform: string, ifdef: string)
    requires platform != ""
    ensures Filter(Map(s, TagType(platform, ifdef)), EnabledType({platform})) == []
  {
    FilterKeepsNone(Map(s, TagType(platform, ifdef)), EnabledType({platform}));
  }

  lemma FilterIsAll<T(!new)>(s: seq<T>, p: T -> bool)
    ensures Filter(s, p) == s <==> forall x :: x in s ==> p(x)
  {
    if forall x :: x in s ==> p(x) { FilterKeepsAll(s, p); }
  }

  /**
   * Strip undoes merge - the original functions, types and globals in the original order -
   * exactly when the primary held nothing of the source and no function it is matched on
   * was anchored: an anchor of another source is overwritten, and the strip cannot give it back.
   */
  lemma StripUndoesMerge(x: Extracted, secondary: Extracted, m: FnMatch, platform: string, ifdef: string)
    requires platform != "" && Into(m, |x.functions|)
    ensures var r := Stripped(Merged(x, secondary, m, platform, ifdef), {platform});
      r.functions == x.functions && r.globals == x.globals && r.dataTypes == x.dataTypes
      <==> Free(x, platform) && FreeMatches(x, secondary, m)
  {
    hide StripFunctions, FreeMatches, Filter, Anchored, NewTypes;
    StripMergedFunctions(x, secondary, m, platform, ifdef);
    var globals := Filter(secondary.globals, NewGlobal(GlobalNames(x.globals)));
    var types := NewTypes(TypeKeys(x.dataTypes), secondary.dataTypes);
    FilterConcat(x.globals, Map(globals, TagGlobal(platform, ifdef)), Enabled({platform}));
    FilterConcat(x.dataTypes, Map(types, TagType(platform, ifdef)), EnabledType({platform}));
    TaggedGlobalsGo(globals, platform, ifdef);
    TaggedTypesGo(types, platform, ifdef);
    FilterIsAll(x.globals, Enabled({platform}));
    FilterIsAll(x.dataTypes, EnabledType({platform}));
  }

  /**
   * Nothing named is lost but an overwritten anchor: a secondary function is appended, tagged,
   * or the primary one it matches carries the address of the last function matched there.
   */
  lemma EveryNamedFunction(x: Extracted, secondary: Extracted, m: FnMatch, platform: string, ifdef: string, f: Fn)
    requires Into(m, |x.functions|) && f in secondary.functions && IsNamed(f)
    ensures var r := Merged(x, secondary, m, platform, ifdef).functions;
      var last := LastMatched(Filter(secondary.functions, IsNamed), m, if m(f).Some? then m(f).value else 0);
      if m(f).None? then Tag(platform, ifdef)(f) in r[|x.functions|..]
      else last.Some? && (r[m(f).value].anchor == Some(Anchor(f.address, platform)) <==> last.value.address == f.address)
  {
    var named := Filter(secondary.functions, IsNamed);
    var r := Merged(x, secondary, m, platform, ifdef).functions;
    assert f in named;
    if m(f).None? {
      var added := Unmatched(named, m);
      assert f in added;
      var i :| 0 <= i < |added| && added[i] == f;
      assert r[|x.functions|..][i] == Tag(platform, ifdef)(f);
    } else {
      assert r[m(f).value] == Anchored(x.functions, named, m, platform)[m(f).value];
    }
  }

  // ---------------------------------------------------------------------------
  // What is lost
  // ---------------------------------------------------------------------------

  const OURS := Fn("f", None, "1", None, false, false, None, None, None)
  const FIRST := OURS.(address := "8")
  const SECOND := OURS.(address := "9")

  function Only(functions: seq<Fn>): Extracted { Extracted(functions, [], [], []) }

  lemma OursMatches(primary: Fn, f: Fn, bare: string -> string)
    requires primary.name == f.name == "f" && primary.namespace == f.namespace == None
    ensures Matching([primary], [], bare)(f) == Some(0) && IsNamed(f)
  {
    assert LastWith([primary], FnQualified, FnQualified(f)) == Some(0);
  }

  /** A function of the mac source is matched by one of the linux source: the strip of linux cannot give the mac anchor back. */
  lemma StripLosesAnAnchor(bare: string -> string)
    ensures var x := Only([OURS.(anchor := Some(Anchor("5", "mac")))]);
      var merged := Merged(x, Only([FIRST]), Matching(x.functions, [], bare), "linux", "LINUX");
      Free(x, "linux") && Stripped(merged, {"linux"}).functions != x.functions
  {
    hide Merged, StripFunctions, Matching, FnQualified;
    var x := Only([OURS.(anchor := Some(Anchor("5", "mac")))]);
    OursMatches(x.functions[0], FIRST, bare);
    MatchingIsInto(x.functions, [], bare);
    assert FIRST in Filter([FIRST], IsNamed);
    assert "mac"[0] != "linux"[0];
    StripMergedFunctions(x, Only([FIRST]), Matching(x.functions, [], bare), "linux", "LINUX");
  }

  /** Two functions of one name are matched to one: the first one's address is nowhere afterwards. */
  lemma OnlyTheLastIsKept(bare: string -> string)
    ensures var x := Only([OURS]);
      var r := Merged(x, Only([FIRST, SECOND]), Matching(x.functions, [], bare), "linux", "LINUX").functions;
      r == [OURS.(anchor := Some(Anchor(SECOND.address, "linux")))] && FIRST.address != SECOND.address
  {
    hide Matching, FnQualified, IsNamed;
    var m, named := Matching([OURS], [], bare), [FIRST, SECOND];
    OursMatches(OURS, FIRST, bare);
    OursMatches(OURS, SECOND, bare);
    FilterKeepsAll(named, IsNamed);
    FilterKeepsNone(named, (f: Fn) => m(f).None?);
    assert LastMatched(named, m, 0) == Some(SECOND);
    assert Map(Unmatched(named, m), Tag("linux", "LINUX")) == [];
    assert "8"[0] != "9"[0];
  }
}
