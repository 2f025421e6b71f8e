/**
 * Which bodies of a secondary extraction have to be fetched (packages/reconstruct/src/index.ts:
 * needsBody, obtainSecondaryExtraction, decompileBodies). Fetching one is a fixed function of
 * the address.
 */
module SecondaryBodies {
  import opened Prelude
  import opened Sorting
  import opened SecondaryMerge
  import opened MergedRecords

  type Bodies = string -> string

  type Needs = Fn -> bool

  /** `needsBody`: only a named function the primary does not have keeps its body. */
  function NeedsBody(m: FnMatch): Needs { (f: Fn) => IsNamed(f) && m(f).None? }

  predicate HasBody(f: Fn) { f.decompiled.Some? && f.decompiled.value != "" }

  predicate CanHaveBody(f: Fn) { !f.isExternal && !f.isThunk }

  function Bare(f: Fn): Fn { f.(decompiled := None) }

  function Fetched(f: Fn, body: Bodies): Fn { f.(decompiled := Some(body(f.address))) }

  /** A match looks at a function's name and address, never at its body. */
  ghost predicate BlindToBodies(m: FnMatch) { forall f, d :: m(f) == m(f.(decompiled := d)) }

  lemma MatchIsBlind(primary: seq<Fn>, links: seq<Link>, bare: string -> string)
    ensures BlindToBodies(Matching(primary, links, bare))
  {
  }

  /** A fresh extraction of a listing: a body where one can be and the filter asks for it. */
  function Extracts(body: Bodies, needs: Needs): Fn -> Fn {
    (f: Fn) => if CanHaveBody(f) && needs(Bare(f)) then Fetched(f, body) else Bare(f)
  }

  function Everything(): Needs { (f: Fn) => true }

  predicate Missing(f: Fn, needs: Needs) { !HasBody(f) && CanHaveBody(f) && needs(f) }

  function ToppedUp(body: Bodies, needs: Needs): Fn -> Fn {
    (f: Fn) => if Missing(f, needs) then Fetched(f, body) else f
  }

  /** A cache of this listing, written for whatever an older primary needed. */
  ghost predicate CacheOf(cached: seq<Fn>, listing: seq<Fn>, body: Bodies) {
    && |cached| == |listing|
    && forall i :: 0 <= i < |cached| ==> cached[i] == Bare(listing[i]) || (CanHaveBody(listing[i]) && cached[i] == Fetched(listing[i], body))
  }

  /** A filtered extraction is such a cache, whatever the filter was. */
  lemma ExtractionIsCache(listing: seq<Fn>, body: Bodies, needs: Needs)
    ensures CacheOf(Map(listing, Extracts(body, needs)), listing, body)
  {
  }

  // ---------------------------------------------------------------------------
  // Only needed bodies matter
  // ---------------------------------------------------------------------------

  /** Two lists of one extraction that agree on every body the merge keeps. */
  ghost predicate AgreeWhereNeeded(a: seq<Fn>, b: seq<Fn>, needs: Needs) {
    && |a| == |b|
    && forall i :: 0 <= i < |a| ==> Bare(a[i]) == Bare(b[i]) && (needs(Bare(a[i])) ==> a[i] == b[i])
  }

  lemma {:induction false} SameNamed(a: seq<Fn>, b: seq<Fn>, m: FnMatch)
    requires BlindToBodies(m) && AgreeWhereNeeded(a, b, NeedsBody(m))
    ensures AgreeWhereNeeded(Filter(a, IsNamed), Filter(b, IsNamed), NeedsBody(m))
    decreases |a|
  {
    hide NeedsBody, IsNamed, Bare;
    if a != [] {
      FirstAgrees(a, b, m);
      SameNamed(a[1..], b[1..], m);
    }
  }

  lemma {:induction false} SameUnmatched(a: seq<Fn>, b: seq<Fn>, m: FnMatch)
    requires BlindToBodies(m) && AgreeWhereNeeded(a, b, NeedsBody(m))
    requires forall f :: f in a ==> IsNamed(f)
    ensures Unmatched(a, m) == Unmatched(b, m)
    decreases |a|
  {
    if a != [] {
      FirstAgrees(a, b, m);
      assert a[0] in a && forall f :: f in a[1..] ==> f in a;
      SameUnmatched(a[1..], b[1..], m);
    }
  }

  lemma Agreement(f: Fn, g: Fn, m: FnMatch)
    requires BlindToBodies(m) && Bare(f) == Bare(g) && (NeedsBody(m)(Bare(f)) ==> f == g)
    ensures m(f) == m(g) && f.address == g.address && (IsNamed(f) && m(f).None? ==> f == g)
  {
    assert m(f) == m(Bare(f)) && m(g) == m(Bare(g));
  }

  lemma LastAgrees(a: seq<Fn>, b: seq<Fn>, m: FnMatch)
    requires BlindToBodies(m) && AgreeWhereNeeded(a, b, NeedsBody(m)) && a != []
    ensures var n := |a| - 1;
      && AgreeWhereNeeded(a[..n], b[..n], NeedsBody(m))
      && m(a[n]) == m(b[n]) && a[n].address == b[n].address
  {
    var n := |a| - 1;
    Agreement(a[n], b[n], m);
    assert forall k :: 0 <= k < n ==> a[..n][k] == a[k] && b[..n][k] == b[k];
  }

  lemma FirstAgrees(a: seq<Fn>, b: seq<Fn>, m: FnMatch)
    requires BlindToBodies(m) && AgreeWhereNeeded(a, b, NeedsBody(m)) && a != []
    ensures AgreeWhereNeeded(a[1..], b[1..], NeedsBody(m))
    ensures m(a[0]) == m(b[0]) && IsNamed(a[0]) == IsNamed(b[0]) && Bare(a[0]) == Bare(b[0])
    ensures NeedsBody(m)(Bare(a[0])) ==> a[0] == b[0]
    ensures IsNamed(a[0]) && m(a[0]).None? ==> a[0] == b[0]
  {
    Agreement(a[0], b[0], m);
    assert Bare(a[0]).name == Bare(b[0]).name;
    assert forall i :: 0 <= i < |a[1..]| ==> a[1..][i] == a[i + 1] && b[1..][i] == b[i + 1];
  }

  lemma {:induction false} SameAnchors(a: seq<Fn>, b: seq<Fn>, m: FnMatch, i: nat)
    requires BlindToBodies(m) && AgreeWhereNeeded(a, b, NeedsBody(m))
    ensures LastMatched(a, m, i).Some? <==> LastMatched(b, m, i).Some?
    ensures LastMatched(a, m, i).Some? ==> LastMatched(a, m, i).value.address == LastMatched(b, m, i).value.address
    decreases |a|
  {
    hide BlindToBodies, NeedsBody, Bare;
    if a != [] {
      var n := |a| - 1;
      LastAgrees(a, b, m);
      SameAnchors(a[..n], b[..n], m, i);
    }
  }

  /** The merge sees a body only where one is needed. */
  lemma MergeSeesNeededBodies(x: Extracted, a: Extracted, b: Extracted, m: FnMatch, platform: string, ifdef: string)
    requires BlindToBodies(m) && AgreeWhereNeeded(a.functions, b.functions, NeedsBody(m))
    requires a.globals == b.globals && a.namespaces == b.namespaces && a.dataTypes == b.dataTypes
    ensures Merged(x, a, m, platform, ifdef) == Merged(x, b, m, platform, ifdef)
  {
    var na, nb := Filter(a.functions, IsNamed), Filter(b.functions, IsNamed);
    SameNamed(a.functions, b.functions, m);
    SameUnmatched(na, nb, m);
    forall i: nat | i < |x.functions|
      ensures WithAnchor(x.functions[i], LastMatched(na, m, i), platform) == WithAnchor(x.functions[i], LastMatched(nb, m, i), platform)
    {
      SameAnchors(na, nb, m, i);
    }
    assert Anchored(x.functions, na, m, platform) == Anchored(x.functions, nb, m, platform);
  }

  /** Skipping bodies: an extraction filtered by need merges as a full one does. */
  lemma SkippingChangesNothing(x: Extracted, listing: Extracted, body: Bodies, m: FnMatch, platform: string, ifdef: string)
    requires BlindToBodies(m)
    ensures Merged(x, listing.(functions := Map(listing.functions, Extracts(body, NeedsBody(m)))), m, platform, ifdef)
         == Merged(x, listing.(functions := Map(listing.functions, Extracts(body, Everything()))), m, platform, ifdef)
  {
    var skipped := listing.(functions := Map(listing.functions, Extracts(body, NeedsBody(m))));
    var full := listing.(functions := Map(listing.functions, Extracts(body, Everything())));
    MergeSeesNeededBodies(x, skipped, full, m, platform, ifdef);
  }

  /** ... and so does a cache written under an older primary, once topped up. */
  lemma TopUpChangesNothing(x: Extracted, listing: Extracted, cached: seq<Fn>, body: Bodies, m: FnMatch, platform: string, ifdef: string)
    requires BlindToBodies(m) && CacheOf(cached, listing.functions, body)
    ensures Merged(x, listing.(functions := Map(cached, ToppedUp(body, NeedsBody(m)))), m, platform, ifdef)
         == Merged(x, listing.(functions := Map(listing.functions, Extracts(body, Everything()))), m, platform, ifdef)
  {
    var topped := listing.(functions := Map(cached, ToppedUp(body, NeedsBody(m))));
    var full := listing.(functions := Map(listing.functions, Extracts(body, Everything())));
    forall i | 0 <= i < |cached|
      ensures Bare(topped.functions[i]) == Bare(full.functions[i])
      ensures NeedsBody(m)(Bare(topped.functions[i])) ==> topped.functions[i] == full.functions[i]
    {
      var f := cached[i];
      assert m(f) == m(Bare(f));
    }
    MergeSeesNeededBodies(x, topped, full, m, platform, ifdef);
  }

  /**
   * With the matches the source makes: an extraction that skipped the bodies an older primary
   * did not need, topped up for the present one, merges as a full extraction does.
   */
  lemma OlderExtractionMerges(x: Extracted, listing: Extracted, older: seq<Fn>, olderLinks: seq<Link>, links: seq<Link>,
                              bare: string -> string, body: Bodies, platform: string, ifdef: string)
    ensures var m := Matching(x.functions, links, bare);
      var cached := Map(listing.functions, Extracts(body, NeedsBody(Matching(older, olderLinks, bare))));
      Merged(x, listing.(functions := Map(cached, ToppedUp(body, NeedsBody(m)))), m, platform, ifdef)
      == Merged(x, listing.(functions := Map(listing.functions, Extracts(body, Everything()))), m, platform, ifdef)
  {
    hide Merged, Matching, Extracts, ToppedUp, CacheOf;
    var m := Matching(x.functions, links, bare);
    var cached := Map(listing.functions, Extracts(body, NeedsBody(Matching(older, olderLinks, bare))));
    MatchIsBlind(x.functions, links, bare);
    ExtractionIsCache(listing.functions, body, NeedsBody(Matching(older, olderLinks, bare)));
    TopUpChangesNothing(x, listing, cached, body, m, platform, ifdef);
  }

  /** Without a body, where there can be one, named, and the primary does not have it. */
  predicate LacksNeededBody(f: Fn, m: FnMatch) {
    f.decompiled in {None, Some("")} && !f.isExternal && !f.isThunk && Named(f.name, "FUN_") && m(f).None?
  }

  /** A top-up fetches the bodies that are lacking and needed, each by its function's address, and touches nothing else. */
  lemma ToppedUpExactly(cached: seq<Fn>, m: FnMatch, body: Bodies, i: nat)
    requires i < |cached|
    ensures var f, r := cached[i], Map(cached, ToppedUp(body, NeedsBody(m)))[i];
      r == Fn(f.name, f.namespace, f.address, if LacksNeededBody(f, m) then Some(body(f.address)) else f.decompiled,
              f.isThunk, f.isExternal, f.platform, f.ifdef, f.anchor)
  {
    NamedIs(cached[i]);
  }

  /** No body is fetched in vain: each stands in the merged list, with its function. */
  lemma NoBodyInVain(x: Extracted, secondary: Extracted, cached: seq<Fn>, m: FnMatch, body: Bodies, platform: string, ifdef: string, i: nat)
    requires BlindToBodies(m) && i < |cached| && LacksNeededBody(cached[i], m)
    requires secondary.functions == Map(cached, ToppedUp(body, NeedsBody(m)))
    ensures var r := Merged(x, secondary, m, platform, ifdef).functions;
      exists j :: |x.functions| <= j < |r| && r[j].name == cached[i].name && r[j].address == cached[i].address
        && r[j].decompiled == Some(body(cached[i].address))
  {
    hide Merged, ToppedUp, NeedsBody;
    ToppedUpExactly(cached, m, body, i);
    var f := secondary.functions[i];
    assert f == cached[i].(decompiled := Some(body(cached[i].address)));
    assert m(f) == m(cached[i]);
    var at := AppendedFunctions(x, secondary, m, platform, ifdef);
    assert i in at;
    var k :| 0 <= k < |at| && at[k] == i;
    assert ComesInAs(f, Merged(x, secondary, m, platform, ifdef).functions[|x.functions| + k], platform, ifdef);
  }

  // ---------------------------------------------------------------------------
  // A match by any other name
  // ---------------------------------------------------------------------------

  ghost predicate SameMatch(m: FnMatch, m': FnMatch) { forall f :: m(f) == m'(f) }

  lemma {:induction false} SameLast(named: seq<Fn>, m: FnMatch, m': FnMatch, i: nat)
    requires SameMatch(m, m')
    ensures LastMatched(named, m, i) == LastMatched(named, m', i)
    decreases |named|
  {
    if named != [] { SameLast(named[..|named| - 1], m, m', i); }
  }

  lemma SameMerge(x: Extracted, secondary: Extracted, m: FnMatch, m': FnMatch, platform: string, ifdef: string)
    requires SameMatch(m, m')
    ensures Merged(x, secondary, m, platform, ifdef) == Merged(x, secondary, m', platform, ifdef)
  {
    hide LastMatched;
    var named := Filter(secondary.functions, IsNamed);
    forall i: nat ensures LastMatched(named, m, i) == LastMatched(named, m', i) { SameLast(named, m, m', i); }
    assert Anchored(x.functions, named, m, platform) == Anchored(x.functions, named, m', platform);
    SameFilter(named, (f: Fn) => m(f).None?, (f: Fn) => m'(f).None?);
  }

  // ---------------------------------------------------------------------------
  // The top-up, in place
  // ---------------------------------------------------------------------------

  function MissingPlaces(fns: seq<Fn>, needs: Needs): (r: seq<nat>)
    ensures forall i: nat :: i in r <==> i < |fns| && Missing(fns[i], needs)
    ensures forall i, j :: 0 <= i < j < |r| ==> r[i] < r[j]
    ensures forall i :: 0 <= i < |r| ==> r[i] < |fns|
  {
    if fns == [] then [] else
      var n := |fns| - 1;
      MissingPlaces(fns[..n], needs) + if Missing(fns[n], needs) then [n] else []
  }

  /** The places before `n` in the list are filled, the rest untouched. */
  ghost predicate FilledUpTo(now: seq<Fn>, was: seq<Fn>, places: seq<nat>, n: nat, body: Bodies)
    requires n <= |places|
  {
    && |now| == |was|
    && (forall i :: i in places ==> i < |was|)
    && forall i :: 0 <= i < |was| ==> now[i] == if i in places[..n] then Fetched(was[i], body) else was[i]
  }

  /** `decompileBodies`, a batch of addresses a request; each answer covers what was asked. */
  method DecompileBodies(functions: array<Fn>, places: seq<nat>, body: Bodies, batchSize: nat) returns (filled: nat)
    requires batchSize > 0
    requires forall i :: i in places ==> i < functions.Length
    requires forall i, j :: 0 <= i < j < |places| ==> places[i] < places[j]
    modifies functions
    ensures FilledUpTo(functions[..], old(functions[..]), places, |places|, body) && filled == |places|
  {
    hide FilledUpTo, Answer;
    filled := 0;
    ghost var was := functions[..];
    NoneFilled(was, places, body);
    while filled < |places|
      invariant filled <= |places| && FilledUpTo(functions[..], was, places, filled, body)
    {
      var end := if filled + batchSize <= |places| then filled + batchSize else |places|;
      PlacesAreInside(places, functions.Length);
      var byAddress := Answer(functions[..], places, filled, end, body);
      AnswerCovers(functions[..], was, places, filled, filled, end, body);
      filled := FillBatch(functions, was, places, filled, end, byAddress, body);
    }
  }

  method FillBatch(functions: array<Fn>, ghost was: seq<Fn>, places: seq<nat>, start: nat, end: nat,
                   byAddress: map<string, string>, ghost body: Bodies) returns (filled: nat)
    requires start <= end <= |places| && FilledUpTo(functions[..], was, places, start, body)
    requires forall i, j :: 0 <= i < j < |places| ==> places[i] < places[j]
    requires forall k :: start <= k < end ==> places[k] < |was| && was[places[k]].address in byAddress
    requires forall a :: a in byAddress ==> byAddress[a] == body(a)
    modifies functions
    ensures filled == end && FilledUpTo(functions[..], was, places, end, body)
  {
    hide FilledUpTo;
    filled := start;
    for k := start to end
      invariant filled == k && FilledUpTo(functions[..], was, places, k, body)
    {
      var i := places[k];
      ghost var now := functions[..];
      FillOne(now, was, places, k, body);
      var address := functions[i].address;
      assert functions[i] == now[i] == was[i];
      if address in byAddress {
        functions[i] := functions[i].(decompiled := Some(byAddress[address]));
        assert functions[..] == now[i := Fetched(now[i], body)];
        filled := filled + 1;
      }
    }
  }

  lemma SameAddresses(now: seq<Fn>, was: seq<Fn>, places: seq<nat>, n: nat, body: Bodies)
    requires n <= |places| && FilledUpTo(now, was, places, n, body)
    ensures |now| == |was| && forall i :: 0 <= i < |was| ==> now[i].address == was[i].address
  {
  }

  /** What a batch request answers, by address. */
  function Answer(fns: seq<Fn>, places: seq<nat>, start: nat, end: nat, body: Bodies): (r: map<string, string>)
    requires start <= end <= |places| && forall k :: start <= k < end ==> places[k] < |fns|
    ensures forall k :: start <= k < end ==> fns[places[k]].address in r
    ensures forall a :: a in r ==> r[a] == body(a)
  {
    map k | start <= k < end :: fns[places[k]].address := body(fns[places[k]].address)
  }

  lemma PlacesAreInside(places: seq<nat>, n: nat)
    requires forall i :: i in places ==> i < n
    ensures forall k :: 0 <= k < |places| ==> places[k] < n
  {
    forall k | 0 <= k < |places| ensures places[k] < n { assert places[k] in places; }
  }

  lemma AnswerCovers(now: seq<Fn>, was: seq<Fn>, places: seq<nat>, n: nat, start: nat, end: nat, body: Bodies)
    requires n <= |places| && FilledUpTo(now, was, places, n, body) && start <= end <= |places|
    requires forall k :: start <= k < end ==> places[k] < |now|
    ensures forall k :: start <= k < end ==> places[k] < |was| && was[places[k]].address in Answer(now, places, start, end, body)
  {
    hide Answer;
    SameAddresses(now, was, places, n, body);
  }

  lemma NoneFilled(was: seq<Fn>, places: seq<nat>, body: Bodies)
    requires forall i :: i in places ==> i < |was|
    ensures FilledUpTo(was, was, places, 0, body)
  {
  }

  lemma FillOne(now: seq<Fn>, was: seq<Fn>, places: seq<nat>, n: nat, body: Bodies)
    requires n < |places| && FilledUpTo(now, was, places, n, body)
    requires forall i, j :: 0 <= i < j < |places| ==> places[i] < places[j]
    ensures |now| == |was| && places[n] < |now| && now[places[n]] == was[places[n]]
    ensures FilledUpTo(now[places[n] := Fetched(now[places[n]], body)], was, places, n + 1, body)
  {
    var p := places[n];
    assert p in places && p !in places[..n];
    assert places[..n + 1] == places[..n] + [p];
  }

  /** The cache-hit path of `obtainSecondaryExtraction`. */
  method TopUp(cached: array<Fn>, needs: Needs, body: Bodies, batchSize: nat) returns (fetched: nat)
    requires batchSize > 0
    modifies cached
    ensures cached[..] == Map(old(cached[..]), ToppedUp(body, needs))
    ensures fetched == |MissingPlaces(old(cached[..]), needs)|
  {
    var missing := MissingPlaces(cached[..], needs);
    if |missing| == 0 { return 0; }
    fetched := DecompileBodies(cached, missing, body, batchSize);
    assert missing[..|missing|] == missing;
  }

  /**
   * One additional source, end to end: with the matcher built from the primary as it is, from
   * a cache topped up in place, or a fresh extraction with or without the filter, the primary
   * comes out as from a full extraction.
   */
  method MergeAdditionalSource(target: Extraction, listing: Extracted, cached: array?<Fn>, decompileAll: bool, links: seq<Link>,
                               bare: string -> string, body: Bodies, batchSize: nat, platform: string, ifdef: string)
    requires batchSize > 0
    requires cached != null ==> CacheOf(cached[..], listing.functions, body)
    modifies target, if cached == null then {} else {cached}
    ensures target.Value() ==
      Merged(old(target.Value()), listing.(functions := Map(listing.functions, Extracts(body, Everything()))),
             Matching(old(target.functions), links, bare), platform, ifdef)
  {
    hide Merged, Extracts, ToppedUp, CacheOf, Matching, NeedsBody, BlindToBodies;
    ghost var x, full := target.Value(), listing.(functions := Map(listing.functions, Extracts(body, Everything())));
    var matcher := BuildPrimaryMatcher(target.functions, links, bare);
    var m := (f: Fn) => Match(matcher, bare, f);
    MatcherIsMatching(matcher, target.functions, links, bare);
    SameMerge(x, full, m, Matching(target.functions, links, bare), platform, ifdef);
    var functions: seq<Fn>;
    if cached != null {
      TopUpChangesNothing(x, listing, cached[..], body, m, platform, ifdef);
      var _ := TopUp(cached, NeedsBody(m), body, batchSize);
      functions := cached[..];
    } else {
      SkippingChangesNothing(x, listing, body, m, platform, ifdef);
      functions := Map(listing.functions, Extracts(body, if decompileAll then Everything() else NeedsBody(m)));
    }
    target.Merge(listing.(functions := functions), m, platform, ifdef);
  }

  lemma MatcherIsMatching(matcher: Matcher, primary: seq<Fn>, links: seq<Link>, bare: string -> string)
    requires forall f :: Match(matcher, bare, f) == MatchOf(primary, links, bare, f)
    ensures var m := (f: Fn) => Match(matcher, bare, f);
      SameMatch(m, Matching(primary, links, bare)) && Into(m, |primary|) && BlindToBodies(m)
  {
    hide Match, MatchOf;
    var m := (f: Fn) => Match(matcher, bare, f);
    MatchIsBlind(primary, links, bare);
    MatchingIsInto(primary, links, bare);
    forall f ensures m(f) == Matching(primary, links, bare)(f) { }
    forall f: Fn, d: Option<string> ensures m(f) == m(f.(decompiled := d)) {
      assert Matching(primary, links, bare)(f) == Matching(primary, links, bare)(f.(decompiled := d));
    }
  }
}
