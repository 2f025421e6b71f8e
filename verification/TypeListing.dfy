/**
 * Putting the type list in Ghidra's listing order (packages/live/src/model.ts:
 * adoptGhidraNames, reorderDataTypes, typeOrderDrift). Records are paired with listing
 * entries on evidence, then sorted stably by their place in the listing.
 */
module TypeListing {
  import opened Prelude
  import opened Sorting
  import opened Containment
  import Spellings

  datatype Entry = Entry(name: string, category: Option<string>, kind: Option<string>)

  type Key = (string, string)

  function OrEmpty(s: Option<string>): string { if s.Some? then s.value else "" }

  function GhidraName(dt: ExtractedType): string { if dt.sourceName.Some? then dt.sourceName.value else dt.name }

  function EntryKey(t: Entry): Key { (t.name, OrEmpty(t.category)) }

  /** The key a record is held under. */
  function HeldKey(dt: ExtractedType): Key { (GhidraName(dt), OrEmpty(dt.category)) }

  predicate SameKind(a: Option<string>, b: Option<string>) {
    a == b || a == Some("BUILT_IN") || b == Some("BUILT_IN")
  }

  // ---------------------------------------------------------------------------
  // Two names of one type
  // ---------------------------------------------------------------------------

  /** Where the pointer stars and array extents at the end of a name begin, with the space before them. */
  function Decorations(s: string): (n: nat)
    ensures n <= |s|
    decreases |s|
  {
    if s == [] then 0
    else if s[|s| - 1] == '*' then Decorations(Spellings.TrimEnd(s[..|s| - 1]))
    else if s[|s| - 1] == ']' then
      var d := Spellings.Digits(s[..|s| - 1]);
      if d + 2 <= |s| && s[|s| - d - 2] == '[' then Decorations(Spellings.TrimEnd(s[..|s| - d - 2])) else |s|
    else |s|
  }

  predicate IsLineEnd(c: char) { c in "\n\r\U{2028}\U{2029}" }

  /** `splitTypeSuffix`: how long the base name is. A base name of several lines does not match, and all is base. */
  function BaseLength(name: string): (n: nat)
    ensures n <= |name|
  {
    var n := Decorations(name);
    if exists c :: c in name[..n] && IsLineEnd(c) then |name| else n
  }

  function Suffix(name: string): string { name[BaseLength(name)..] }

  function Base(name: string): string { name[..BaseLength(name)] }

  function WithoutSpace(s: string): string {
    if s == [] then [] else (if Spellings.IsSpace(s[0]) then [] else [s[0]]) + WithoutSpace(s[1..])
  }

  function FlatChar(c: char): char {
    if 'A' <= c <= 'Z' then c - 'A' + 'a' else if Spellings.IsWord(c) then c else '_'
  }

  /** Whatever cannot stand in an identifier is an underscore, and case does not matter. */
  function Flat(s: string): string { seq(|s|, i requires 0 <= i < |s| => FlatChar(s[i])) }

  predicate EndsWith(s: string, end: string) { |end| <= |s| && s[|s| - |end|..] == end }

  /** Does a record's name look like a listed one, renamed? The same suffix, and another base that ends with the listed base. */
  predicate Alike(name: string, listed: string) {
    && WithoutSpace(Suffix(name)) == WithoutSpace(Suffix(listed))
    && Base(name) != Base(listed) && EndsWith(Flat(Base(name)), Flat(Base(listed)))
  }

  // ---------------------------------------------------------------------------
  // Pairing
  // ---------------------------------------------------------------------------

  predicate Fits(dt: ExtractedType, t: Entry) {
    OrEmpty(t.category) == OrEmpty(dt.category) && SameKind(dt.kind, t.kind) && Alike(dt.name, t.name)
  }

  /** Entries no record holds. */
  function Orphans(types: seq<ExtractedType>, listing: seq<Entry>): seq<Entry> {
    Filter(listing, (t: Entry) => !Held(types, EntryKey(t)))
  }

  predicate Held(types: seq<ExtractedType>, key: Key) { exists dt :: dt in types && HeldKey(dt) == key }

  /** Not renamed yet, and under its own name missing from the listing. */
  predicate Unlisted(dt: ExtractedType, listing: seq<Entry>) {
    OrEmpty(dt.sourceName) == "" && forall t :: t in listing ==> EntryKey(t) != (dt.name, OrEmpty(dt.category))
  }

  function Rivals(types: seq<ExtractedType>, listing: seq<Entry>, t: Entry): seq<ExtractedType> {
    Filter(types, (dt: ExtractedType) => Unlisted(dt, listing) && Fits(dt, t))
  }

  function Candidates(types: seq<ExtractedType>, listing: seq<Entry>, dt: ExtractedType): seq<Entry> {
    Filter(Orphans(types, listing), (t: Entry) => Fits(dt, t))
  }

  /** The only candidate either way. */
  predicate Paired(types: seq<ExtractedType>, listing: seq<Entry>, dt: ExtractedType) {
    && Unlisted(dt, listing)
    && |Candidates(types, listing, dt)| == 1
    && |Rivals(types, listing, Candidates(types, listing, dt)[0])| == 1
  }

  function Adopt(types: seq<ExtractedType>, listing: seq<Entry>, dt: ExtractedType): ExtractedType {
    if Paired(types, listing, dt) then dt.(sourceName := Some(Candidates(types, listing, dt)[0].name)) else dt
  }

  function Adopted(types: seq<ExtractedType>, listing: seq<Entry>): (r: seq<ExtractedType>)
    ensures |r| == |types|
  {
    seq(|types|, i requires 0 <= i < |types| => Adopt(types, listing, types[i]))
  }

  function PairCount(types: seq<ExtractedType>, listing: seq<Entry>, n: nat): nat
    requires n <= |types|
  {
    if n == 0 then 0 else PairCount(types, listing, n - 1) + if Paired(types, listing, types[n - 1]) then 1 else 0
  }

  /** `adoptGhidraNames`, in place. */
  method AdoptGhidraNames(dataTypes: array<ExtractedType>, listing: seq<Entry>) returns (paired: nat)
    modifies dataTypes
    ensures dataTypes[..] == Adopted(old(dataTypes[..]), listing)
    ensures paired == PairCount(old(dataTypes[..]), listing, dataTypes.Length)
  {
    hide Orphans, Candidates, Rivals, Unlisted;
    var types := dataTypes[..];
    paired := 0;
    for i := 0 to dataTypes.Length
      invariant dataTypes[..i] == Adopted(types, listing)[..i]
      invariant dataTypes[i..] == types[i..]
      invariant paired == PairCount(types, listing, i)
    {
      assert dataTypes[i] == dataTypes[i..][0] == types[i];
      ghost var after := dataTypes[i + 1..];
      var dt := dataTypes[i];
      if Unlisted(dt, listing) {
        var candidates := Candidates(types, listing, dt);
        if |candidates| == 1 && |Rivals(types, listing, candidates[0])| == 1 {
          dataTypes[i] := dt.(sourceName := Some(candidates[0].name));
          paired := paired + 1;
        }
      }
      assert dataTypes[i] == Adopt(types, listing, dt);
      assert dataTypes[..i + 1] == dataTypes[..i] + [dataTypes[i]];
      assert dataTypes[i + 1..] == after;
    }
    assert dataTypes[..dataTypes.Length] == dataTypes[..];
  }

  // ---------------------------------------------------------------------------
  // Pairing is a matching
  // ---------------------------------------------------------------------------

  function PairOf(types: seq<ExtractedType>, listing: seq<Entry>, dt: ExtractedType): Entry
    requires Paired(types, listing, dt)
  {
    Candidates(types, listing, dt)[0]
  }

  lemma {:induction false} TwoThatFit<T(!new)>(s: seq<T>, p: T -> bool, i: nat, j: nat)
    requires i < j < |s| && p(s[i]) && p(s[j])
    ensures |Filter(s, p)| >= 2
    decreases |s|
  {
    if i == 0 {
      assert s[1..][j - 1] == s[j] && s[j] in s[1..];
      HeadIsMember(Filter(s[1..], p));
    } else {
      TwoThatFit(s[1..], p, i - 1, j - 1);
    }
  }

  /** What a pair is: an entry nobody held, that fits this record and no other. */
  lemma PairFacts(types: seq<ExtractedType>, listing: seq<Entry>, dt: ExtractedType)
    requires Paired(types, listing, dt)
    ensures var t := PairOf(types, listing, dt);
      && t in listing && !Held(types, EntryKey(t)) && Fits(dt, t)
      && forall i, j :: 0 <= i < j < |types| && Unlisted(types[i], listing) && Unlisted(types[j], listing) ==>
           !(Fits(types[i], t) && Fits(types[j], t))
  {
    var t := PairOf(types, listing, dt);
    HeadIsMember(Candidates(types, listing, dt));
    forall i, j | 0 <= i < j < |types| && Unlisted(types[i], listing) && Unlisted(types[j], listing)
      ensures !(Fits(types[i], t) && Fits(types[j], t))
    {
      if Fits(types[i], t) && Fits(types[j], t) {
        TwoThatFit(types, (x: ExtractedType) => Unlisted(x, listing) && Fits(x, t), i, j);
      }
    }
  }

  /** Injective: no two records get the same entry. */
  lemma PairingIsInjective(types: seq<ExtractedType>, listing: seq<Entry>, i: nat, j: nat)
    requires i < j < |types| && Paired(types, listing, types[i]) && Paired(types, listing, types[j])
    ensures PairOf(types, listing, types[i]) != PairOf(types, listing, types[j])
  {
    PairFacts(types, listing, types[i]);
    PairFacts(types, listing, types[j]);
  }

  /** Record order does not matter: a record is paired, or not, by the records there are. */
  lemma PairingIgnoresOrder(a: seq<ExtractedType>, b: seq<ExtractedType>, listing: seq<Entry>, dt: ExtractedType)
    requires multiset(a) == multiset(b)
    ensures Paired(a, listing, dt) <==> Paired(b, listing, dt)
    ensures Adopt(a, listing, dt) == Adopt(b, listing, dt)
  {
    SameMembers(a, b);
    forall key ensures Held(a, key) <==> Held(b, key) {
      if dt :| dt in a && HeldKey(dt) == key { assert dt in b; }
      if dt :| dt in b && HeldKey(dt) == key { assert dt in a; }
    }
    SameFilter(listing, (t: Entry) => !Held(a, EntryKey(t)), (t: Entry) => !Held(b, EntryKey(t)));
    var candidates := Candidates(a, listing, dt);
    if |candidates| == 1 {
      FilterSize(a, b, (x: ExtractedType) => Unlisted(x, listing) && Fits(x, candidates[0]));
    }
  }

  // ---------------------------------------------------------------------------
  // A second call
  // ---------------------------------------------------------------------------

  ghost predicate Named(listing: seq<Entry>) { forall t :: t in listing ==> t.name != "" }

  /** A pair was made with an entry of this key. */
  ghost predicate GivenAway(types: seq<ExtractedType>, listing: seq<Entry>, key: Key) {
    exists i :: 0 <= i < |types| && Paired(types, listing, types[i]) && EntryKey(PairOf(types, listing, types[i])) == key
  }

  /** A record's candidates whose key was not given away. */
  ghost function CandidatesLeft(types: seq<ExtractedType>, listing: seq<Entry>, dt: ExtractedType): seq<Entry> {
    Filter(Candidates(types, listing, dt), NotGiven(types, listing))
  }

  ghost function NotGiven(types: seq<ExtractedType>, listing: seq<Entry>): Entry -> bool {
    (t: Entry) => !GivenAway(types, listing, EntryKey(t))
  }

  /** The records still looking that fit an entry. */
  function RivalsLeft(types: seq<ExtractedType>, listing: seq<Entry>, t: Entry): seq<ExtractedType> {
    Filter(types, StillFits(types, listing, t))
  }

  function StillFits(types: seq<ExtractedType>, listing: seq<Entry>, t: Entry): ExtractedType -> bool {
    (dt: ExtractedType) => Unlisted(dt, listing) && !Paired(types, listing, dt) && Fits(dt, t)
  }

  lemma UnlistedAfter(types: seq<ExtractedType>, listing: seq<Entry>, dt: ExtractedType)
    requires Named(listing)
    ensures Unlisted(Adopt(types, listing, dt), listing) <==> Unlisted(dt, listing) && !Paired(types, listing, dt)
  {
    hide Fits, Held, EntryKey, Rivals;
    if Paired(types, listing, dt) { PairFacts(types, listing, dt); }
  }

  /** Which listed keys the records hold once some are paired: those they held, and those given away. */
  lemma HeldAfter(types: seq<ExtractedType>, listing: seq<Entry>, t: Entry)
    requires Named(listing) && t in listing
    ensures Held(Adopted(types, listing), EntryKey(t)) <==> Held(types, EntryKey(t)) || GivenAway(types, listing, EntryKey(t))
  {
    hide Alike, Orphans, Rivals;
    var after, key := Adopted(types, listing), EntryKey(t);
    if dt :| dt in after && HeldKey(dt) == key {
      var i :| 0 <= i < |after| && after[i] == dt;
      assert types[i] in types;
      if Paired(types, listing, types[i]) { PairFacts(types, listing, types[i]); }
    }
    if dt :| dt in types && HeldKey(dt) == key {
      var i :| 0 <= i < |types| && types[i] == dt;
      ListedIsUnpaired(types, listing, dt, t);
      assert after[i] == dt && after[i] in after;
    }
    if i :| 0 <= i < |types| && Paired(types, listing, types[i]) && EntryKey(PairOf(types, listing, types[i])) == key {
      PairFacts(types, listing, types[i]);
      assert HeldKey(after[i]) == key && after[i] in after;
    }
  }

  /** A record held under a listed name is not paired. */
  lemma ListedIsUnpaired(types: seq<ExtractedType>, listing: seq<Entry>, dt: ExtractedType, t: Entry)
    requires Named(listing) && t in listing && HeldKey(dt) == EntryKey(t)
    ensures !Paired(types, listing, dt)
  {
  }

  lemma {:induction false} FilterSplit(s: seq<Entry>, p: Entry -> bool, q: Entry -> bool, keep: Entry -> bool, g: Entry -> bool)
    requires forall t :: t in s ==> (p(t) <==> q(t) && g(t))
    ensures Filter(Filter(s, p), keep) == Filter(Filter(Filter(s, q), keep), g)
    decreases |s|
  {
    if s != [] {
      assert s[0] in s && forall t :: t in s[1..] ==> t in s;
      FilterSplit(s[1..], p, q, keep, g);
      assert ([s[0]] + Filter(s[1..], p))[1..] == Filter(s[1..], p) && ([s[0]] + Filter(s[1..], q))[1..] == Filter(s[1..], q);
      var kept := Filter(Filter(s[1..], q), keep);
      assert ([s[0]] + kept)[1..] == kept;
    }
  }

  /** The candidates a second call finds. */
  lemma CandidatesAfter(types: seq<ExtractedType>, listing: seq<Entry>, dt: ExtractedType)
    requires Named(listing)
    ensures Candidates(Adopted(types, listing), listing, dt) == CandidatesLeft(types, listing, dt)
  {
    hide Adopted, Held, GivenAway, Fits;
    var after := Adopted(types, listing);
    forall t | t in listing ensures !Held(after, EntryKey(t)) <==> !Held(types, EntryKey(t)) && !GivenAway(types, listing, EntryKey(t)) {
      HeldAfter(types, listing, t);
    }
    FilterSplit(listing, (t: Entry) => !Held(after, EntryKey(t)), (t: Entry) => !Held(types, EntryKey(t)),
                (t: Entry) => Fits(dt, t), NotGiven(types, listing));
  }

  lemma {:induction false} SameCount(a: seq<ExtractedType>, b: seq<ExtractedType>, p: ExtractedType -> bool, q: ExtractedType -> bool)
    requires |a| == |b| && forall k :: 0 <= k < |a| ==> (p(a[k]) <==> q(b[k]))
    ensures |Filter(a, p)| == |Filter(b, q)|
    decreases |a|
  {
    if a != [] {
      assert forall k :: 0 <= k < |a[1..]| ==> a[1..][k] == a[k + 1] && b[1..][k] == b[k + 1];
      SameCount(a[1..], b[1..], p, q);
    }
  }

  /** ... and how many rivals. */
  lemma RivalsAfter(types: seq<ExtractedType>, listing: seq<Entry>, t: Entry)
    requires Named(listing)
    ensures |Rivals(Adopted(types, listing), listing, t)| == |RivalsLeft(types, listing, t)|
  {
    hide Paired, Unlisted, Alike;
    var after := Adopted(types, listing);
    var fits := (dt: ExtractedType) => Unlisted(dt, listing) && Fits(dt, t);
    forall k | 0 <= k < |types| ensures fits(after[k]) <==> StillFits(types, listing, t)(types[k]) {
      UnlistedAfter(types, listing, types[k]);
    }
    SameCount(after, types, fits, StillFits(types, listing, t));
  }

  /**
   * The first call was looking for the record and left it, of its candidates all but one have
   * a key that was given away to others, and that one fits no other record that was left.
   */
  ghost predicate PairsAgain(types: seq<ExtractedType>, listing: seq<Entry>, dt: ExtractedType) {
    && Unlisted(dt, listing) && !Paired(types, listing, dt)
    && |CandidatesLeft(types, listing, dt)| == 1
    && |RivalsLeft(types, listing, CandidatesLeft(types, listing, dt)[0])| == 1
  }

  /** Those are exactly the records a second call pairs. */
  lemma SecondCallExactly(types: seq<ExtractedType>, listing: seq<Entry>, i: nat)
    requires Named(listing) && i < |types|
    ensures var after := Adopted(types, listing);
      Paired(after, listing, after[i]) <==> PairsAgain(types, listing, types[i])
  {
    hide Candidates, CandidatesLeft, Rivals, RivalsLeft, Unlisted;
    UnlistedAfter(types, listing, types[i]);
    if !Paired(types, listing, types[i]) {
      CandidatesAfter(types, listing, types[i]);
      if |CandidatesLeft(types, listing, types[i])| == 1 { RivalsAfter(types, listing, CandidatesLeft(types, listing, types[i])[0]); }
    }
  }

  /** As Ghidra lists types: every entry named, no two under one name in one category. */
  ghost predicate ProperListing(listing: seq<Entry>) {
    && Named(listing)
    && (forall i, j :: 0 <= i < j < |listing| ==> EntryKey(listing[i]) != EntryKey(listing[j]))
  }

  lemma SameEntry(listing: seq<Entry>, a: Entry, b: Entry)
    requires ProperListing(listing) && a in listing && b in listing && EntryKey(a) == EntryKey(b)
    ensures a == b
  {
    var i :| 0 <= i < |listing| && listing[i] == a;
    var j :| 0 <= j < |listing| && listing[j] == b;
    assert i == j;
  }

  /** With one entry to a key, none that fits a record left over was given away: it would have had two rivals. */
  lemma NotTaken(types: seq<ExtractedType>, listing: seq<Entry>, i: nat, t: Entry)
    requires ProperListing(listing) && i < |types| && Unlisted(types[i], listing) && !Paired(types, listing, types[i])
    requires t in listing && Fits(types[i], t)
    ensures !GivenAway(types, listing, EntryKey(t))
  {
    hide Fits, EntryKey, Unlisted, Candidates, Rivals;
    forall j | 0 <= j < |types| && Paired(types, listing, types[j]) ensures EntryKey(PairOf(types, listing, types[j])) != EntryKey(t) {
      PairFacts(types, listing, types[j]);
      if EntryKey(PairOf(types, listing, types[j])) == EntryKey(t) { SameEntry(listing, t, PairOf(types, listing, types[j])); }
    }
  }

  lemma OnlyCandidate(types: seq<ExtractedType>, listing: seq<Entry>, dt: ExtractedType, t: Entry)
    requires Paired(types, listing, dt) && t in Orphans(types, listing)
    ensures Fits(dt, t) ==> t == PairOf(types, listing, dt)
  {
    hide Fits, Orphans, Rivals, Unlisted;
    assert Fits(dt, t) ==> t in Candidates(types, listing, dt);
  }

  lemma {:induction false} FilterKeepsAll(s: seq<Entry>, p: Entry -> bool)
    requires forall t :: t in s ==> p(t)
    ensures Filter(s, p) == s
    decreases |s|
  {
    if s != [] {
      assert s == [s[0]] + s[1..];
      FilterKeepsAll(s[1..], p);
    }
  }

  /** With one entry to a key, no record is left that a second call would pair. */
  lemma NoneLeft(types: seq<ExtractedType>, listing: seq<Entry>)
    requires ProperListing(listing)
    ensures forall dt :: dt in types ==> !PairsAgain(types, listing, dt)
  {
    hide Unlisted, CandidatesLeft, RivalsLeft, Paired;
    forall dt | dt in types ensures !PairsAgain(types, listing, dt) {
      var i :| 0 <= i < |types| && types[i] == dt;
      if Unlisted(dt, listing) && !Paired(types, listing, dt) { LeftUnpaired(types, listing, i); }
    }
  }

  lemma SecondCallPairsNone(types: seq<ExtractedType>, listing: seq<Entry>)
    requires ProperListing(listing)
    ensures var after := Adopted(types, listing);
      && (forall dt :: dt in after ==> !Paired(after, listing, dt))
      && Adopted(after, listing) == after
  {
    hide PairsAgain, Paired;
    var after := Adopted(types, listing);
    NoneLeft(types, listing);
    forall i | 0 <= i < |after| ensures !Paired(after, listing, after[i]) { SecondCallExactly(types, listing, i); }
  }

  lemma LeftUnpaired(types: seq<ExtractedType>, listing: seq<Entry>, i: nat)
    requires ProperListing(listing) && i < |types| && Unlisted(types[i], listing) && !Paired(types, listing, types[i])
    ensures var left := CandidatesLeft(types, listing, types[i]); |left| == 1 ==> |RivalsLeft(types, listing, left[0])| != 1
  {
    hide Unlisted, Fits, GivenAway;
    var candidates := Candidates(types, listing, types[i]);
    forall t | t in candidates ensures NotGiven(types, listing)(t) { NotTaken(types, listing, i, t); }
    FilterKeepsAll(candidates, NotGiven(types, listing));
    if |candidates| == 1 {
      var t := candidates[0];
      HeadIsMember(candidates);
      forall k | 0 <= k < |types| ensures StillFits(types, listing, t)(types[k]) <==> Unlisted(types[k], listing) && Fits(types[k], t) {
        if Paired(types, listing, types[k]) { PairedFitsNoOther(types, listing, i, k, t); }
      }
      SameCount(types, types, StillFits(types, listing, t), (x: ExtractedType) => Unlisted(x, listing) && Fits(x, t));
    }
  }

  lemma PairedFitsNoOther(types: seq<ExtractedType>, listing: seq<Entry>, i: nat, k: nat, t: Entry)
    requires ProperListing(listing) && i < |types| && Unlisted(types[i], listing) && !Paired(types, listing, types[i])
    requires t in Candidates(types, listing, types[i]) && k < |types| && Paired(types, listing, types[k])
    ensures !Fits(types[k], t)
  {
    hide Unlisted, Fits, GivenAway;
    OnlyCandidate(types, listing, types[k], t);
    NotTaken(types, listing, i, t);
    GivenIs(types, listing, k);
  }

  lemma GivenIs(types: seq<ExtractedType>, listing: seq<Entry>, k: nat)
    requires k < |types| && Paired(types, listing, types[k])
    ensures GivenAway(types, listing, EntryKey(PairOf(types, listing, types[k])))
  {
  }

  // ---------------------------------------------------------------------------
  // Two entries of one key
  // ---------------------------------------------------------------------------

  const PLAIN := ExtractedType("", None, None, None, [], None, None, [])
  const STRUCT_RECORD := PLAIN.(name := "aT", kind := Some("STRUCT"))
  const ENUM_RECORD := PLAIN.(name := "bU_T", kind := Some("ENUM"))
  const STRUCT_ENTRY := Entry("T", None, Some("STRUCT"))
  const ENUM_ENTRY := Entry("T", None, Some("ENUM"))
  const OTHER_ENTRY := Entry("U_T", None, Some("ENUM"))

  const SAMPLE: seq<ExtractedType> := [STRUCT_RECORD, ENUM_RECORD]
  const SAMPLE_ONCE: seq<ExtractedType> := [STRUCT_RECORD.(sourceName := Some("T")), ENUM_RECORD]
  const SAMPLE_LISTING := [STRUCT_ENTRY, ENUM_ENTRY, OTHER_ENTRY]

  /** Two entries of one name: pairing with the first frees a record to be paired next time. */
  lemma SecondCallNeedsDistinctKeys()
    ensures Adopted(SAMPLE, SAMPLE_LISTING) == SAMPLE_ONCE
    ensures Adopted(SAMPLE_ONCE, SAMPLE_LISTING) != SAMPLE_ONCE
  {
    hide Adopt;
    FirstPairs();
    SecondPairs();
    assert SAMPLE_ONCE[1].sourceName == None;
  }

  /** A name without decoration is all base. */
  lemma PlainIsBase(name: string)
    requires forall c :: c in name ==> Spellings.IsWord(c)
    ensures Base(name) == name && Suffix(name) == ""
  {
    if name != [] { assert name[|name| - 1] in name; }
  }

  lemma PlainAlike(name: string, listed: string)
    requires (forall c :: c in name ==> Spellings.IsWord(c)) && (forall c :: c in listed ==> Spellings.IsWord(c))
    ensures Alike(name, listed) <==> name != listed && EndsWith(Flat(name), Flat(listed))
  {
    hide Suffix, Base, Flat, EndsWith;
    PlainIsBase(name);
    PlainIsBase(listed);
  }

  lemma SampleAlike()
    ensures Alike("aT", "T") && !Alike("aT", "U_T") && Alike("bU_T", "T") && Alike("bU_T", "U_T")
  {
    hide Alike;
    PlainAlike("aT", "T");
    PlainAlike("aT", "U_T");
    PlainAlike("bU_T", "T");
    PlainAlike("bU_T", "U_T");
    assert Flat("aT") == "at" && Flat("T") == "t" && Flat("U_T") == "u_t" && Flat("bU_T") == "bu_t";
    assert "at"[1..] == "t" && "bu_t"[3..] == "t" && "bu_t"[1..] == "u_t";
  }

  lemma SampleUnlisted()
    ensures Unlisted(STRUCT_RECORD, SAMPLE_LISTING) && Unlisted(ENUM_RECORD, SAMPLE_LISTING)
  {
    assert "aT"[0] == 'a' && "bU_T"[0] == 'b' && "T"[0] == 'T' && "U_T"[0] == 'U';
  }

  lemma SampleFits()
    ensures forall t :: t in SAMPLE_LISTING ==> (Fits(STRUCT_RECORD, t) <==> t == STRUCT_ENTRY)
    ensures forall t :: t in SAMPLE_LISTING ==> (Fits(ENUM_RECORD, t) <==> t != STRUCT_ENTRY)
  {
    hide Alike;
    SampleAlike();
    assert "STRUCT"[0] == 'S' && "ENUM"[0] == 'E' && "BUILT_IN"[0] == 'B';
  }

  lemma SampleOrphans()
    ensures Orphans(SAMPLE, SAMPLE_LISTING) == SAMPLE_LISTING && Orphans(SAMPLE_ONCE, SAMPLE_LISTING) == [OTHER_ENTRY]
  {
    assert "aT"[0] == 'a' && "bU_T"[0] == 'b' && "T"[0] == 'T' && "U_T"[0] == 'U';
    assert SAMPLE_ONCE[0] in SAMPLE_ONCE && HeldKey(SAMPLE_ONCE[0]) == EntryKey(STRUCT_ENTRY) == EntryKey(ENUM_ENTRY);
    Expand(SAMPLE_LISTING, (e: Entry) => !Held(SAMPLE, EntryKey(e)));
    Expand(SAMPLE_LISTING, (e: Entry) => !Held(SAMPLE_ONCE, EntryKey(e)));
  }

  lemma FirstPairs()
    ensures Adopt(SAMPLE, SAMPLE_LISTING, STRUCT_RECORD) == STRUCT_RECORD.(sourceName := Some("T"))
    ensures Adopt(SAMPLE, SAMPLE_LISTING, ENUM_RECORD) == ENUM_RECORD
  {
    hide Unlisted, Fits, Orphans;
    SampleUnlisted();
    SampleFits();
    SampleOrphans();
    Expand(SAMPLE_LISTING, (e: Entry) => Fits(STRUCT_RECORD, e));
    Expand(SAMPLE_LISTING, (e: Entry) => Fits(ENUM_RECORD, e));
    assert Candidates(SAMPLE, SAMPLE_LISTING, STRUCT_RECORD) == [STRUCT_ENTRY];
    ExpandPair(SAMPLE, (x: ExtractedType) => Unlisted(x, SAMPLE_LISTING) && Fits(x, STRUCT_ENTRY));
    assert Rivals(SAMPLE, SAMPLE_LISTING, STRUCT_ENTRY) == [STRUCT_RECORD];
  }

  lemma SecondPairs()
    ensures Adopt(SAMPLE_ONCE, SAMPLE_LISTING, ENUM_RECORD) == ENUM_RECORD.(sourceName := Some("U_T"))
  {
    hide Alike;
    SampleUnlisted();
    SampleFits();
    SampleOrphans();
    assert Candidates(SAMPLE_ONCE, SAMPLE_LISTING, ENUM_RECORD) == [OTHER_ENTRY];
    ExpandPair(SAMPLE_ONCE, (x: ExtractedType) => Unlisted(x, SAMPLE_LISTING) && Fits(x, OTHER_ENTRY));
    assert Rivals(SAMPLE_ONCE, SAMPLE_LISTING, OTHER_ENTRY) == [ENUM_RECORD];
  }

  lemma ExpandPair(s: seq<ExtractedType>, p: ExtractedType -> bool)
    requires |s| == 2
    ensures Filter(s, p) == (if p(s[0]) then [s[0]] else []) + (if p(s[1]) then [s[1]] else [])
  {
    assert s[1..] == [s[1]] && Filter([s[1]], p) == if p(s[1]) then [s[1]] else [];
  }

  lemma Expand(s: seq<Entry>, p: Entry -> bool)
    requires |s| == 3
    ensures Filter(s, p) == (if p(s[0]) then [s[0]] else []) + (if p(s[1]) then [s[1]] else []) + (if p(s[2]) then [s[2]] else [])
  {
    assert s[1..][1..] == [s[2]] && s[1..][0] == s[1] && Filter([s[2]], p) == if p(s[2]) then [s[2]] else [];
  }

  // ---------------------------------------------------------------------------
  // The order of the listing
  // ---------------------------------------------------------------------------

  /** The first place of a key, or past the end for a key the listing does not have. */
  function Place(listing: seq<Entry>, key: Key): (n: nat)
    ensures n <= |listing| && (n < |listing| ==> EntryKey(listing[n]) == key)
    ensures forall k :: 0 <= k < n ==> EntryKey(listing[k]) != key
  {
    if listing == [] || EntryKey(listing[0]) == key then 0 else 1 + Place(listing[1..], key)
  }

  function Rank(listing: seq<Entry>, dt: ExtractedType): nat { Place(listing, HeldKey(dt)) }

  function ByRank(listing: seq<Entry>): (ExtractedType, ExtractedType) -> bool {
    (a, b) => Rank(listing, a) <= Rank(listing, b)
  }

  function Reordered(types: seq<ExtractedType>, listing: seq<Entry>): (r: seq<ExtractedType>)
    ensures |r| == |types|
  {
    Sort(Adopted(types, listing), ByRank(listing))
  }

  ghost predicate IsRank(rank: map<Key, nat>, listing: seq<Entry>, n: nat)
    requires n <= |listing|
  {
    forall key :: if key in rank then Place(listing, key) == rank[key] < n else Place(listing, key) >= n
  }

  /** The sort's order as the source computes it, from the rank map. */
  function ByMap(rank: map<Key, nat>, missing: nat): (ExtractedType, ExtractedType) -> bool {
    (a, b) => RankIn(rank, missing, a) <= RankIn(rank, missing, b)
  }

  function RankIn(rank: map<Key, nat>, missing: nat, dt: ExtractedType): nat {
    if HeldKey(dt) in rank then rank[HeldKey(dt)] else missing
  }

  /** `reorderDataTypes`, in place. */
  method ReorderDataTypes(dataTypes: array<ExtractedType>, listing: seq<Entry>)
    modifies dataTypes
    ensures dataTypes[..] == Reordered(old(dataTypes[..]), listing)
  {
    hide Adopted, Sort, IsRank, Rank;
    var _ := AdoptGhidraNames(dataTypes, listing);
    var rank: map<Key, nat> := map[];
    NoRanks(listing);
    for i := 0 to |listing|
      invariant IsRank(rank, listing, i)
      invariant dataTypes[..] == Adopted(old(dataTypes[..]), listing)
    {
      var k := EntryKey(listing[i]);
      OneMoreRank(rank, listing, i);
      if k !in rank { rank := rank[k := i]; }
    }
    var types := dataTypes[..];
    var ordered := Sort(types, ByMap(rank, |listing|));
    RanksAgree(rank, listing, types);
    for i := 0 to dataTypes.Length
      invariant dataTypes[..i] == ordered[..i]
    {
      dataTypes[i] := ordered[i];
    }
    assert ordered == Reordered(old(dataTypes[..]), listing);
    assert dataTypes[..] == dataTypes[..dataTypes.Length] && ordered[..|ordered|] == ordered;
  }

  lemma NoRanks(listing: seq<Entry>)
    ensures IsRank(map[], listing, 0)
  {
  }

  lemma OneMoreRank(rank: map<Key, nat>, listing: seq<Entry>, i: nat)
    requires i < |listing| && IsRank(rank, listing, i)
    ensures var k := EntryKey(listing[i]);
      IsRank(if k in rank then rank else rank[k := i], listing, i + 1)
  {
    var k := EntryKey(listing[i]);
    assert Place(listing, k) <= i;
  }

  lemma RanksAgree(rank: map<Key, nat>, listing: seq<Entry>, types: seq<ExtractedType>)
    requires IsRank(rank, listing, |listing|)
    ensures Sort(types, ByMap(rank, |listing|)) == Sort(types, ByRank(listing))
  {
    forall dt ensures RankIn(rank, |listing|, dt) == Rank(listing, dt) { assert Place(listing, HeldKey(dt)) <= |listing|; }
    SameSort(types, ByMap(rank, |listing|), ByRank(listing));
  }

  /**
   * What the reordering is: the same records, listed ones by their place in the listing,
   * and records of one place - the unlisted ones share the last - in the order they had.
   */
  lemma ReorderingIsStable(types: seq<ExtractedType>, listing: seq<Entry>, place: nat)
    ensures var r, before := Reordered(types, listing), Adopted(types, listing);
      && multiset(r) == multiset(before)
      && (forall i, j :: 0 <= i < j < |r| ==> Rank(listing, r[i]) <= Rank(listing, r[j]))
      && Filter(r, (dt: ExtractedType) => Rank(listing, dt) == place) == Filter(before, (dt: ExtractedType) => Rank(listing, dt) == place)
  {
    SortSorts(Adopted(types, listing), ByRank(listing));
    SortIsStable(Adopted(types, listing), ByRank(listing), (dt: ExtractedType) => Rank(listing, dt) == place);
  }

  predicate Open(dt: ExtractedType) { OrEmpty(dt.sourceName) == "" }

  lemma {:induction false} CountFalls(a: seq<ExtractedType>, b: seq<ExtractedType>, p: ExtractedType -> bool)
    requires |a| == |b| && forall k :: 0 <= k < |a| ==> (p(b[k]) ==> p(a[k]))
    ensures |Filter(b, p)| <= |Filter(a, p)|
    ensures (exists k :: 0 <= k < |a| && p(a[k]) && !p(b[k])) ==> |Filter(b, p)| < |Filter(a, p)|
    decreases |a|
  {
    if a != [] {
      assert forall k :: 0 <= k < |a[1..]| ==> a[1..][k] == a[k + 1] && b[1..][k] == b[k + 1];
      CountFalls(a[1..], b[1..], p);
    }
  }

  /** A pairing changes the records for good: one fewer is open. */
  lemma PairingShows(r: seq<ExtractedType>, listing: seq<Entry>, i: nat)
    requires Named(listing) && i < |r| && Paired(r, listing, r[i])
    ensures multiset(Adopted(r, listing)) != multiset(r)
  {
    hide Candidates, Rivals;
    var b := Adopted(r, listing);
    forall k | 0 <= k < |r| && Paired(r, listing, r[k]) ensures Open(r[k]) && !Open(b[k]) { PairFacts(r, listing, r[k]); }
    CountFalls(r, b, Open);
    if multiset(b) == multiset(r) { FilterSize(b, r, Open); }
  }

  /** Exactly the lists reordering leaves alone: in listing order, with no record to pair. */
  lemma ReorderingFixes(r: seq<ExtractedType>, listing: seq<Entry>)
    requires Named(listing)
    ensures Reordered(r, listing) == r <==>
      Sorted(r, ByRank(listing)) && forall i :: 0 <= i < |r| ==> !Paired(r, listing, r[i])
  {
    hide Paired, Rank;
    var b := Adopted(r, listing);
    SortSorts(b, ByRank(listing));
    if i :| 0 <= i < |r| && Paired(r, listing, r[i]) {
      PairingShows(r, listing, i);
    } else {
      assert b == r;
      if Sorted(r, ByRank(listing)) { SortedIsFixed(r, ByRank(listing)); }
    }
  }

  /** A reordered list pairs again exactly what the adopted one would, in whatever order. */
  lemma PairedInOrder(types: seq<ExtractedType>, listing: seq<Entry>)
    requires Named(listing)
    ensures var r := Reordered(types, listing);
      && Sorted(r, ByRank(listing))
      && ((exists i :: 0 <= i < |r| && Paired(r, listing, r[i])) <==> exists dt :: dt in types && PairsAgain(types, listing, dt))
  {
    hide Paired, PairsAgain, Rank;
    var after, r := Adopted(types, listing), Reordered(types, listing);
    SortSorts(after, ByRank(listing));
    SameMembers(after, r);
    forall dt ensures Paired(r, listing, dt) <==> Paired(after, listing, dt) { PairingIgnoresOrder(r, after, listing, dt); }
    forall k | 0 <= k < |types| ensures Paired(after, listing, after[k]) <==> PairsAgain(types, listing, types[k]) { SecondCallExactly(types, listing, k); }
    if i :| 0 <= i < |r| && Paired(r, listing, r[i]) {
      assert r[i] in r && r[i] in after;
      var k :| 0 <= k < |after| && after[k] == r[i];
      assert types[k] in types;
    }
    if dt :| dt in types && PairsAgain(types, listing, dt) {
      var k :| 0 <= k < |types| && types[k] == dt;
      assert after[k] in after && after[k] in r;
      var i :| 0 <= i < |r| && r[i] == after[k];
    }
  }

  /**
   * Reordering twice is reordering once, exactly when no record is one that a second call pairs.
   */
  lemma ReorderingSettlesExactly(types: seq<ExtractedType>, listing: seq<Entry>)
    requires Named(listing)
    ensures var r := Reordered(types, listing);
      Reordered(r, listing) == r <==> forall dt :: dt in types ==> !PairsAgain(types, listing, dt)
  {
    hide Paired, PairsAgain, Reordered;
    PairedInOrder(types, listing);
    ReorderingFixes(Reordered(types, listing), listing);
  }

  /** On a listing without repeated keys it settles. */
  lemma ReorderingSettles(types: seq<ExtractedType>, listing: seq<Entry>)
    requires ProperListing(listing)
    ensures var r := Reordered(types, listing); Reordered(r, listing) == r
  {
    hide PairsAgain;
    NoneLeft(types, listing);
    ReorderingSettlesExactly(types, listing);
  }

  datatype Drift = Drift(index: nat, model: (Option<string>, string), listing: (Option<string>, string))

  predicate InPlace(want: ExtractedType, have: ExtractedType) { want.name == have.name && want.category == have.category }

  ghost predicate FirstDrift(want: seq<ExtractedType>, have: seq<ExtractedType>, d: Drift)
    requires |want| == |have|
  {
    && d.index < |have| && !InPlace(want[d.index], have[d.index])
    && (forall i :: 0 <= i < d.index ==> InPlace(want[i], have[i]))
    && d.model == (have[d.index].category, have[d.index].name)
    && d.listing == (want[d.index].category, want[d.index].name)
  }

  /** `typeOrderDrift`: the first place whose record the reordering would replace. */
  method TypeOrderDrift(types: seq<ExtractedType>, listing: seq<Entry>) returns (d: Option<Drift>)
    ensures var want := Reordered(types, listing);
      match d
      case None => (forall i :: 0 <= i < |types| ==> InPlace(want[i], types[i]))
      case Some(d) => FirstDrift(want, types, d)
  {
    hide Reordered;
    var copy := new ExtractedType[|types|](i requires 0 <= i < |types| => types[i]);
    assert copy[..] == types;
    ReorderDataTypes(copy, listing);
    for i := 0 to |types|
      invariant copy[..] == Reordered(types, listing)
      invariant forall k :: 0 <= k < i ==> InPlace(copy[..][k], types[k])
    {
      var want, have := copy[i], types[i];
      assert want == copy[..][i];
      if want.name != have.name || want.category != have.category {
        return Some(Drift(i, (have.category, have.name), (want.category, want.name)));
      }
    }
    return None;
  }

  /** No two records under one name in one category. */
  ghost predicate Apart(types: seq<ExtractedType>) {
    forall i, j :: 0 <= i < j < |types| ==> !InPlace(types[i], types[j])
  }

  /** A record that pairs, and so gets a place in the listing, before that of one in front of it. */
  ghost predicate Overtakes(r: seq<ExtractedType>, listing: seq<Entry>) {
    exists i, j :: 0 <= i < j < |r| && Paired(r, listing, r[j])
      && Rank(listing, Adopt(r, listing, r[j])) < Rank(listing, Adopt(r, listing, r[i]))
  }

  /** Before it is paired a record stands behind everything listed. */
  lemma PairedWasLast(r: seq<ExtractedType>, listing: seq<Entry>, dt: ExtractedType)
    requires Named(listing) && Paired(r, listing, dt)
    ensures Rank(listing, dt) == |listing|
  {
    hide Candidates, Rivals;
    assert forall k :: 0 <= k < |listing| ==> listing[k] in listing;
  }

  /** Of a list in listing order: it stays so under pairing exactly when nothing overtakes. */
  lemma OvertakingIsDisorder(r: seq<ExtractedType>, listing: seq<Entry>)
    requires Named(listing) && Sorted(r, ByRank(listing))
    ensures Sorted(Adopted(r, listing), ByRank(listing)) <==> !Overtakes(r, listing)
  {
    hide Paired, Rank, Adopt, ByRank;
    var b, leq := Adopted(r, listing), ByRank(listing);
    forall i, j | 0 <= i < j < |r| && !Paired(r, listing, r[j]) ensures leq(b[i], b[j]) {
      assert leq(r[i], r[j]);
      OnlyPairedMove(r, listing, r[i], r[j]);
    }
    forall x, y ensures leq(x, y) <==> Rank(listing, x) <= Rank(listing, y) { ByRankIs(listing, x, y); }
    if i, j :| 0 <= i < j < |r| && !leq(b[i], b[j]) {
      assert Paired(r, listing, r[j]) && Rank(listing, b[j]) < Rank(listing, b[i]);
    }
    if i, j :| 0 <= i < j < |r| && Paired(r, listing, r[j]) && Rank(listing, Adopt(r, listing, r[j])) < Rank(listing, Adopt(r, listing, r[i])) {
      assert !leq(b[i], b[j]);
    }
  }

  lemma ByRankIs(listing: seq<Entry>, x: ExtractedType, y: ExtractedType)
    ensures ByRank(listing)(x, y) <==> Rank(listing, x) <= Rank(listing, y)
  {
  }

  /** A record that is not paired stays behind what was in front of it: pairing only brings forward. */
  lemma OnlyPairedMove(r: seq<ExtractedType>, listing: seq<Entry>, x: ExtractedType, y: ExtractedType)
    requires Named(listing) && ByRank(listing)(x, y) && !Paired(r, listing, y)
    ensures ByRank(listing)(Adopt(r, listing, x), Adopt(r, listing, y))
  {
    hide Paired, Rank;
    if Paired(r, listing, x) { PairedWasLast(r, listing, x); RankIsInside(listing, Adopt(r, listing, x)); RankIsInside(listing, y); }
  }

  lemma RankIsInside(listing: seq<Entry>, dt: ExtractedType)
    ensures Rank(listing, dt) <= |listing|
  {
  }

  /** Two orders of one list that agree on every name and category are one, if no two records share them. */
  lemma InPlaceIsSame(b: seq<ExtractedType>, s: seq<ExtractedType>)
    requires multiset(b) == multiset(s) && |b| == |s| && Apart(b) && forall i :: 0 <= i < |b| ==> InPlace(s[i], b[i])
    ensures s == b
  {
    SameMembers(b, s);
    forall i | 0 <= i < |b| ensures s[i] == b[i] {
      assert s[i] in s;
      var j :| 0 <= j < |b| && b[j] == s[i];
      OneSlot(b, i, j);
    }
  }

  lemma OneSlot(b: seq<ExtractedType>, i: nat, j: nat)
    requires Apart(b) && i < |b| && j < |b| && InPlace(b[j], b[i])
    ensures i == j
  {
  }

  /** What a reordering of a list in order moves. */
  lemma ReorderMoves(r: seq<ExtractedType>, listing: seq<Entry>)
    requires Named(listing) && Sorted(r, ByRank(listing))
    ensures var settled := forall i :: 0 <= i < |r| ==> InPlace(Reordered(r, listing)[i], r[i]);
      (!Overtakes(r, listing) ==> settled) && (Apart(r) && settled ==> !Overtakes(r, listing))
  {
    hide Adopt, Overtakes, Sorted;
    var b, s := Adopted(r, listing), Reordered(r, listing);
    OvertakingIsDisorder(r, listing);
    SortSorts(b, ByRank(listing));
    forall i | 0 <= i < |r| ensures InPlace(b[i], r[i]) && InPlace(r[i], b[i]) { AdoptStays(r, listing, r[i]); }
    if Sorted(b, ByRank(listing)) { SortedIsFixed(b, ByRank(listing)); }
    else if Apart(r) && forall i :: 0 <= i < |r| ==> InPlace(s[i], r[i]) { InPlaceIsSame(b, s); }
  }

  lemma AdoptStays(r: seq<ExtractedType>, listing: seq<Entry>, dt: ExtractedType)
    ensures Adopt(r, listing, dt).name == dt.name && Adopt(r, listing, dt).category == dt.category
  {
    hide Paired;
  }

  /** Drift right after a reordering: none when nothing overtakes, and some when something does, names telling records apart. */
  lemma DriftExactly(types: seq<ExtractedType>, listing: seq<Entry>)
    requires Named(listing)
    ensures var r := Reordered(types, listing);
      var settled := forall i :: 0 <= i < |r| ==> InPlace(Reordered(r, listing)[i], r[i]);
      (!Overtakes(r, listing) ==> settled) && (Apart(r) && settled ==> !Overtakes(r, listing))
  {
    hide Reordered, Overtakes, Apart, Sorted, Paired, PairsAgain;
    PairedInOrder(types, listing);
    ReorderMoves(Reordered(types, listing), listing);
  }

  /**
   * Drift right after a reordering: none if no record pairs again; and, names telling the
   * records apart, exactly when one that does overtakes another.
   */
  method DriftAfterReorder(dataTypes: array<ExtractedType>, listing: seq<Entry>) returns (d: Option<Drift>)
    requires Named(listing)
    modifies dataTypes
    ensures dataTypes[..] == Reordered(old(dataTypes[..]), listing)
    ensures (forall dt :: dt in old(dataTypes[..]) ==> !PairsAgain(old(dataTypes[..]), listing, dt)) ==> d == None
    ensures !Overtakes(dataTypes[..], listing) ==> d == None
    ensures Apart(dataTypes[..]) && d == None ==> !Overtakes(dataTypes[..], listing)
  {
    hide PairsAgain, Reordered, Overtakes, Apart;
    ReorderingSettlesExactly(dataTypes[..], listing);
    DriftExactly(dataTypes[..], listing);
    ReorderDataTypes(dataTypes, listing);
    d := TypeOrderDrift(dataTypes[..], listing);
  }

  // ---------------------------------------------------------------------------
  // A reordering that drifts
  // ---------------------------------------------------------------------------

  const BETWEEN := PLAIN.(name := "zz", kind := Some("STRUCT"))
  const PAIRED_STRUCT := STRUCT_RECORD.(sourceName := Some("T"))
  const PAIRED_ENUM := ENUM_RECORD.(sourceName := Some("U_T"))

  const DRIFTING: seq<ExtractedType> := [STRUCT_RECORD, BETWEEN, ENUM_RECORD]
  const DRIFTED: seq<ExtractedType> := [PAIRED_STRUCT, BETWEEN, ENUM_RECORD]
  const DRIFTED_AGAIN: seq<ExtractedType> := [PAIRED_STRUCT, PAIRED_ENUM, BETWEEN]

  lemma AdoptedTriple(types: seq<ExtractedType>, listing: seq<Entry>)
    requires |types| == 3
    ensures Adopted(types, listing) == [Adopt(types, listing, types[0]), Adopt(types, listing, types[1]), Adopt(types, listing, types[2])]
  {
    hide Adopt;
  }

  lemma ReorderedTriple(types: seq<ExtractedType>, listing: seq<Entry>, a: ExtractedType, b: ExtractedType, c: ExtractedType)
    requires |types| == 3
    requires a == Adopt(types, listing, types[0]) && b == Adopt(types, listing, types[1]) && c == Adopt(types, listing, types[2])
    requires Rank(listing, a) <= Rank(listing, b) && Rank(listing, a) <= Rank(listing, c)
    ensures Reordered(types, listing) == if Rank(listing, b) <= Rank(listing, c) then [a, b, c] else [a, c, b]
  {
    hide Adopt, Rank, Sort, Adopted;
    AdoptedTriple(types, listing);
    SortThree(a, b, c, ByRank(listing));
  }

  /** The record that pairs the second time overtakes an unlisted one: the reordered list has drifted at once. */
  lemma ReorderingDrifts()
    ensures Reordered(DRIFTING, SAMPLE_LISTING) == DRIFTED && Reordered(DRIFTED, SAMPLE_LISTING) == DRIFTED_AGAIN
    ensures !InPlace(DRIFTED_AGAIN[1], DRIFTED[1]) && Named(SAMPLE_LISTING)
  {
    hide Adopt, Rank, Reordered;
    FirstAdopts();
    SecondAdopts();
    SampleRanks();
    ReorderedTriple(DRIFTING, SAMPLE_LISTING, PAIRED_STRUCT, BETWEEN, ENUM_RECORD);
    ReorderedTriple(DRIFTED, SAMPLE_LISTING, PAIRED_STRUCT, BETWEEN, PAIRED_ENUM);
    assert "zz"[0] == 'z' && "bU_T"[0] == 'b';
  }

  lemma BetweenFits()
    ensures Unlisted(BETWEEN, SAMPLE_LISTING) && forall t :: t in SAMPLE_LISTING ==> !Fits(BETWEEN, t)
  {
    hide Alike;
    PlainAlike("zz", "T");
    assert Flat("zz") == "zz" && Flat("T") == "t";
    assert "zz"[1..] == "z" && "z"[0] == 'z' && "t"[0] == 't' && "zz"[0] == 'z' && "T"[0] == 'T' && "U_T"[0] == 'U';
    assert !Alike("zz", "T");
    assert "STRUCT"[0] == 'S' && "ENUM"[0] == 'E' && "BUILT_IN"[0] == 'B';
  }

  lemma DriftOrphans()
    ensures Orphans(DRIFTING, SAMPLE_LISTING) == SAMPLE_LISTING && Orphans(DRIFTED, SAMPLE_LISTING) == [OTHER_ENTRY]
  {
    assert "aT"[0] == 'a' && "bU_T"[0] == 'b' && "zz"[0] == 'z' && "T"[0] == 'T' && "U_T"[0] == 'U';
    assert DRIFTED[0] in DRIFTED && HeldKey(DRIFTED[0]) == EntryKey(STRUCT_ENTRY) == EntryKey(ENUM_ENTRY);
    Expand(SAMPLE_LISTING, (e: Entry) => !Held(DRIFTING, EntryKey(e)));
    Expand(SAMPLE_LISTING, (e: Entry) => !Held(DRIFTED, EntryKey(e)));
  }

  lemma FirstAdopts()
    ensures Adopt(DRIFTING, SAMPLE_LISTING, STRUCT_RECORD) == PAIRED_STRUCT
    ensures Adopt(DRIFTING, SAMPLE_LISTING, BETWEEN) == BETWEEN && Adopt(DRIFTING, SAMPLE_LISTING, ENUM_RECORD) == ENUM_RECORD
  {
    hide Unlisted, Fits, Orphans;
    SampleUnlisted();
    SampleFits();
    BetweenFits();
    DriftOrphans();
    Expand(SAMPLE_LISTING, (e: Entry) => Fits(STRUCT_RECORD, e));
    Expand(SAMPLE_LISTING, (e: Entry) => Fits(ENUM_RECORD, e));
    Expand(SAMPLE_LISTING, (e: Entry) => Fits(BETWEEN, e));
    assert Candidates(DRIFTING, SAMPLE_LISTING, STRUCT_RECORD) == [STRUCT_ENTRY];
    ExpandTriple(DRIFTING, (x: ExtractedType) => Unlisted(x, SAMPLE_LISTING) && Fits(x, STRUCT_ENTRY));
    assert Rivals(DRIFTING, SAMPLE_LISTING, STRUCT_ENTRY) == [STRUCT_RECORD];
  }

  lemma SecondAdopts()
    ensures Adopt(DRIFTED, SAMPLE_LISTING, PAIRED_STRUCT) == PAIRED_STRUCT
    ensures Adopt(DRIFTED, SAMPLE_LISTING, BETWEEN) == BETWEEN && Adopt(DRIFTED, SAMPLE_LISTING, ENUM_RECORD) == PAIRED_ENUM
  {
    hide Fits, Orphans, Alike;
    SampleUnlisted();
    SampleFits();
    BetweenFits();
    DriftOrphans();
    assert Candidates(DRIFTED, SAMPLE_LISTING, ENUM_RECORD) == [OTHER_ENTRY];
    assert Candidates(DRIFTED, SAMPLE_LISTING, BETWEEN) == [];
    assert !Unlisted(PAIRED_STRUCT, SAMPLE_LISTING);
    ExpandTriple(DRIFTED, (x: ExtractedType) => Unlisted(x, SAMPLE_LISTING) && Fits(x, OTHER_ENTRY));
    assert Rivals(DRIFTED, SAMPLE_LISTING, OTHER_ENTRY) == [ENUM_RECORD];
  }

  lemma SampleRanks()
    ensures Rank(SAMPLE_LISTING, PAIRED_STRUCT) == 0 && Rank(SAMPLE_LISTING, BETWEEN) == 3
    ensures Rank(SAMPLE_LISTING, ENUM_RECORD) == 3 && Rank(SAMPLE_LISTING, PAIRED_ENUM) == 2
  {
    hide Place;
    assert "T"[0] == 'T' && "U_T"[0] == 'U' && "zz"[0] == 'z' && "bU_T"[0] == 'b';
    assert EntryKey(SAMPLE_LISTING[0]) == ("T", "") && EntryKey(SAMPLE_LISTING[1]) == ("T", "") && EntryKey(SAMPLE_LISTING[2]) == ("U_T", "");
  }

  lemma FilterStep(s: seq<ExtractedType>, p: ExtractedType -> bool)
    requires s != []
    ensures Filter(s, p) == (if p(s[0]) then [s[0]] else []) + Filter(s[1..], p)
  {
  }

  lemma ExpandTriple(s: seq<ExtractedType>, p: ExtractedType -> bool)
    requires |s| == 3
    ensures Filter(s, p) == (if p(s[0]) then [s[0]] else []) + (if p(s[1]) then [s[1]] else []) + (if p(s[2]) then [s[2]] else [])
  {
    hide Filter;
    FilterStep(s, p);
    assert s[1..] == [s[1], s[2]];
    ExpandPair(s[1..], p);
  }
}
