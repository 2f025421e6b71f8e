/**
 * Which records of a renamed type list are paired with which listing entries
 * (packages/live/src/model.ts: splitTypeSuffix, adoptGhidraNames), told of the spellings and
 * the lists themselves.
 */
module PairingExact {
  import opened Prelude
  import opened Sorting
  import opened Containment
  import opened Spellings
  import opened TypeListing

  // ---------------------------------------------------------------------------
  // Two names of one type
  // ---------------------------------------------------------------------------

  /** A star or an array extent, and the white space before it. */
  predicate IsMark(b: Back) { IsBlank(b.gap) && (b.decoration == "*" || IsExtent(b.decoration)) }

  predicate AreMarks(backs: seq<Back>) { forall b :: b in backs ==> IsMark(b) }

  /** The stars and extents alone, end to end. */
  function Marks(backs: seq<Back>): string {
    if backs == [] then "" else Marks(backs[..|backs| - 1]) + backs[|backs| - 1].decoration
  }

  /** Neither star nor extent behind it; white space in front of one goes with that. */
  predicate IsBase(s: string, backs: seq<Back>) {
    s != "" ==> s[|s| - 1] != '*' && !EndsWithExtent(s) && (backs == [] || !IsSpace(s[|s| - 1]))
  }

  predicate OneLine(s: string) { forall c :: c in s ==> !IsLineEnd(c) }

  lemma {:induction false} MarkedEnds(base: string, backs: seq<Back>)
    requires (base == "" || !IsSpace(base[|base| - 1])) && AreMarks(backs)
    ensures var s := WithBacks(base, backs); s == "" || !IsSpace(s[|s| - 1])
    decreases |backs|
  {
    hide IsSpace, IsExtent;
    if backs != [] {
      var n := |backs| - 1;
      assert backs[n] in backs;
      MarkEnds(backs[n]);
      EndsOf(WithBacks(base, backs[..n]) + backs[n].gap, backs[n].decoration);
    }
  }

  lemma MarkEnds(b: Back)
    requires IsMark(b)
    ensures b.decoration != "" && !IsSpace(b.decoration[|b.decoration| - 1]) && IsBlank(b.gap)
  {
  }

  lemma BareEnd(base: string)
    requires IsBase(base, [])
    ensures Decorations(base) == |base|
  {
    hide IsSpace, IsExtent;
    if base != "" && base[|base| - 1] == ']' { DigitsAreExtent(base); }
  }

  lemma OneStar(text: string)
    ensures Decorations(text + "*") == Decorations(TrimEnd(text))
  {
    assert (text + "*")[..|text|] == text;
  }

  lemma ExtentShape(text: string, d: string)
    requires IsExtent(d)
    ensures var s := text + d;
      s[|s| - 1] == ']' && s[|s| - |d|] == '[' && s[..|s| - |d|] == text && Digits(s[..|s| - 1]) + 2 == |d|
  {
    hide Digits;
    var s, digits := text + d, d[1..|d| - 1];
    assert s[..|s| - 1] == (text + "[") + digits;
    forall c | c in digits ensures IsDigit(c) { var i :| 0 <= i < |digits| && digits[i] == c; assert d[i + 1] == c; }
    DigitsOf(text + "[", digits);
  }

  lemma OneExtent(text: string, d: string)
    requires IsExtent(d)
    ensures Decorations(text + d) == Decorations(TrimEnd(text))
  {
    hide TrimEnd, Digits, IsExtent;
    ExtentShape(text, d);
  }

  lemma OneMark(text: string, b: Back)
    requires IsMark(b) && (text == "" || !IsSpace(text[|text| - 1]))
    ensures Decorations(text + b.gap + b.decoration) == Decorations(text)
  {
    hide IsSpace, IsBlank, TrimEnd, Decorations, IsExtent;
    BlankEnd(text, b.gap);
    if b.decoration == "*" { OneStar(text + b.gap); } else { OneExtent(text + b.gap, b.decoration); }
  }

  lemma {:induction false} MarksComeOff(base: string, backs: seq<Back>)
    requires IsBase(base, backs) && AreMarks(backs)
    ensures Decorations(WithBacks(base, backs)) == |base|
    decreases |backs|
  {
    hide IsMark, IsSpace, EndsWithExtent, Decorations;
    if backs == [] {
      BareEnd(base);
    } else {
      var n := |backs| - 1;
      assert backs[n] in backs && forall b :: b in backs[..n] ==> b in backs;
      MarkedEnds(base, backs[..n]);
      OneMark(WithBacks(base, backs[..n]), backs[n]);
      MarksComeOff(base, backs[..n]);
    }
  }

  lemma {:induction false} BackText(base: string, backs: seq<Back>)
    ensures WithBacks(base, backs) == base + WithBacks("", backs)
    decreases |backs|
  {
    if backs != [] { BackText(base, backs[..|backs| - 1]); }
  }

  /** A name is split into its base and the stars and extents behind it, unless the base has several lines. */
  lemma SplitsAtTheBase(base: string, backs: seq<Back>)
    requires IsBase(base, backs) && AreMarks(backs)
    ensures var s := WithBacks(base, backs);
      if OneLine(base) then Base(s) == base && Suffix(s) == WithBacks("", backs) else Base(s) == s && Suffix(s) == ""
  {
    hide Decorations, AreMarks, WithBacks, IsLineEnd;
    MarksComeOff(base, backs);
    BackText(base, backs);
    var s := WithBacks(base, backs);
    assert s[..|base|] == base && s[|base|..] == WithBacks("", backs) && s[..|s|] == s && s[|s|..] == "";
  }

  /** Every name can be told so. */
  lemma {:induction false} EveryNameSplits(s: string) returns (base: string, backs: seq<Back>)
    ensures s == WithBacks(base, backs) && IsBase(base, backs) && AreMarks(backs)
    decreases |s|
  {
    hide IsBase, IsMark, IsExtent, TrimEnd, WithBacks;
    var k := EndingMark(s);
    if k == |s| {
      base, backs := s, [];
      NoMarks(s);
    } else {
      var text, b := LastMark(s, k);
      var before: seq<Back>;
      base, before := EveryNameSplits(text);
      backs := before + [b];
      OneMoreMark(base, before, b);
    }
  }

  lemma NoMarks(s: string)
    requires s != "" ==> s[|s| - 1] != '*' && !EndsWithExtent(s)
    ensures WithBacks(s, []) == s && IsBase(s, []) && AreMarks([])
  {
  }

  lemma LastMark(s: string, k: nat) returns (text: string, b: Back)
    requires k < |s| && (s[k..] == "*" || IsExtent(s[k..]))
    ensures s == text + b.gap + b.decoration && IsMark(b) && |text| < |s| && (text == "" || !IsSpace(text[|text| - 1]))
  {
    hide IsSpace, IsExtent, IsBlank;
    text := TrimEnd(s[..k]);
    b := Back(s[..k][|text|..], s[k..]);
    BlankAfter(s[..k]);
    assert s == s[..k] + s[k..];
  }

  lemma OneMoreMark(base: string, before: seq<Back>, b: Back)
    requires IsBase(base, before) && AreMarks(before) && IsMark(b)
    requires WithBacks(base, before) == "" || !IsSpace(WithBacks(base, before)[|WithBacks(base, before)| - 1])
    ensures IsBase(base, before + [b]) && AreMarks(before + [b])
    ensures WithBacks(base, before + [b]) == WithBacks(base, before) + b.gap + b.decoration
  {
    hide IsSpace, IsMark, EndsWithExtent;
    assert (before + [b])[..|before|] == before;
    assert before == [] ==> WithBacks(base, before) == base;
  }

  /** Where a star or an extent at the end begins, or the length. */
  lemma EndingMark(s: string) returns (k: nat)
    ensures k <= |s| && (k < |s| ==> s[k..] == "*" || IsExtent(s[k..]))
    ensures k == |s| && s != "" ==> s[|s| - 1] != '*' && !EndsWithExtent(s)
  {
    if s != "" && s[|s| - 1] == '*' { assert s[|s| - 1..] == "*"; return |s| - 1; }
    if EndsWithExtent(s) {
      k :| 0 <= k < |s| && IsExtent(s[k..]);
    } else {
      k := |s|;
    }
  }

  lemma {:induction false} BlankAfter(s: string)
    ensures var t := TrimEnd(s); IsBlank(s[|t|..]) && s == t + s[|t|..]
    decreases |s|
  {
    hide IsSpace;
    if s != "" && IsSpace(s[|s| - 1]) {
      var n := |s| - 1;
      BlankAfter(s[..n]);
      var t := TrimEnd(s[..n]);
      assert s[|t|..] == s[..n][|t|..] + [s[n]];
    }
  }

  lemma {:induction false} SpacelessConcat(a: string, b: string)
    ensures WithoutSpace(a + b) == WithoutSpace(a) + WithoutSpace(b)
    decreases |a|
  {
    hide IsSpace;
    if a == "" { assert a + b == b; } else {
      assert (a + b)[1..] == a[1..] + b;
      SpacelessConcat(a[1..], b);
    }
  }

  lemma {:induction false} Spaceless(s: string)
    ensures IsBlank(s) ==> WithoutSpace(s) == ""
    ensures (forall c :: c in s ==> !IsSpace(c)) ==> WithoutSpace(s) == s
    decreases |s|
  {
    hide IsSpace;
    if s != "" {
      assert s[0] in s && forall c :: c in s[1..] ==> c in s;
      Spaceless(s[1..]);
    }
  }

  lemma MarkIsSpaceless(b: Back)
    requires IsMark(b)
    ensures WithoutSpace(b.gap) == "" && WithoutSpace(b.decoration) == b.decoration
  {
    hide WithoutSpace;
    Spaceless(b.gap);
    Spaceless(b.decoration);
    if b.decoration != "*" { NoSpaceInside(b.decoration); }
  }

  lemma {:induction false} MarksWithoutSpace(backs: seq<Back>)
    requires AreMarks(backs)
    ensures WithoutSpace(WithBacks("", backs)) == Marks(backs)
    decreases |backs|
  {
    hide IsMark, WithoutSpace;
    if backs == [] {
      Spaceless("");
      assert IsBlank("");
    } else {
      var n := |backs| - 1;
      assert backs[n] in backs && forall b :: b in backs[..n] ==> b in backs;
      MarksWithoutSpace(backs[..n]);
      MarkIsSpaceless(backs[n]);
      SpacelessConcat(WithBacks("", backs[..n]) + backs[n].gap, backs[n].decoration);
      SpacelessConcat(WithBacks("", backs[..n]), backs[n].gap);
    }
  }

  predicate LetterOrDigit(c: char) { '0' <= c <= '9' || 'a' <= c <= 'z' || 'A' <= c <= 'Z' }

  /** One letter in either case, one digit, or both no letter and no digit. */
  predicate SameSign(c: char, d: char) {
    if LetterOrDigit(c) || LetterOrDigit(d)
    then c == d || ('a' <= c <= 'z' && 'A' <= d <= 'Z' && c as int == d as int + 32) || ('A' <= c <= 'Z' && 'a' <= d <= 'z' && d as int == c as int + 32)
    else true
  }

  lemma FlatSign(c: char, d: char)
    ensures FlatChar(c) == FlatChar(d) <==> SameSign(c, d)
  {
  }

  predicate EndsAlike(name: string, end: string) {
    |end| <= |name| && forall i :: 0 <= i < |end| ==> SameSign(name[|name| - |end| + i], end[i])
  }

  lemma FlatEnds(name: string, end: string)
    ensures EndsWith(Flat(name), Flat(end)) <==> EndsAlike(name, end)
  {
    hide FlatChar, SameSign;
    if |end| <= |name| {
      var a, b, k := Flat(name), Flat(end), |name| - |end|;
      forall i | 0 <= i < |end| ensures a[k..][i] == b[i] <==> SameSign(name[k + i], end[i]) { FlatSign(name[k + i], end[i]); }
    }
  }

  /** Base and marks of a name; one whose base has several lines is all base. */
  function BaseAndMarks(base: string, backs: seq<Back>): (string, string) {
    if OneLine(base) then (base, Marks(backs)) else (WithBacks(base, backs), "")
  }

  /**
   * Two names are of one type, renamed, exactly when the stars and extents behind are the
   * same, white space aside, and the bases differ but the record's ends with the listed one,
   * case aside and every sign that is no letter or digit counting as one.
   */
  lemma AlikeExactly(base: string, behind: seq<Back>, listedBase: string, listedBehind: seq<Back>)
    requires IsBase(base, behind) && AreMarks(behind) && IsBase(listedBase, listedBehind) && AreMarks(listedBehind)
    ensures var (name, marks) := BaseAndMarks(base, behind);
      var (listed, listedMarks) := BaseAndMarks(listedBase, listedBehind);
      Alike(WithBacks(base, behind), WithBacks(listedBase, listedBehind)) <==>
      marks == listedMarks && name != listed && EndsAlike(name, listed)
  {
    hide Base, Suffix, Flat, EndsWith, EndsAlike, IsBase, AreMarks, WithBacks, OneLine;
    SplitsAtTheBase(base, behind);
    SplitsAtTheBase(listedBase, listedBehind);
    MarksWithoutSpace(behind);
    MarksWithoutSpace(listedBehind);
    FlatEnds(BaseAndMarks(base, behind).0, BaseAndMarks(listedBase, listedBehind).0);
  }

  // ---------------------------------------------------------------------------
  // The only candidate either way
  // ---------------------------------------------------------------------------

  /** Not paired yet, and its own name and category are no entry's. */
  ghost predicate NotListed(dt: ExtractedType, listing: seq<Entry>) {
    && dt.sourceName in {None, Some("")}
    && forall t: Entry :: t in listing && t.name == dt.name ==> OrEmpty(t.category) != OrEmpty(dt.category)
  }

  /** No record is held under the entry's name and category. */
  ghost predicate IsFree(types: seq<ExtractedType>, t: Entry) {
    forall dt: ExtractedType :: dt in types && OrEmpty(dt.category) == OrEmpty(t.category) ==>
      t.name != if dt.sourceName.Some? then dt.sourceName.value else dt.name
  }

  /** One category, one kind unless either is a built-in's, and names of one type. */
  predicate Suits(dt: ExtractedType, t: Entry) {
    && OrEmpty(dt.category) == OrEmpty(t.category)
    && (dt.kind == t.kind || Some("BUILT_IN") in {dt.kind, t.kind})
    && Alike(dt.name, t.name)
  }

  ghost predicate OnlyEntry(types: seq<ExtractedType>, listing: seq<Entry>, dt: ExtractedType, j: nat) {
    j < |listing| && forall k: nat :: k < |listing| ==> (IsFree(types, listing[k]) && Suits(dt, listing[k]) <==> k == j)
  }

  ghost predicate OnlyRecord(types: seq<ExtractedType>, listing: seq<Entry>, t: Entry, i: nat) {
    i < |types| && forall k: nat :: k < |types| ==> (NotListed(types[k], listing) && Suits(types[k], t) <==> k == i)
  }

  lemma LeavesAre(types: seq<ExtractedType>, listing: seq<Entry>, dt: ExtractedType, t: Entry)
    ensures Unlisted(dt, listing) <==> NotListed(dt, listing)
    ensures Held(types, EntryKey(t)) <==> !IsFree(types, t)
    ensures Fits(dt, t) <==> Suits(dt, t)
  {
    hide Alike;
  }

  lemma OneCandidate(types: seq<ExtractedType>, listing: seq<Entry>, dt: ExtractedType)
    ensures |Candidates(types, listing, dt)| == 1 <==> exists j: nat :: OnlyEntry(types, listing, dt, j)
    ensures forall j: nat :: OnlyEntry(types, listing, dt, j) ==>
      |Candidates(types, listing, dt)| == 1 && Candidates(types, listing, dt)[0] == listing[j]
  {
    hide Held, Fits, IsFree, Suits, Filter;
    var kept, fits := (t: Entry) => !Held(types, EntryKey(t)), (t: Entry) => Fits(dt, t);
    var both := (t: Entry) => kept(t) && fits(t);
    FilterTwice(listing, kept, fits, both);
    assert Candidates(types, listing, dt) == Filter(listing, both);
    OneIsKept(listing, both);
    forall t ensures both(t) <==> IsFree(types, t) && Suits(dt, t) { LeavesAre(types, listing, dt, t); }
    forall j: nat ensures OnlyOne(listing, both, j) <==> OnlyEntry(types, listing, dt, j) { }
  }

  lemma OneRival(types: seq<ExtractedType>, listing: seq<Entry>, t: Entry)
    ensures |Rivals(types, listing, t)| == 1 <==> exists i: nat :: OnlyRecord(types, listing, t, i)
  {
    hide Unlisted, Fits, NotListed, Suits, Filter;
    var both := (dt: ExtractedType) => Unlisted(dt, listing) && Fits(dt, t);
    assert Rivals(types, listing, t) == Filter(types, both);
    OneIsKept(types, both);
    forall dt ensures both(dt) <==> NotListed(dt, listing) && Suits(dt, t) { LeavesAre(types, listing, dt, t); }
    forall i: nat ensures OnlyOne(types, both, i) <==> OnlyRecord(types, listing, t, i) { }
  }

  /**
   * A record is paired exactly when it is not listed, one free entry of the listing suits it
   * and no other does, and it is the one unlisted record that entry suits; it then takes the
   * entry's name, and any other record stays as it is.
   */
  lemma PairedExactly(types: seq<ExtractedType>, listing: seq<Entry>, dt: ExtractedType)
    ensures Paired(types, listing, dt) <==>
      NotListed(dt, listing) && exists j: nat, i: nat :: OnlyEntry(types, listing, dt, j) && OnlyRecord(types, listing, listing[j], i)
    ensures !Paired(types, listing, dt) ==> Adopt(types, listing, dt) == dt
    ensures forall j: nat :: Paired(types, listing, dt) && OnlyEntry(types, listing, dt, j) ==>
      Adopt(types, listing, dt) == dt.(sourceName := Some(listing[j].name))
  {
    hide Unlisted, NotListed, Candidates, Rivals, OnlyRecord;
    LeavesAre(types, listing, dt, Entry("", None, None));
    OneCandidate(types, listing, dt);
    forall t ensures |Rivals(types, listing, t)| == 1 <==> exists i: nat :: OnlyRecord(types, listing, t, i) {
      OneRival(types, listing, t);
    }
  }
}
