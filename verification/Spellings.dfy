/**
 * Type spellings and the name under them (packages/live/src/model.ts: baseTypeName): what is
 * put around a name, and that all of it and nothing else comes off.
 */
module Spellings {
  const KEYWORDS: seq<string> := ["const", "volatile", "struct", "union", "enum", "class"]

  /** White space as the runtime's patterns and its trim know it. */
  predicate IsSpace(c: char) {
    || c == ' ' || '\t' <= c <= '\r' || c == '\U{A0}' || c == '\U{1680}' || '\U{2000}' <= c <= '\U{200A}'
    || c in "\U{2028}\U{2029}\U{202F}\U{205F}\U{3000}\U{FEFF}"
  }

  predicate IsDigit(c: char) { '0' <= c <= '9' }

  predicate IsWord(c: char) { IsDigit(c) || 'a' <= c <= 'z' || 'A' <= c <= 'Z' || c == '_' }

  function TrimStart(s: string): (r: string)
    ensures |r| <= |s| && (|r| == |s| ==> r == s)
    ensures r == [] || !IsSpace(r[0])
    ensures s != [] && !IsSpace(s[0]) ==> r == s
    ensures r != [] && s != [] ==> r[|r| - 1] == s[|s| - 1]
  {
    if s == [] || !IsSpace(s[0]) then s else TrimStart(s[1..])
  }

  function TrimEnd(s: string): (r: string)
    ensures r <= s && (|r| == |s| ==> r == s)
    ensures r == [] || !IsSpace(r[|r| - 1])
    ensures s != [] && !IsSpace(s[|s| - 1]) ==> r == s
  {
    if s == [] || !IsSpace(s[|s| - 1]) then s else TrimEnd(s[..|s| - 1])
  }

  predicate Trimmed(s: string) { s == [] || (!IsSpace(s[0]) && !IsSpace(s[|s| - 1])) }

  function Trim(s: string): (r: string)
    ensures |r| <= |s| && (|r| == |s| ==> r == s)
    ensures Trimmed(r) && (Trimmed(s) ==> r == s)
  {
    TrimEnd(TrimStart(s))
  }

  predicate StartsWith(s: string, word: string) {
    |word| < |s| && s[..|word|] == word && IsSpace(s[|word|])
  }

  /** A leading keyword and the space after it. */
  function StripPrefix(s: string, keywords: seq<string>): (r: string)
    ensures |r| <= |s| && (|r| == |s| ==> r == s)
  {
    if keywords == [] then s
    else if StartsWith(s, keywords[0]) then TrimStart(s[|keywords[0]|..])
    else StripPrefix(s, keywords[1..])
  }

  /** The number of digits at the end. */
  function Digits(s: string): (n: nat)
    ensures n <= |s| && forall i :: |s| - n <= i < |s| ==> IsDigit(s[i])
    ensures n < |s| ==> !IsDigit(s[|s| - n - 1])
  {
    if s == [] || !IsDigit(s[|s| - 1]) then 0 else 1 + Digits(s[..|s| - 1])
  }

  predicate EndsWithWord(s: string, word: string) {
    && |word| <= |s| && s[|s| - |word|..] == word
    && (|word| == |s| || !IsWord(s[|s| - |word| - 1]))
  }

  /** The length of the pointer star, array extent or qualifier a spelling ends with. */
  function LastDecoration(s: string): (n: nat)
    ensures n <= |s|
  {
    if s == [] then 0
    else if s[|s| - 1] == '*' then 1
    else if s[|s| - 1] == ']' then
      var d := Digits(s[..|s| - 1]);
      if d + 2 <= |s| && s[|s| - d - 2] == '[' then d + 2 else 0
    else if EndsWithWord(s, "const") then 5
    else if EndsWithWord(s, "volatile") then 8
    else 0
  }

  function StripSuffix(s: string): (r: string)
    ensures r <= s
  {
    var t := TrimEnd(s);
    var n := LastDecoration(t);
    if n == 0 then s else TrimEnd(t[..|t| - n])
  }

  /** One round of the loop. */
  function Strip(s: string): (r: string)
    ensures r != s ==> |r| < |s|
    ensures Trimmed(r)
  {
    Trim(StripSuffix(StripPrefix(s, KEYWORDS)))
  }

  function Stripped(s: string): (r: string)
    ensures Strip(r) == r && |r| <= |s|
    ensures Strip(s) == s ==> r == s
    decreases |s|
  {
    if Strip(s) == s then s else Stripped(Strip(s))
  }

  function BaseTypeName(spelling: string): (r: string)
    ensures Strip(r) == r && |r| <= |spelling|
  {
    Stripped(Trim(spelling))
  }

  method StripToBase(spelling: string) returns (t: string)
    ensures t == BaseTypeName(spelling)
  {
    t := Trim(spelling);
    while true
      invariant Stripped(t) == BaseTypeName(spelling)
      decreases |t|
    {
      var next := Strip(t);
      if next == t { return; }
      t := next;
    }
  }

  // ---------------------------------------------------------------------------
  // What may stand around a name
  // ---------------------------------------------------------------------------

  predicate IsKeyword(word: string) { word in {"const", "volatile", "struct", "union", "enum", "class"} }

  predicate IsBlank(s: string) { forall c :: c in s ==> IsSpace(c) }

  /** `[`, any number of digits, `]`. */
  predicate IsExtent(s: string) {
    |s| >= 2 && s[0] == '[' && s[|s| - 1] == ']' && forall i :: 1 <= i < |s| - 1 ==> IsDigit(s[i])
  }

  /** A keyword and the white space behind it. */
  datatype Front = Front(keyword: string, gap: string)

  predicate IsFront(f: Front) { IsKeyword(f.keyword) && f.gap != "" && IsBlank(f.gap) }

  /** White space or none, and a star, an extent or a qualifier. */
  datatype Back = Back(gap: string, decoration: string)

  /** A qualifier must not run into a word in front of it. */
  predicate IsBack(text: string, b: Back) {
    && IsBlank(b.gap)
    && (b.decoration == "*" || IsExtent(b.decoration) || (b.decoration in {"const", "volatile"} && EndsOutsideWord(text + b.gap)))
  }

  predicate EndsOutsideWord(s: string) { s != "" && !IsWord(s[|s| - 1]) }

  function FrontText(fronts: seq<Front>): string {
    if fronts == [] then "" else fronts[0].keyword + fronts[0].gap + FrontText(fronts[1..])
  }

  /** A name with what stands behind it. */
  function WithBacks(name: string, backs: seq<Back>): string {
    if backs == [] then name else
      var n := |backs| - 1;
      WithBacks(name, backs[..n]) + backs[n].gap + backs[n].decoration
  }

  predicate AreBacks(name: string, backs: seq<Back>) {
    backs != [] ==>
      var n := |backs| - 1;
      AreBacks(name, backs[..n]) && IsBack(WithBacks(name, backs[..n]), backs[n])
  }

  predicate AreFronts(fronts: seq<Front>) { forall f :: f in fronts ==> IsFront(f) }

  predicate StartsWithKeyword(s: string) {
    exists i :: 0 < i < |s| && IsKeyword(s[..i]) && IsSpace(s[i])
  }

  predicate EndsWithExtent(s: string) { exists i :: 0 <= i < |s| && IsExtent(s[i..]) }

  predicate EndsWithQualifier(s: string) {
    exists i :: 0 <= i <= |s| && s[i..] in {"const", "volatile"} && (i == 0 || !IsWord(s[i - 1]))
  }

  /** Nothing around it is left to come off. */
  predicate Undecorated(s: string) {
    && s != "" && !IsSpace(s[0]) && !IsSpace(s[|s| - 1])
    && !StartsWithKeyword(s) && s[|s| - 1] != '*' && !EndsWithExtent(s) && !EndsWithQualifier(s)
  }

  // ---------------------------------------------------------------------------
  // What stands in front comes off
  // ---------------------------------------------------------------------------

  lemma {:induction false} BlankStart(gap: string, rest: string)
    requires IsBlank(gap) && (rest == "" || !IsSpace(rest[0]))
    ensures TrimStart(gap + rest) == rest
    decreases |gap|
  {
    if gap == "" { assert gap + rest == rest; } else {
      assert (gap + rest)[1..] == gap[1..] + rest;
      BlankStart(gap[1..], rest);
    }
  }

  lemma {:induction false} BlankEnd(text: string, gap: string)
    requires IsBlank(gap) && (text == "" || !IsSpace(text[|text| - 1]))
    ensures TrimEnd(text + gap) == text
    decreases |gap|
  {
    if gap == "" { assert text + gap == text; } else {
      var n := |gap| - 1;
      assert (text + gap)[..|text + gap| - 1] == text + gap[..n];
      BlankEnd(text, gap[..n]);
    }
  }

  predicate Letters(s: string) { forall i :: 0 <= i < |s| ==> 'a' <= s[i] <= 'z' }

  lemma KeywordsAreLetters(word: string)
    requires IsKeyword(word)
    ensures word in KEYWORDS && word != "" && Letters(word)
  {
    assert KEYWORDS[0] == "const" && KEYWORDS[1] == "volatile" && KEYWORDS[2] == "struct";
    assert KEYWORDS[3] == "union" && KEYWORDS[4] == "enum" && KEYWORDS[5] == "class";
  }

  lemma ListedIsKeyword(word: string)
    requires word in KEYWORDS
    ensures IsKeyword(word)
  {
  }

  lemma WordInFront(name: string, tail: string, word: string)
    requires name != "" && StartsWith(name + tail, word)
    ensures StartsWith(name, word) || word == name || RunsOn(name, tail, word)
  {
    var s, n := name + tail, |word|;
    assert n < |name| ==> s[..n] == name[..n] && s[n] == name[n];
    assert n == |name| ==> s[..n] == name;
    assert |name| < n ==> s[..n][|name|] == tail[0] && s[..n][|name| - 1] == name[|name| - 1];
  }

  /** The word begins with the name and goes on into what is behind it. */
  predicate RunsOn(name: string, tail: string, word: string) {
    0 < |name| < |word| && tail != "" && word[|name|] == tail[0] && word[|name| - 1] == name[|name| - 1]
  }

  /** Of two words of letters, both with white space behind them, at one start there is one. */
  lemma OneKeyword(f: Front, rest: string, word: string)
    requires f.keyword != "" && Letters(f.keyword) && Letters(word) && f.gap != "" && IsBlank(f.gap)
    ensures StartsWith(f.keyword + f.gap + rest, word) <==> word == f.keyword
  {
    var s, tail := f.keyword + f.gap + rest, f.gap + rest;
    assert s == f.keyword + tail && tail[0] == f.gap[0] && f.gap[0] in f.gap;
    SpaceIsNoLetter(f.keyword, tail, word);
    if StartsWith(s, word) { WordInFront(f.keyword, tail, word); }
  }

  lemma SpaceIsNoLetter(keyword: string, tail: string, word: string)
    requires Letters(keyword) && Letters(word) && tail != "" && IsSpace(tail[0])
    ensures !StartsWith(keyword, word) && !RunsOn(keyword, tail, word)
  {
  }

  lemma {:induction false} PrefixIs(s: string, keywords: seq<string>, keyword: string)
    requires StartsWith(s, keyword) && keyword in keywords && forall w :: w in keywords ==> (StartsWith(s, w) <==> w == keyword)
    ensures StripPrefix(s, keywords) == TrimStart(s[|keyword|..])
    decreases |keywords|
  {
    hide StartsWith, TrimStart;
    assert keywords[0] in keywords;
    if keywords[0] != keyword {
      assert forall w :: w in keywords[1..] ==> w in keywords;
      PrefixIs(s, keywords[1..], keyword);
    }
  }

  lemma {:induction false} NoPrefixIs(s: string, keywords: seq<string>)
    requires forall w :: w in keywords ==> !StartsWith(s, w)
    ensures StripPrefix(s, keywords) == s
    decreases |keywords|
  {
    hide StartsWith, TrimStart;
    if keywords != [] {
      assert keywords[0] in keywords && forall w :: w in keywords[1..] ==> w in keywords;
      NoPrefixIs(s, keywords[1..]);
    }
  }

  lemma FrontComesOff(f: Front, rest: string)
    requires IsFront(f) && (rest == "" || !IsSpace(rest[0]))
    ensures StripPrefix(f.keyword + f.gap + rest, KEYWORDS) == rest
  {
    hide StartsWith, TrimStart, Letters, StripPrefix;
    var s := f.keyword + f.gap + rest;
    KeywordsAreLetters(f.keyword);
    forall w | w in KEYWORDS ensures StartsWith(s, w) <==> w == f.keyword {
      ListedIsKeyword(w);
      KeywordsAreLetters(w);
      OneKeyword(f, rest, w);
    }
    PrefixIs(s, KEYWORDS, f.keyword);
    assert s[|f.keyword|..] == f.gap + rest;
    BlankStart(f.gap, rest);
  }

  /** What stands behind a name cannot make a keyword of it. */
  predicate Follows(name: string, tail: string) {
    tail == "" || !('a' <= tail[0] <= 'z') || EndsOutsideWord(name)
  }

  lemma {:induction false} TailOf(name: string, backs: seq<Back>) returns (tail: string)
    requires name != "" && AreBacks(name, backs)
    ensures WithBacks(name, backs) == name + tail && Follows(name, tail)
    decreases |backs|
  {
    if backs == [] { return ""; }
    var n := |backs| - 1;
    var b := backs[n];
    var before := TailOf(name, backs[..n]);
    tail := before + b.gap + b.decoration;
    assert name + tail == (name + before) + b.gap + b.decoration;
    if before == "" { FirstBehind(name, b); } else { assert tail[0] == before[0]; }
  }

  lemma FirstBehind(name: string, b: Back)
    requires name != "" && IsBack(name, b)
    ensures Follows(name, b.gap + b.decoration)
  {
    if b.gap == "" {
      assert name + b.gap == name && b.gap + b.decoration == b.decoration;
    } else {
      assert (b.gap + b.decoration)[0] == b.gap[0] && b.gap[0] in b.gap;
    }
  }

  lemma LettersStop(name: string, tail: string, word: string)
    requires name != "" && Letters(word) && Follows(name, tail)
    ensures !RunsOn(name, tail, word)
  {
  }

  lemma NoKeywordInFront(name: string, tail: string, word: string)
    requires Undecorated(name) && !IsKeyword(name) && IsKeyword(word) && Follows(name, tail)
    ensures !StartsWith(name + tail, word)
  {
    hide Letters, Follows, RunsOn, EndsWithExtent, EndsWithQualifier;
    KeywordsAreLetters(word);
    LettersStop(name, tail, word);
    KeywordInFront(name, word);
    if StartsWith(name + tail, word) { WordInFront(name, tail, word); }
  }

  lemma NameHasNoFront(name: string, backs: seq<Back>)
    requires Undecorated(name) && !IsKeyword(name) && AreBacks(name, backs)
    ensures StripPrefix(WithBacks(name, backs), KEYWORDS) == WithBacks(name, backs)
  {
    hide Undecorated, StartsWith, IsKeyword, StripPrefix, Follows;
    UndecoratedIsTrimmed(name);
    var tail := TailOf(name, backs);
    forall w | w in KEYWORDS ensures !StartsWith(name + tail, w) {
      ListedIsKeyword(w);
      NoKeywordInFront(name, tail, w);
    }
    NoPrefixIs(name + tail, KEYWORDS);
  }

  lemma UndecoratedIsTrimmed(name: string)
    requires Undecorated(name)
    ensures name != "" && !IsSpace(name[0]) && !IsSpace(name[|name| - 1])
  {
  }

  // ---------------------------------------------------------------------------
  // What stands behind comes off
  // ---------------------------------------------------------------------------

  lemma {:induction false} DigitsOf(text: string, digits: string)
    requires (forall c :: c in digits ==> IsDigit(c)) && text != "" && !IsDigit(text[|text| - 1])
    ensures Digits(text + digits) == |digits|
    decreases |digits|
  {
    if digits == "" { assert text + digits == text; } else {
      var n := |digits| - 1;
      assert (text + digits)[..|text + digits| - 1] == text + digits[..n];
      DigitsOf(text, digits[..n]);
    }
  }

  lemma ExtentIsLast(text: string, extent: string)
    requires IsExtent(extent)
    ensures LastDecoration(text + extent) == |extent|
  {
    hide EndsWithWord;
    var s, n := text + extent, |extent|;
    var digits := extent[1..n - 1];
    assert s[..|s| - 1] == (text + "[") + digits;
    DigitsOf(text + "[", digits);
    assert s[|s| - n] == '[';
  }

  lemma QualifierIsLast(text: string, word: string)
    requires word in {"const", "volatile"} && EndsOutsideWord(text)
    ensures LastDecoration(text + word) == |word|
  {
    var s := text + word;
    assert s[|s| - |word|..] == word && s[|s| - |word| - 1] == text[|text| - 1] && s[|s| - 1] == word[|word| - 1];
    assert word == "volatile" ==> s[|s| - 5..] == word[3..] && s[|s| - 5..][0] == 'a';
  }

  lemma DecorationIsLast(text: string, b: Back)
    requires IsBack(text, b)
    ensures LastDecoration(text + b.gap + b.decoration) == |b.decoration| > 0
  {
    hide LastDecoration, IsExtent, EndsOutsideWord;
    if b.decoration == "*" {
      StarIsLast(text + b.gap);
    } else if IsExtent(b.decoration) {
      ExtentIsLast(text + b.gap, b.decoration);
      ExtentEnds(b.decoration);
    } else {
      QualifierIsLast(text + b.gap, b.decoration);
    }
  }

  lemma StarIsLast(text: string)
    ensures LastDecoration(text + "*") == 1
  {
  }

  lemma ExtentEnds(extent: string)
    requires IsExtent(extent)
    ensures extent != "" && extent[|extent| - 1] == ']'
  {
  }

  lemma DecorationEnds(text: string, b: Back)
    requires IsBack(text, b)
    ensures b.decoration != "" && !IsSpace(b.decoration[|b.decoration| - 1]) && IsBlank(b.gap)
  {
  }

  /** One decoration comes off, with the white space before it. */
  lemma BackComesOff(text: string, b: Back)
    requires IsBack(text, b) && text != "" && !IsSpace(text[|text| - 1])
    ensures StripSuffix(text + b.gap + b.decoration) == text
  {
    hide LastDecoration, IsBack, IsSpace, IsBlank;
    var s, n := text + b.gap + b.decoration, |b.decoration|;
    DecorationIsLast(text, b);
    DecorationEnds(text, b);
    assert s[|s| - 1] == b.decoration[n - 1] && TrimEnd(s) == s;
    assert s[..|s| - n] == text + b.gap;
    BlankEnd(text, b.gap);
    BlankEnd(text, "") by { NoBlank(); }
    assert text + "" == text;
  }

  lemma NoBlank()
    ensures IsBlank("")
  {
  }

  /** A decoration at the end of a spelling is one at the end of the name. */
  lemma NothingBehind(text: string, name: string)
    requires Undecorated(name) && (text == "" || IsSpace(text[|text| - 1]))
    ensures LastDecoration(text + name) == 0
  {
    hide StartsWithKeyword, EndsWithExtent, EndsWithQualifier;
    var s := text + name;
    assert s[|s| - 1] == name[|name| - 1];
    NoExtentBehind(text, name);
    NoQualifierBehind(text, name, "const");
    NoQualifierBehind(text, name, "volatile");
  }

  /** The last `k` characters are the name's own, or reach over the white space before it. */
  lemma LastOf(text: string, name: string, k: nat)
    requires k <= |text + name|
    ensures k <= |name| ==> (text + name)[|text + name| - k..] == name[|name| - k..]
    ensures k > |name| ==> text != "" && (text + name)[|text + name| - k..][k - |name| - 1] == text[|text| - 1]
  {
  }

  lemma DigitsAreExtent(s: string)
    requires s != "" && s[|s| - 1] == ']'
    ensures var d := Digits(s[..|s| - 1]); d + 2 <= |s| && s[|s| - d - 2] == '[' ==> IsExtent(s[|s| - d - 2..])
  {
    var body := s[..|s| - 1];
    var d := Digits(body);
    if d + 2 <= |s| && s[|s| - d - 2] == '[' {
      var e := s[|s| - d - 2..];
      forall i | 1 <= i < |e| - 1 ensures IsDigit(e[i]) { assert e[i] == body[|s| - d - 2 + i]; }
    }
  }

  lemma NoSpaceInside(s: string)
    requires IsExtent(s) || s in {"const", "volatile"}
    ensures forall i :: 0 <= i < |s| ==> !IsSpace(s[i])
  {
    if !IsExtent(s) { KeywordsAreLetters(s); }
  }

  lemma NoExtentBehind(text: string, name: string)
    requires name != "" && !EndsWithExtent(name) && (text == "" || IsSpace(text[|text| - 1]))
    ensures var s := text + name;
      s[|s| - 1] == ']' ==> var d := Digits(s[..|s| - 1]); !(d + 2 <= |s| && s[|s| - d - 2] == '[')
  {
    hide IsExtent, EndsWithExtent, IsSpace, Digits;
    var s := text + name;
    if s[|s| - 1] == ']' {
      DigitsAreExtent(s);
      NoExtentOf(text, name, Digits(s[..|s| - 1]) + 2);
    }
  }

  lemma NoExtentOf(text: string, name: string, k: nat)
    requires !EndsWithExtent(name) && (text == "" || IsSpace(text[|text| - 1]))
    ensures k <= |text + name| ==> !IsExtent((text + name)[|text + name| - k..])
  {
    hide IsExtent, EndsWithExtent, IsSpace;
    if k <= |text + name| {
      LastOf(text, name, k);
      OnlyInTheName(name, (text + name)[|text + name| - k..], text);
    }
  }

  lemma OnlyInTheName(name: string, end: string, text: string)
    requires !EndsWithExtent(name) && (text == "" || IsSpace(text[|text| - 1]))
    requires |end| <= |name| ==> end == name[|name| - |end|..]
    requires |end| > |name| ==> text != "" && end[|end| - |name| - 1] == text[|text| - 1]
    ensures !IsExtent(end)
  {
    if IsExtent(end) { NoSpaceInside(end); }
  }

  lemma NoQualifierBehind(text: string, name: string, word: string)
    requires name != "" && !EndsWithQualifier(name) && word in {"const", "volatile"} && (text == "" || IsSpace(text[|text| - 1]))
    ensures !EndsWithWord(text + name, word)
  {
    hide IsSpace, IsWord;
    var s, n := text + name, |word|;
    NoSpaceInside(word);
    if n <= |s| {
      LastOf(text, name, n);
      assert n < |name| ==> s[|s| - n - 1] == name[|name| - n - 1];
      assert n <= |name| && name[|name| - n..] == word && (n == |name| || !IsWord(name[|name| - n - 1])) ==> EndsWithQualifier(name);
    }
  }

  // ---------------------------------------------------------------------------
  // All of it comes off
  // ---------------------------------------------------------------------------

  lemma FrontIs(f: Front)
    requires IsFront(f)
    ensures f.keyword != "" && !IsSpace(f.keyword[0]) && f.gap != "" && IsSpace(f.gap[|f.gap| - 1])
  {
    KeywordsAreLetters(f.keyword);
    assert f.gap[|f.gap| - 1] in f.gap;
  }

  lemma {:induction false} FrontEnds(fronts: seq<Front>)
    requires AreFronts(fronts)
    ensures var text := FrontText(fronts); text == "" || (!IsSpace(text[0]) && IsSpace(text[|text| - 1]))
    decreases |fronts|
  {
    hide IsSpace, IsFront;
    if fronts != [] {
      var f, rest := fronts[0], FrontText(fronts[1..]);
      assert f in fronts && forall g :: g in fronts[1..] ==> g in fronts;
      FrontEnds(fronts[1..]);
      FrontIs(f);
      var text := f.keyword + f.gap + rest;
      assert text[0] == f.keyword[0];
      assert text[|text| - 1] == if rest == "" then f.gap[|f.gap| - 1] else rest[|rest| - 1];
    }
  }

  lemma {:induction false} BackEnds(name: string, backs: seq<Back>)
    requires name != "" && !IsSpace(name[0]) && !IsSpace(name[|name| - 1]) && AreBacks(name, backs)
    ensures var text := WithBacks(name, backs); text != "" && !IsSpace(text[0]) && !IsSpace(text[|text| - 1])
    decreases |backs|
  {
    hide IsSpace, IsBack;
    if backs != [] {
      var n := |backs| - 1;
      BackEnds(name, backs[..n]);
      DecorationEnds(WithBacks(name, backs[..n]), backs[n]);
      var text, decoration := WithBacks(name, backs), backs[n].decoration;
      assert text[0] == WithBacks(name, backs[..n])[0] && text[|text| - 1] == decoration[|decoration| - 1];
    }
  }

  /** What a qualifier must not run into is the same with more in front. */
  lemma BackAnywhere(front: string, text: string, b: Back)
    requires text != "" && IsBack(text, b)
    ensures IsBack(front + text, b)
  {
    assert (front + text + b.gap)[|front + text + b.gap| - 1] == (text + b.gap)[|text + b.gap| - 1];
  }

  function Decorated(fronts: seq<Front>, name: string, backs: seq<Back>): string { FrontText(fronts) + WithBacks(name, backs) }

  function Fewer<T>(s: seq<T>): seq<T> { if s == [] then s else s[1..] }

  function FewerLast<T>(s: seq<T>): seq<T> { if s == [] then s else s[..|s| - 1] }

  lemma EndsOf(a: string, b: string)
    requires b != ""
    ensures (a + b)[|a + b| - 1] == b[|b| - 1] && (a + b)[0] == if a == "" then b[0] else a[0]
  {
  }

  lemma DecoratedIsTrimmed(fronts: seq<Front>, name: string, backs: seq<Back>)
    requires Undecorated(name) && AreFronts(fronts) && AreBacks(name, backs)
    ensures var s := Decorated(fronts, name, backs); s != "" && !IsSpace(s[0]) && !IsSpace(s[|s| - 1])
  {
    hide IsSpace, AreBacks, AreFronts, FrontText, WithBacks, Undecorated;
    UndecoratedIsTrimmed(name);
    FrontEnds(fronts);
    BackEnds(name, backs);
    EndsOf(FrontText(fronts), WithBacks(name, backs));
  }

  lemma FrontHalf(fronts: seq<Front>, name: string, backs: seq<Back>)
    requires Undecorated(name) && !IsKeyword(name) && AreFronts(fronts) && AreBacks(name, backs)
    ensures StripPrefix(Decorated(fronts, name, backs), KEYWORDS) == Decorated(Fewer(fronts), name, backs)
  {
    hide Undecorated, IsKeyword, AreBacks, StripPrefix, IsFront, WithBacks;
    if fronts == [] {
      assert "" + WithBacks(name, backs) == WithBacks(name, backs);
      NameHasNoFront(name, backs);
    } else {
      var f, rest := fronts[0], Decorated(fronts[1..], name, backs);
      assert f in fronts && forall g :: g in fronts[1..] ==> g in fronts;
      DecoratedIsTrimmed(fronts[1..], name, backs);
      FrontComesOff(f, rest);
      assert Decorated(fronts, name, backs) == f.keyword + f.gap + rest;
    }
  }

  lemma LastBack(name: string, backs: seq<Back>)
    requires backs != [] && AreBacks(name, backs)
    ensures var before, b := FewerLast(backs), backs[|backs| - 1];
      && AreBacks(name, before) && IsBack(WithBacks(name, before), b)
      && WithBacks(name, backs) == WithBacks(name, before) + b.gap + b.decoration
  {
    hide IsBack;
  }

  lemma BackHalf(fronts: seq<Front>, name: string, backs: seq<Back>)
    requires Undecorated(name) && !IsKeyword(name) && AreFronts(fronts) && AreBacks(name, backs)
    ensures StripSuffix(Decorated(fronts, name, backs)) == Decorated(fronts, name, FewerLast(backs))
  {
    hide Undecorated, IsKeyword, AreFronts, AreBacks, StripSuffix, IsBack, FrontText, WithBacks, IsSpace;
    FrontEnds(fronts);
    if backs == [] {
      NothingLeftBehind(FrontText(fronts), name);
      NoBacks(name);
    } else {
      var text, front, b := WithBacks(name, FewerLast(backs)), FrontText(fronts), backs[|backs| - 1];
      LastBack(name, backs);
      UndecoratedIsTrimmed(name);
      BackEnds(name, FewerLast(backs));
      assert (front + text)[|front + text| - 1] == text[|text| - 1];
      BackAnywhere(front, text, b);
      BackComesOff(front + text, b);
      assert front + (text + b.gap + b.decoration) == front + text + b.gap + b.decoration;
    }
  }

  lemma NoBacks(name: string)
    ensures WithBacks(name, []) == name
  {
  }

  lemma NothingLeftBehind(text: string, name: string)
    requires Undecorated(name) && (text == "" || IsSpace(text[|text| - 1]))
    ensures StripSuffix(text + name) == text + name
  {
    hide Undecorated, LastDecoration, IsSpace;
    UndecoratedIsTrimmed(name);
    NothingBehind(text, name);
    assert (text + name)[|text + name| - 1] == name[|name| - 1];
  }

  /** A round takes one off on either side. */
  lemma OneRound(fronts: seq<Front>, name: string, backs: seq<Back>)
    requires Undecorated(name) && !IsKeyword(name) && AreFronts(fronts) && AreBacks(name, backs)
    ensures AreFronts(Fewer(fronts)) && AreBacks(name, FewerLast(backs))
    ensures Strip(Decorated(fronts, name, backs)) == Decorated(Fewer(fronts), name, FewerLast(backs))
  {
    hide Undecorated, IsKeyword, StripPrefix, StripSuffix, Decorated, IsFront, IsBack, Trim, IsSpace;
    assert forall g :: g in Fewer(fronts) ==> g in fronts;
    FrontHalf(fronts, name, backs);
    BackHalf(Fewer(fronts), name, backs);
    DecoratedIsTrimmed(Fewer(fronts), name, FewerLast(backs));
    IsTrimmed(Decorated(Fewer(fronts), name, FewerLast(backs)));
  }

  lemma IsTrimmed(s: string)
    requires s != "" && !IsSpace(s[0]) && !IsSpace(s[|s| - 1])
    ensures Trimmed(s) && Trim(s) == s
  {
  }

  lemma {:induction false} RoundsReduce(fronts: seq<Front>, name: string, backs: seq<Back>)
    requires Undecorated(name) && !IsKeyword(name) && AreFronts(fronts) && AreBacks(name, backs)
    ensures Stripped(Decorated(fronts, name, backs)) == name
    decreases |fronts| + |backs|
  {
    hide Undecorated, IsKeyword, AreFronts, AreBacks, Strip, IsBack;
    OneRound(fronts, name, backs);
    var s := Decorated(fronts, name, backs);
    if fronts == [] && backs == [] {
      assert s == name;
    } else {
      RoundsReduce(Fewer(fronts), name, FewerLast(backs));
      assert Strip(s) == s ==> Stripped(s) == s == Strip(s);
    }
  }

  /**
   * Every spelling reduces to its name: with white space at either end, any stack of keywords
   * each with white space behind it in front, and any stack of stars, array extents and
   * qualifiers behind, with white space between them or none - save that a qualifier does
   * not run into a word.
   */
  lemma SpellingReduces(lead: string, fronts: seq<Front>, name: string, backs: seq<Back>, trail: string)
    requires Undecorated(name) && !IsKeyword(name) && IsBlank(lead) && IsBlank(trail)
    requires AreFronts(fronts) && AreBacks(name, backs)
    ensures BaseTypeName(lead + FrontText(fronts) + WithBacks(name, backs) + trail) == name
  {
    hide Undecorated, IsKeyword, AreFronts, AreBacks, Stripped, TrimStart, TrimEnd, IsSpace, IsBlank, FrontText, WithBacks;
    var s := Decorated(fronts, name, backs);
    DecoratedIsTrimmed(fronts, name, backs);
    assert lead + FrontText(fronts) + WithBacks(name, backs) + trail == lead + (s + trail);
    assert (s + trail)[0] == s[0];
    BlankStart(lead, s + trail);
    BlankEnd(s, trail);
    RoundsReduce(fronts, name, backs);
  }

  // ---------------------------------------------------------------------------
  // Nothing else comes off
  // ---------------------------------------------------------------------------

  lemma FixedInBothHalves(s: string)
    requires s != "" && Strip(s) == s
    ensures Trimmed(s) && StripPrefix(s, KEYWORDS) == s && LastDecoration(s) == 0
  {
    hide StripPrefix, LastDecoration, TrimStart, TrimEnd;
    var t := StripPrefix(s, KEYWORDS);
    var u := StripSuffix(t);
    assert |Trim(u)| <= |u| <= |t| <= |s|;
    assert Trimmed(s) && TrimEnd(s) == s;
  }

  lemma StrippedIsShorter(s: string, word: string)
    requires word != ""
    ensures StartsWith(s, word) ==> |TrimStart(s[|word|..])| < |s|
  {
  }

  lemma {:induction false} NothingInFront(s: string, keywords: seq<string>, word: string)
    requires StripPrefix(s, keywords) == s && word in keywords && forall w :: w in keywords ==> w != ""
    ensures !StartsWith(s, word)
    decreases |keywords|
  {
    hide StartsWith, TrimStart;
    assert keywords[0] in keywords && forall w :: w in keywords[1..] ==> w in keywords;
    StrippedIsShorter(s, keywords[0]);
    if word != keywords[0] { NothingInFront(s, keywords[1..], word); }
  }

  lemma EndsInExtent(s: string, i: nat)
    requires i < |s| && IsExtent(s[i..])
    ensures LastDecoration(s) > 0
  {
    assert s == s[..i] + s[i..];
    ExtentIsLast(s[..i], s[i..]);
  }

  lemma EndsInQualifier(s: string, i: nat)
    requires i <= |s| && s[i..] in {"const", "volatile"} && (i == 0 || !IsWord(s[i - 1]))
    ensures LastDecoration(s) > 0
  {
    var word := s[i..];
    assert s == s[..i] + word && |s| - |word| == i;
    assert s[|s| - 1] == word[|word| - 1];
    assert word == "volatile" ==> s[|s| - 5..] == word[3..] && s[|s| - 5..][0] == 'a';
  }

  lemma StartsInKeyword(s: string, i: nat)
    requires 0 < i < |s| && IsKeyword(s[..i]) && IsSpace(s[i])
    ensures StripPrefix(s, KEYWORDS) != s
  {
    hide StripPrefix, IsSpace;
    forall w | w in KEYWORDS ensures w != "" {
      ListedIsKeyword(w);
      KeywordsAreLetters(w);
    }
    KeywordsAreLetters(s[..i]);
    assert StartsWith(s, s[..i]);
    if StripPrefix(s, KEYWORDS) == s { NothingInFront(s, KEYWORDS, s[..i]); }
  }

  lemma NoKeywordLeft(s: string)
    requires StripPrefix(s, KEYWORDS) == s
    ensures !StartsWithKeyword(s)
  {
    hide StripPrefix, IsSpace, IsKeyword;
    forall i: nat | 0 < i < |s| && IsKeyword(s[..i]) ensures !IsSpace(s[i]) {
      if IsSpace(s[i]) { StartsInKeyword(s, i); }
    }
  }

  lemma NoExtentLeft(s: string)
    requires LastDecoration(s) == 0
    ensures !EndsWithExtent(s)
  {
    hide LastDecoration, IsExtent;
    forall i: nat | i < |s| ensures !IsExtent(s[i..]) { if IsExtent(s[i..]) { EndsInExtent(s, i); } }
  }

  lemma NoQualifierLeft(s: string)
    requires LastDecoration(s) == 0
    ensures !EndsWithQualifier(s)
  {
    hide LastDecoration, IsWord;
    forall i: nat | i <= |s| && s[i..] in {"const", "volatile"} ensures i != 0 && IsWord(s[i - 1]) {
      if i == 0 || !IsWord(s[i - 1]) { EndsInQualifier(s, i); }
    }
  }

  lemma NoStarLeft(s: string)
    requires s != "" && LastDecoration(s) == 0
    ensures s[|s| - 1] != '*'
  {
    hide Digits, EndsWithWord;
  }

  /** What no round changes is undecorated, or nothing is left. */
  lemma FixedIsUndecorated(s: string)
    requires s != "" && Strip(s) == s
    ensures Undecorated(s)
  {
    hide Strip, StripPrefix, LastDecoration, IsExtent, IsSpace, StartsWithKeyword, EndsWithExtent, EndsWithQualifier;
    FixedInBothHalves(s);
    NoKeywordLeft(s);
    NoExtentLeft(s);
    NoQualifierLeft(s);
    NoStarLeft(s);
  }

  /** A keyword by itself, unless it is a qualifier, stands for itself. */
  lemma UndecoratedIsFixed(s: string)
    requires Undecorated(s)
    ensures Strip(s) == s
  {
    hide Undecorated, StripPrefix, StripSuffix, StartsWith, IsSpace;
    UndecoratedIsTrimmed(s);
    forall w | w in KEYWORDS ensures !StartsWith(s, w) { NotInFront(s, w); }
    NoPrefixIs(s, KEYWORDS);
    NothingLeftBehind("", s);
    assert "" + s == s;
  }

  lemma NotInFront(s: string, word: string)
    requires Undecorated(s) && word in KEYWORDS
    ensures !StartsWith(s, word)
  {
    hide EndsWithExtent, EndsWithQualifier, IsSpace;
    ListedIsKeyword(word);
    KeywordInFront(s, word);
  }

  lemma KeywordInFront(s: string, word: string)
    requires IsKeyword(word)
    ensures StartsWith(s, word) ==> StartsWithKeyword(s)
  {
    hide IsSpace;
    KeywordsAreLetters(word);
    if StartsWith(s, word) { assert s[..|word|] == word; }
  }

  /**
   * A base name is undecorated or empty, and a spelling is its own base name exactly when it
   * is one of the two: what a spelling is reduced to has nothing left to take off.
   */
  lemma BaseIsUndecorated(spelling: string)
    ensures BaseTypeName(spelling) == "" || Undecorated(BaseTypeName(spelling))
    ensures BaseTypeName(spelling) == spelling <==> spelling == "" || Undecorated(spelling)
  {
    hide Undecorated, Strip, Stripped, Trim;
    var r := BaseTypeName(spelling);
    if r != "" { FixedIsUndecorated(r); }
    if spelling != "" && Undecorated(spelling) {
      UndecoratedIsTrimmed(spelling);
      IsTrimmed(spelling);
      UndecoratedIsFixed(spelling);
      assert Stripped(spelling) == spelling;
    }
    assert |BaseTypeName("")| == 0;
  }

  /** A base name has no decoration left to take off. */
  lemma BaseIsFixed(spelling: string)
    ensures BaseTypeName(BaseTypeName(spelling)) == BaseTypeName(spelling)
  {
    hide BaseTypeName, Undecorated;
    BaseIsUndecorated(spelling);
    BaseIsUndecorated(BaseTypeName(spelling));
  }

  /** A name that stands for itself and is no keyword: what a type is called. */
  predicate Plain(name: string) { name != "" && BaseTypeName(name) == name && !IsKeyword(name) }

  lemma WithBacksReduces(name: string, backs: seq<Back>)
    requires Plain(name) && AreBacks(name, backs)
    ensures BaseTypeName(WithBacks(name, backs)) == name
  {
    hide BaseTypeName, Undecorated, IsKeyword, WithBacks, AreBacks;
    BaseIsUndecorated(name);
    SpellingReduces("", [], name, backs, "");
    assert "" + FrontText([]) + WithBacks(name, backs) + "" == WithBacks(name, backs);
  }

  /** The records kept beside a type, its pointers and arrays, refer to it. */
  lemma DerivedNamesReduce(name: string)
    requires Plain(name)
    ensures BaseTypeName(name + " *") == name && BaseTypeName(name + " []") == name
  {
    hide BaseTypeName, Plain;
    OneBehind(name, "*");
    OneBehind(name, "[]");
    assert name + " " + "*" == name + " *" && name + " " + "[]" == name + " []";
  }

  lemma OneBehind(name: string, decoration: string)
    requires Plain(name) && decoration in {"*", "[]"}
    ensures BaseTypeName(name + " " + decoration) == name
  {
    hide BaseTypeName, Plain;
    var backs := [Back(" ", decoration)];
    assert backs[..0] == [] && WithBacks(name, backs) == name + " " + decoration && AreBacks(name, backs);
    WithBacksReduces(name, backs);
  }
}
