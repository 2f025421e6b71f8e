/**
 * Splitting the event stream into frames (packages/live/src/events.ts): a frame ends at a
 * blank line, LF or CRLF, and a partial frame waits in the buffer for the next chunk.
 */
module Framing {
  import opened Prelude

  const LF := "\n\n"
  const CRLF := "\r\n\r\n"

  predicate At(text: string, t: string, i: nat) { i + |t| <= |text| && text[i..i + |t|] == t }

  /** The blank line that starts at `i`, if one does; the two kinds start differently. */
  function BlankLine(text: string, i: nat): Option<string> {
    if At(text, LF, i) then Some(LF) else if At(text, CRLF, i) then Some(CRLF) else None
  }

  /** `String.indexOf`: the least index, or -1. */
  function IndexOf(text: string, t: string, from: nat): (i: int)
    requires t != [] && from <= |text|
    ensures i == -1 || (from <= i && At(text, t, i))
    ensures forall k: nat :: from <= k && (i == -1 || k < i) ==> !At(text, t, k)
    decreases |text| - from
  {
    if At(text, t, from) then from
    else if from == |text| then -1
    else IndexOf(text, t, from + 1)
  }

  /** `indexOfFrameEnd`. */
  function IndexOfFrameEnd(text: string): (i: int)
    ensures i == -1 || (0 <= i && BlankLine(text, i).Some?)
    ensures forall k: nat :: (i == -1 || k < i) ==> BlankLine(text, k).None?
  {
    var lf, crlf := IndexOf(text, LF, 0), IndexOf(text, CRLF, 0);
    if lf < 0 then crlf else if crlf < 0 then lf else if lf < crlf then lf else crlf
  }

  /** Two line ends of one kind: what ends a frame. */
  predicate StartsBlankLine(text: string) { "\n\n" <= text || "\r\n\r\n" <= text }

  /** The end of a frame is where the first two line ends of one kind in a row are. */
  lemma FrameEndIs(text: string)
    ensures var i := IndexOfFrameEnd(text);
      if i == -1 then forall k: nat :: k <= |text| ==> !StartsBlankLine(text[k..])
      else 0 <= i <= |text| && StartsBlankLine(text[i..]) && forall k: nat :: k < i ==> !StartsBlankLine(text[k..])
  {
    forall k: nat | k <= |text| ensures StartsBlankLine(text[k..]) <==> BlankLine(text, k).Some? {
      StartsAt(text, LF, k);
      StartsAt(text, CRLF, k);
    }
  }

  lemma StartsAt(text: string, t: string, k: nat)
    requires k <= |text|
    ensures t <= text[k..] <==> At(text, t, k)
  {
    if k + |t| <= |text| { assert text[k..][..|t|] == text[k..k + |t|]; }
  }

  /** A frame with the blank line that ended it. */
  datatype Frame = Frame(text: string, end: string)

  /** `replace(/^(\r?\n){2}/, '')`: two line ends, each LF or CRLF, off the front. */
  function DropLineEnd(text: string): Option<string> {
    if |text| >= 1 && text[0] == '\n' then Some(text[1..])
    else if |text| >= 2 && text[0] == '\r' && text[1] == '\n' then Some(text[2..])
    else None
  }

  function DropBlankLine(text: string): string {
    match DropLineEnd(text)
    case Some(once) => (match DropLineEnd(once) case Some(twice) => twice case None => text)
    case None => text
  }

  function FrameAt(text: string, i: nat): Frame
    requires BlankLine(text, i).Some?
  {
    Frame(text[..i], BlankLine(text, i).value)
  }

  function After(text: string, i: nat): (rest: string)
    requires BlankLine(text, i).Some?
    ensures |rest| < |text|
  {
    text[i + |BlankLine(text, i).value|..]
  }

  /** The regular expression takes off exactly the blank line that was found. */
  lemma DropsTheBlankLine(text: string, i: nat)
    requires BlankLine(text, i).Some?
    ensures i <= |text| && DropBlankLine(text[i..]) == After(text, i)
  {
    var end := BlankLine(text, i).value;
    var tail := text[i..];
    assert tail[..|end|] == end;
    assert tail[0] == end[0] && tail[1] == end[1];
    if end == CRLF {
      assert tail[2] == end[2] && tail[3] == end[3];
      assert tail[2..][0] == tail[2] && tail[2..][1] == tail[3];
    } else {
      assert tail[1..][0] == tail[1];
    }
  }

  /** What a text comes to: its complete frames in order, and what stays in the buffer. */
  function Frames(text: string): (r: (seq<Frame>, string))
    decreases |text|
  {
    var i := IndexOfFrameEnd(text);
    if i < 0 then ([], text) else
      var (frames, rest) := Frames(After(text, i));
      ([FrameAt(text, i)] + frames, rest)
  }

  ghost predicate NoBlankLine(text: string) { forall k: nat :: BlankLine(text, k).None? }

  function Join(frames: seq<Frame>): string {
    if frames == [] then "" else frames[0].text + frames[0].end + Join(frames[1..])
  }

  ghost predicate CutAtBlankLine(f: Frame) { f.end in {LF, CRLF} && NoBlankLine(f.text) }

  /**
   * The partner of the splitting: nothing is lost or invented, each frame was ended by a
   * blank line and holds none, and what waits holds none.
   */
  lemma {:induction false} FramesCutTheText(text: string)
    ensures var (frames, rest) := Frames(text);
      && Join(frames) + rest == text && NoBlankLine(rest)
      && forall f :: f in frames ==> CutAtBlankLine(f)
    decreases |text|
  {
    hide CutAtBlankLine, BlankLine, IndexOfFrameEnd, FrameAt, After, NoBlankLine;
    var i := IndexOfFrameEnd(text);
    if i >= 0 {
      FramesCutTheText(After(text, i));
      FirstFrame(text, i);
      var (frames, rest) := Frames(After(text, i));
      var first := FrameAt(text, i);
      var all := [first] + frames;
      assert all[1..] == frames && Join(all) == first.text + first.end + Join(frames);
      assert first.text + first.end + (Join(frames) + rest) == Join(all) + rest;
    } else {
      NoneFound(text);
    }
  }

  lemma NoneFound(text: string)
    requires IndexOfFrameEnd(text) < 0
    ensures NoBlankLine(text)
  {
  }

  lemma FirstFrame(text: string, i: nat)
    requires i == IndexOfFrameEnd(text)
    ensures CutAtBlankLine(FrameAt(text, i))
    ensures text == FrameAt(text, i).text + FrameAt(text, i).end + After(text, i)
  {
    var end := BlankLine(text, i).value;
    forall k: nat ensures BlankLine(text[..i], k).None? {
      BlankLineStays(text[..i], text[i..], k);
      assert text[..i] + text[i..] == text;
    }
    assert text[i..] == end + text[i + |end|..];
  }

  /** A blank line inside `a` is one in `a + b`. */
  lemma BlankLineStays(a: string, b: string, k: nat)
    ensures BlankLine(a, k).Some? ==> BlankLine(a + b, k) == BlankLine(a, k)
  {
    if BlankLine(a, k).Some? {
      var t := BlankLine(a, k).value;
      assert (a + b)[k..k + |t|] == a[k..k + |t|];
      assert t == CRLF ==> (a + b)[k] == '\r' && LF[0] == '\n';
      assert t == CRLF ==> !At(a + b, LF, k) by {
        if At(a + b, LF, k) { assert (a + b)[k..k + 2][0] == (a + b)[k]; }
      }
    }
  }

  lemma AtInside(a: string, b: string, t: string, k: nat)
    requires k + |t| <= |a|
    ensures At(a + b, t, k) <==> At(a, t, k)
  {
    assert (a + b)[k..k + |t|] == a[k..k + |t|];
  }

  /** More text never moves the end of a frame that is already complete. */
  lemma FrameEndStays(a: string, b: string)
    requires IndexOfFrameEnd(a) >= 0
    ensures IndexOfFrameEnd(a + b) == IndexOfFrameEnd(a)
    ensures BlankLine(a + b, IndexOfFrameEnd(a)) == BlankLine(a, IndexOfFrameEnd(a))
  {
    var i, whole := IndexOfFrameEnd(a), a + b;
    BlankLineStays(a, b, i);
    forall k: nat | k < i ensures BlankLine(whole, k).None? {
      assert BlankLine(a, k).None?;
      BlankLineIsChars(a, i);
      AtInside(a, b, LF, k);
      CrlfIsInside(a, b, k, i);
    }
  }

  lemma BlankLineIsChars(a: string, i: nat)
    requires BlankLine(a, i).Some?
    ensures i + 2 <= |a|
    ensures (a[i] == '\n' && a[i + 1] == '\n') || (i + 4 <= |a| && a[i] == '\r' && a[i + 1] == '\n')
  {
    var end := BlankLine(a, i).value;
    assert a[i..i + |end|][0] == a[i] && a[i..i + |end|][1] == a[i + 1];
  }

  /** A CRLF blank line cannot begin before a complete one and end past it. */
  lemma CrlfIsInside(a: string, b: string, k: nat, i: nat)
    requires k < i && BlankLine(a, i).Some?
    ensures At(a + b, CRLF, k) ==> At(a, CRLF, k)
  {
    BlankLineIsChars(a, i);
    var whole := a + b;
    assert whole[i] == a[i] && whole[i + 1] == a[i + 1];
    assert At(whole, CRLF, k) ==> whole[k..k + 4][1] == whole[k + 1] && whole[k..k + 4][2] == whole[k + 2];
    if k + 4 <= |a| { AtInside(a, b, CRLF, k); }
  }

  /** The heart of chunk independence: what waits, then more text. */
  lemma {:induction false} FramesConcat(a: string, b: string)
    ensures var (fa, ra) := Frames(a); var (fb, rb) := Frames(ra + b);
      Frames(a + b) == (fa + fb, rb)
    decreases |a|
  {
    hide BlankLine, IndexOfFrameEnd, FrameAt, After;
    var i := IndexOfFrameEnd(a);
    if i >= 0 {
      FirstFrameStays(a, b);
      FramesConcat(After(a, i), b);
      var (fa, ra) := Frames(After(a, i));
      var (fb, rb) := Frames(ra + b);
      assert [FrameAt(a, i)] + (fa + fb) == ([FrameAt(a, i)] + fa) + fb;
    } else {
      assert [] + Frames(a + b).0 == Frames(a + b).0;
    }
  }

  lemma FirstFrameStays(a: string, b: string)
    requires IndexOfFrameEnd(a) >= 0
    ensures var i := IndexOfFrameEnd(a);
      IndexOfFrameEnd(a + b) == i && FrameAt(a + b, i) == FrameAt(a, i) && After(a + b, i) == After(a, i) + b
  {
    var i := IndexOfFrameEnd(a);
    FrameEndStays(a, b);
    var end := BlankLine(a, i).value;
    assert (a + b)[i + |end|..] == a[i + |end|..] + b && (a + b)[..i] == a[..i];
  }

  function Concat(chunks: seq<string>): string {
    if chunks == [] then "" else Concat(chunks[..|chunks| - 1]) + chunks[|chunks| - 1]
  }

  /** One connection's buffer, and the frames it has passed on. */
  class FrameReader {
    var buffer: string
    var handled: seq<Frame>

    constructor ()
      ensures buffer == "" && handled == []
    {
      buffer, handled := "", [];
    }

    /** The body of `connectOnce`'s loop: one chunk arrives. */
    method Feed(chunk: string)
      modifies this
      ensures old(handled) <= handled
      ensures Frames(old(buffer) + chunk) == (handled[|old(handled)|..], buffer)
    {
      hide BlankLine, IndexOfFrameEnd, FrameAt, After, DropBlankLine;
      buffer := buffer + chunk;
      ghost var whole := buffer;
      var split := IndexOfFrameEnd(buffer);
      assert handled[|old(handled)|..] + Frames(whole).0 == Frames(whole).0;
      while split >= 0
        invariant -1 <= split == IndexOfFrameEnd(buffer) && old(handled) <= handled
        invariant var (frames, rest) := Frames(buffer);
          Frames(whole) == (handled[|old(handled)|..] + frames, rest)
        decreases |buffer|
      {
        ghost var before := handled[|old(handled)|..];
        DropsTheBlankLine(buffer, split);
        var frame := FrameAt(buffer, split);
        buffer := DropBlankLine(buffer[split..]);
        handled := handled + [frame];
        assert handled[|old(handled)|..] == before + [frame];
        assert before + ([frame] + Frames(buffer).0) == (before + [frame]) + Frames(buffer).0;
        split := IndexOfFrameEnd(buffer);
      }
      assert handled[|old(handled)|..] + Frames(buffer).0 == handled[|old(handled)|..];
    }

    /** A connection from its first chunk to its last: the frames are the whole text's. */
    method FeedAll(chunks: seq<string>)
      requires buffer == ""
      modifies this
      ensures old(handled) <= handled
      ensures Frames(Concat(chunks)) == (handled[|old(handled)|..], buffer)
    {
      hide BlankLine, FrameAt, After;
      assert chunks[..0] == [] && handled[|old(handled)|..] == [];
      assert IndexOfFrameEnd("") < 0;
      for n := 0 to |chunks|
        invariant old(handled) <= handled
        invariant Frames(Concat(chunks[..n])) == (handled[|old(handled)|..], buffer)
      {
        ghost var before := handled;
        FramesConcat(Concat(chunks[..n]), chunks[n]);
        assert chunks[..n + 1][..n] == chunks[..n];
        Feed(chunks[n]);
        assert handled[|old(handled)|..] == before[|old(handled)|..] + handled[|before|..];
      }
      assert chunks[..|chunks|] == chunks;
    }
  }

  /** Chunk independence: two ways of cutting one text give the same frames and the same wait. */
  method TwoConnections(left: seq<string>, right: seq<string>) returns (a: FrameReader, b: FrameReader)
    requires Concat(left) == Concat(right)
    ensures a.handled == b.handled && a.buffer == b.buffer
  {
    a := new FrameReader();
    a.FeedAll(left);
    b := new FrameReader();
    b.FeedAll(right);
  }
}
