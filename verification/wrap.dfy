/** The character-granular line breaker of the card renderer (`_wrap_text`):
    each hard line of the text is trimmed, a leading bullet glyph is replaced
    by the canonical marker, and the result is cut greedily into lines that
    fit a pixel budget according to a width oracle. */
module Wrap {
  import opened Text

  /** The rendered width of a string in one font and size (Pillow's
      `draw.textlength`). Nothing is assumed about it, not even that a longer
      string is wider. */
  type Width = String -> real

  predicate IsBulletGlyph(c: char) {
    c == '-' || c == '*' || c == '•' || c == '·'
  }

  /** The canonical bullet marker. */
  const Bullet: String := "• "

  /** `re.sub(r"^[-*•·]\s*", "• ", s)`: one leading bullet glyph, together
      with the whitespace that follows it, becomes the canonical marker. */
  function NormalizeBullet(s: String): String {
    if s != [] && IsBulletGlyph(s[0]) then Bullet + LStrip(s[1..]) else s
  }

  /** The text one raw line contributes: trimmed, then bullet-normalised. */
  function Paragraph(raw: String): String {
    NormalizeBullet(Strip(raw))
  }

  /** Every prefix of two or more characters fits the budget: each
      character after the first was appended because the longer line was
      measured and still fit. */
  ghost predicate PrefixesFit(width: Width, maxWidth: int, line: String) {
    forall k :: 2 <= k <= |line| ==> width(line[..k]) <= maxWidth as real
  }

  /** `lines` is a greedy breaking of `p`: the lines run together give `p`,
      none is empty, every line was built by accepted extensions, and every
      line was closed because adding the next line's first character would
      have overflowed. */
  ghost predicate IsGreedyBreaking(width: Width, maxWidth: int, p: String, lines: seq<String>) {
    && Concat(lines) == p
    && (forall i :: 0 <= i < |lines| ==> lines[i] != [] && PrefixesFit(width, maxWidth, lines[i]))
    && (forall i :: 0 <= i < |lines| - 1 ==> width(lines[i] + [lines[i + 1][0]]) > maxWidth as real)
  }

  /** The inner loop of `_wrap_text`, with `current` the line being built
      and `rest` the characters not yet looked at. */
  function Greedy(width: Width, maxWidth: int, current: String, rest: String): (lines: seq<String>)
    requires PrefixesFit(width, maxWidth, current)
    ensures IsGreedyBreaking(width, maxWidth, current + rest, lines)
    ensures current != [] ==> lines != [] && StartsWith(lines[0], current)
    decreases |rest|
  {
    if rest == [] then
      (if current == [] then [] else [current])
    else
      var c := rest[0];
      var test := current + [c];
      assert current + rest == test + rest[1..];
      if width(test) <= maxWidth as real then
        PrefixesFitExtend(width, maxWidth, current, c);
        Greedy(width, maxWidth, test, rest[1..])
      else
        var tail := Greedy(width, maxWidth, [c], rest[1..]);
        assert [c] + rest[1..] == rest;
        assert tail[0][0] == c;
        if current == [] then
          tail
        else
          GreedyClose(width, maxWidth, current, rest, tail);
          [current] + tail
  }

  /** An extension that fits keeps every prefix fitting. */
  lemma {:induction false} PrefixesFitExtend(width: Width, maxWidth: int, current: String, c: char)
    requires PrefixesFit(width, maxWidth, current)
    requires width(current + [c]) <= maxWidth as real
    ensures PrefixesFit(width, maxWidth, current + [c])
  {
    var test := current + [c];
    forall k | 2 <= k <= |test|
      ensures width(test[..k]) <= maxWidth as real
    {
      if k <= |current| {
        assert test[..k] == current[..k];
      } else {
        assert test[..k] == test;
      }
    }
  }

  /** Closing `current` because its extension overflows, in front of a
      greedy breaking of the rest, gives a greedy breaking of the whole. */
  lemma {:induction false} GreedyClose(width: Width, maxWidth: int, current: String, more: String, tail: seq<String>)
    requires current != [] && PrefixesFit(width, maxWidth, current)
    requires more != [] && width(current + [more[0]]) > maxWidth as real
    requires IsGreedyBreaking(width, maxWidth, more, tail)
    requires tail != [] && tail[0][0] == more[0]
    ensures IsGreedyBreaking(width, maxWidth, current + more, [current] + tail)
  {
    var lines := [current] + tail;
    assert lines[1..] == tail;
    assert Concat(lines) == current + Concat(tail);
    forall i | 0 <= i < |lines|
      ensures lines[i] != [] && PrefixesFit(width, maxWidth, lines[i])
    {
      if i > 0 {
        assert lines[i] == tail[i - 1];
      }
    }
    forall i | 0 <= i < |lines| - 1
      ensures width(lines[i] + [lines[i + 1][0]]) > maxWidth as real
    {
      if i > 0 {
        assert lines[i] == tail[i - 1] && lines[i + 1] == tail[i];
      }
    }
  }

  /** The lines one paragraph wraps into. */
  function WrapParagraph(width: Width, maxWidth: int, p: String): (lines: seq<String>)
    ensures IsGreedyBreaking(width, maxWidth, p, lines)
  {
    Greedy(width, maxWidth, [], p)
  }

  /** A line is non-empty and either fits the budget or is one character
      that is too wide on its own. */
  ghost predicate Admissible(width: Width, maxWidth: int, line: String) {
    line != [] && (|line| == 1 || width(line) <= maxWidth as real)
  }

  /** `_wrap_text`: each hard line of `text` is wrapped on its own and the
      results are listed in order. */
  function WrapText(width: Width, maxWidth: int, text: String): (lines: seq<String>)
    ensures forall i :: 0 <= i < |lines| ==> Admissible(width, maxWidth, lines[i])
  {
    WrapParagraphs(width, maxWidth, Split(text, '\n'))
  }

  function WrapParagraphs(width: Width, maxWidth: int, raws: seq<String>): (lines: seq<String>)
    ensures forall i :: 0 <= i < |lines| ==> Admissible(width, maxWidth, lines[i])
  {
    if raws == [] then []
    else
      var head := WrapParagraph(width, maxWidth, Paragraph(raws[0]));
      assert forall i :: 0 <= i < |head| ==> Admissible(width, maxWidth, head[i]) by {
        forall i | 0 <= i < |head|
          ensures Admissible(width, maxWidth, head[i])
        {
          assert PrefixesFit(width, maxWidth, head[i]);
          assert head[i][..|head[i]|] == head[i];
        }
      }
      head + WrapParagraphs(width, maxWidth, raws[1..])
  }

  // ---------------------------------------------------------------- lemmas

  lemma {:induction false} ConcatEmpty(lines: seq<String>)
    requires forall i :: 0 <= i < |lines| ==> lines[i] != []
    ensures Concat(lines) == [] <==> lines == []
  {
    if lines != [] {
      assert |Concat(lines)| >= |lines[0]|;
    }
  }

  /** Greedy breaking is deterministic: a paragraph has exactly one
      breaking with the greedy properties. */
  lemma {:induction false} GreedyBreakingUnique(width: Width, maxWidth: int, p: String, a: seq<String>, b: seq<String>)
    requires IsGreedyBreaking(width, maxWidth, p, a)
    requires IsGreedyBreaking(width, maxWidth, p, b)
    ensures a == b
    decreases |p|
  {
    ConcatEmpty(a);
    ConcatEmpty(b);
    if a != [] {
      SameFirstLine(width, maxWidth, p, a, b);
      var p' := p[|a[0]|..];
      GreedyTail(width, maxWidth, p, a);
      GreedyTail(width, maxWidth, p, b);
      GreedyBreakingUnique(width, maxWidth, p', a[1..], b[1..]);
      assert a == [a[0]] + a[1..] && b == [b[0]] + b[1..];
    }
  }

  /** Two greedy breakings of a non-empty paragraph open with the same line. */
  lemma {:induction false} SameFirstLine(width: Width, maxWidth: int, p: String, a: seq<String>, b: seq<String>)
    requires IsGreedyBreaking(width, maxWidth, p, a)
    requires IsGreedyBreaking(width, maxWidth, p, b)
    requires a != [] && b != []
    ensures a[0] == b[0]
  {
    var x, y := a[0], b[0];
    assert p == x + Concat(a[1..]) && p == y + Concat(b[1..]);
    assert x == p[..|x|] && y == p[..|y|];
    if |x| < |y| {
      FirstLineMaximal(width, maxWidth, p, a, y);
      assert false;
    } else if |y| < |x| {
      FirstLineMaximal(width, maxWidth, p, b, x);
      assert false;
    }
  }

  /** Past its first line, a greedy breaking is a greedy breaking of the
      rest of the paragraph. */
  lemma {:induction false} GreedyTail(width: Width, maxWidth: int, p: String, a: seq<String>)
    requires IsGreedyBreaking(width, maxWidth, p, a)
    requires a != []
    ensures |a[0]| <= |p|
    ensures IsGreedyBreaking(width, maxWidth, p[|a[0]|..], a[1..])
  {
    assert p == a[0] + Concat(a[1..]);
    assert p[|a[0]|..] == Concat(a[1..]);
    forall i | 0 <= i < |a[1..]|
      ensures a[1..][i] != [] && PrefixesFit(width, maxWidth, a[1..][i])
    {
      assert a[1..][i] == a[i + 1];
    }
    forall i | 0 <= i < |a[1..]| - 1
      ensures width(a[1..][i] + [a[1..][i + 1][0]]) > maxWidth as real
    {
      assert a[1..][i] == a[i + 1] && a[1..][i + 1] == a[i + 2];
    }
  }

  /** A greedy breaking closes its first line at the first place an
      extension overflows: no longer prefix of the paragraph has all its
      extensions fitting. */
  lemma {:induction false} FirstLineMaximal(width: Width, maxWidth: int, p: String, a: seq<String>, y: String)
    requires IsGreedyBreaking(width, maxWidth, p, a)
    requires a != [] && |a[0]| < |y| <= |p| && y == p[..|y|]
    ensures !PrefixesFit(width, maxWidth, y)
  {
    var x := a[0];
    assert p == x + Concat(a[1..]);
    ConcatEmpty(a[1..]);
    assert |a| >= 2;
    assert Concat(a[1..]) == a[1] + Concat(a[2..]);
    assert a[1][0] == p[|x|];
    assert y[..|x| + 1] == x + [a[1][0]];
  }

  /** The greedy breaking is the only one: `WrapParagraph` returns exactly
      the breakings that have the greedy properties. */
  lemma {:induction false} WrapParagraphCharacterised(width: Width, maxWidth: int, p: String, lines: seq<String>)
    ensures IsGreedyBreaking(width, maxWidth, p, lines) <==> lines == WrapParagraph(width, maxWidth, p)
  {
    if IsGreedyBreaking(width, maxWidth, p, lines) {
      GreedyBreakingUnique(width, maxWidth, p, lines, WrapParagraph(width, maxWidth, p));
    }
  }

  /** A hard line break always starts a new line: the lines of the first
      raw line come first, then those of the remaining text. */
  lemma {:induction false} WrapTextByParagraph(width: Width, maxWidth: int, first: String, rest: String)
    requires '\n' !in first
    ensures WrapText(width, maxWidth, first + "\n" + rest)
         == WrapParagraph(width, maxWidth, Paragraph(first)) + WrapText(width, maxWidth, rest)
  {
    SplitCons(first, '\n', rest);
    var raws := Split(first + "\n" + rest, '\n');
    assert raws[1..] == Split(rest, '\n');
  }

  /** A blank raw line contributes no line at all. */
  lemma {:induction false} BlankLineEmitsNothing(width: Width, maxWidth: int, raw: String)
    requires AllSpace(raw)
    ensures WrapParagraph(width, maxWidth, Paragraph(raw)) == []
  {
    LStripAllSpace(raw);
  }

  /** Bullet normalisation runs before the emptiness test, so a line that
      is only a dash becomes the non-empty paragraph "• ". */
  lemma {:induction false} DashAloneBecomesBullet(width: Width, maxWidth: int)
    ensures Paragraph("-") == "• "
    ensures Concat(WrapText(width, maxWidth, "-")) == "• "
  {
    DashParagraph();
    SplitNoSep("-", '\n');
    SingleRawLine(width, maxWidth, "-");
  }

  /** A text without a line break wraps as its one paragraph. */
  lemma {:induction false} SingleRawLine(width: Width, maxWidth: int, raw: String)
    requires Split(raw, '\n') == [raw]
    ensures WrapText(width, maxWidth, raw) == WrapParagraph(width, maxWidth, Paragraph(raw))
  {
    var lines := WrapParagraph(width, maxWidth, Paragraph(raw));
    assert [raw][1..] == [];
    assert WrapParagraphs(width, maxWidth, [raw]) == lines + WrapParagraphs(width, maxWidth, []);
    assert lines + [] == lines;
  }

  lemma {:induction false} DashParagraph()
    ensures Paragraph("-") == "• "
  {
    GlyphAlone('-');
  }

  /** A line holding just a bullet glyph becomes the bare marker. */
  lemma {:induction false} GlyphAlone(c: char)
    requires IsBulletGlyph(c)
    ensures Paragraph([c]) == Bullet
  {
    var s := [c];
    assert !IsSpace(s[0]);
    StripOfTrimmed(s);
    assert s[1..] == [];
    EmptyLStrip();
    assert NormalizeBullet(s) == Bullet + [];
  }

  lemma {:induction false} EmptyLStrip()
    ensures LStrip([]) == []
  {
  }

  /** `*` counts as a bullet glyph, so bold markup at the start of a line
      loses its first asterisk to the marker. */
  lemma {:induction false} StarLosesToBullet(s: String)
    requires |s| >= 2 && s[0] == '*' && !IsSpace(s[1]) && !IsSpace(s[|s| - 1])
    ensures Paragraph(s) == Bullet + s[1..]
  {
    StripOfTrimmed(s);
    var t := s[1..];
    assert t[0] == s[1];
    assert LStrip(t) == t;
  }

  lemma {:induction false} BoldLosesAsterisk(s: String)
    requires s == "**bold**"
    ensures Paragraph(s) == "• *bold**"
  {
    assert s[0] == '*' && s[1] == '*' && s[|s| - 1] == '*';
    StarLosesToBullet(s);
    assert s[1..] == "*bold**";
  }
}
