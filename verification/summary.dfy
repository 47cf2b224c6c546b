/** Parsing of an investment summary document into a title and a map of
    sections (`parse_summary` of the card renderer). */
module SummaryParse {
  import opened Results
  import opened Text

  /** The title used when the document has no top-level heading. */
  const DefaultTitle: String := "投資摘要"

  datatype Summary = Summary(title: String, sections: map<String, String>)

  // ------------------------------------------------------------ frontmatter
  // `re.sub(r"^---.*?---\s*\n", "", text, flags=re.DOTALL)`: the anchor
  // only matches at the start of the text, the lazy `.*?` picks the first
  // closing `---` after which `\s*\n` can match, and the greedy `\s*` runs
  // to the last newline of the whitespace that follows it.

  /** The end of the run of whitespace that starts at `k`. */
  function SpaceRunEnd(text: String, k: nat): (e: nat)
    requires k <= |text|
    ensures k <= e <= |text|
    ensures forall i :: k <= i < e ==> IsSpace(text[i])
    ensures e == |text| || !IsSpace(text[e])
    decreases |text| - k
  {
    if k < |text| && IsSpace(text[k]) then SpaceRunEnd(text, k + 1) else k
  }

  /** The last newline in `text[k..e]`, as the index just after it. */
  function LastNewline(text: String, k: nat, e: nat): (r: Option<nat>)
    requires k <= e <= |text|
    ensures r.Some? ==> k < r.value <= e && text[r.value - 1] == '\n'
    ensures r.Some? ==> forall i :: r.value <= i < e ==> text[i] != '\n'
    ensures r.None? ==> forall i :: k <= i < e ==> text[i] != '\n'
    decreases e - k
  {
    if e == k then None
    else if text[e - 1] == '\n' then Some(e)
    else LastNewline(text, k, e - 1)
  }

  /** Where `\s*\n` matching at `k` ends, if it matches there at all. */
  function SpaceNewlineEnd(text: String, k: nat): (r: Option<nat>)
    requires k <= |text|
    ensures r.Some? ==> k < r.value <= |text| && text[r.value - 1] == '\n'
    ensures r.Some? ==> AllSpace(text[k..r.value])
  {
    var e := SpaceRunEnd(text, k);
    var r := LastNewline(text, k, e);
    assert r.Some? ==> AllSpace(text[k..r.value]) by {
      if r.Some? {
        forall i | 0 <= i < r.value - k
          ensures IsSpace(text[k..r.value][i])
        {
          assert text[k..r.value][i] == text[k + i];
        }
      }
    }
    r
  }

  /** Where the frontmatter ends if its closing `---` is at `j`. */
  function CloseAt(text: String, j: nat): Option<nat> {
    if OccursAt(text, "---", j) then SpaceNewlineEnd(text, j + 3) else None
  }

  /** The first closing `---` at or after `j` that is followed by
      whitespace containing a newline, and where the match ends. */
  function SearchClose(text: String, j: nat): (r: Option<(nat, nat)>)
    ensures r.Some? ==> j <= r.value.0 && CloseAt(text, r.value.0) == Some(r.value.1)
    ensures r.Some? ==> forall j' :: j <= j' < r.value.0 ==> CloseAt(text, j').None?
    ensures r.None? ==> forall j' :: j <= j' ==> CloseAt(text, j').None?
    decreases |text| - j
  {
    if j + 3 > |text| then None
    else match CloseAt(text, j)
      case Some(e) => Some((j, e))
      case None => SearchClose(text, j + 1)
  }

  /** The text with a leading frontmatter block removed. Only a block at
      the very start is removed, and what is removed ends with a newline. */
  function StripFrontmatter(text: String): (r: String)
    ensures |r| <= |text| && r == text[|text| - |r|..]
    ensures !StartsWith(text, "---") ==> r == text
    ensures r != text ==> StartsWith(text, "---") && 7 <= |text| - |r| && text[|text| - |r| - 1] == '\n'
  {
    if !StartsWith(text, "---") then text
    else match SearchClose(text, 3)
      case None => text
      case Some((j, e)) => text[e..]
  }

  // ------------------------------------------------------------ title

  /** A line `^# (.+)$` matches: "# " and at least one more character. */
  predicate IsTitleLine(line: String) {
    |line| >= 3 && line[..2] == "# "
  }

  /** The index of the first title line. */
  function FirstTitleIndex(lines: seq<String>): (r: Option<nat>)
    ensures r.Some? ==> r.value < |lines| && IsTitleLine(lines[r.value])
    ensures r.Some? ==> forall j :: 0 <= j < r.value ==> !IsTitleLine(lines[j])
    ensures r.None? ==> forall j :: 0 <= j < |lines| ==> !IsTitleLine(lines[j])
  {
    if lines == [] then None
    else if IsTitleLine(lines[0]) then Some(0)
    else match FirstTitleIndex(lines[1..])
      case None => None
      case Some(i) => Some(i + 1)
  }

  /** The trimmed text of the first `# ` heading, or the default title. */
  function TitleOf(text: String): String {
    var lines := Split(text, '\n');
    match FirstTitleIndex(lines)
    case Some(i) => Strip(lines[i][2..])
    case None => DefaultTitle
  }

  /** The title is the trimmed text of the first `# ` line, or the default
      title when no line is one. */
  lemma {:induction false} TitleOfFirstTitleLine(text: String, lines: seq<String>, i: nat)
    requires lines == Split(text, '\n')
    requires i < |lines| && IsTitleLine(lines[i])
    requires forall j :: 0 <= j < i ==> !IsTitleLine(lines[j])
    ensures TitleOf(text) == Strip(lines[i][2..])
  {
    var r := FirstTitleIndex(lines);
    assert r.Some?;
    assert r.value == i;
  }

  lemma {:induction false} TitleOfNoTitleLine(text: String, lines: seq<String>)
    requires lines == Split(text, '\n')
    requires forall j :: 0 <= j < |lines| ==> !IsTitleLine(lines[j])
    ensures TitleOf(text) == DefaultTitle
  {
  }

  // ------------------------------------------------------------ links

  datatype Link = Link(caption: String, target: String, length: nat)

  /** The `[text](target)` link that `\[([^\]]+)\]\([^)]+\)` matches at
      the start of `s`, if any: the caption runs to the first `]`, the
      target to the first `)`, and neither may be empty. */
  function LinkAt(s: String): (r: Option<Link>)
    ensures r.Some? ==> var l := r.value;
      && l.caption != [] && ']' !in l.caption
      && l.target != [] && ')' !in l.target
      && l.length == |l.caption| + |l.target| + 4 <= |s|
  {
    if |s| < 2 || s[0] != '[' then None
    else match IndexOf(s[1..], ']')
      case None => None
      case Some(k) =>
        var open := k + 2;
        if k == 0 || open >= |s| || s[open] != '(' then None
        else match IndexOf(s[open + 1..], ')')
          case None => None
          case Some(m) =>
            if m == 0 then None
            else
              var caption := s[1..k + 1];
              var target := s[open + 1..open + 1 + m];
              assert caption == s[1..][..k];
              assert target == s[open + 1..][..m];
              Some(Link(caption, target, open + m + 2))
  }

  /** What `LinkAt` matches is the link markup at the start of `s`. */
  lemma {:induction false} LinkAtShape(s: String)
    requires LinkAt(s).Some?
    ensures var l := LinkAt(s).value;
      s[..l.length] == "[" + l.caption + "](" + l.target + ")"
  {
    var k := IndexOf(s[1..], ']').value;
    var m := IndexOf(s[k + 3..], ')').value;
    var l := LinkAt(s).value;
    assert l.caption == s[1..k + 1] && l.target == s[k + 3..k + 3 + m];
    var p := s[..l.length];
    SliceOfPrefix(s, l.length, 1, k + 1);
    SliceOfPrefix(s, l.length, k + 3, k + 3 + m);
    assert p[k + 1] == s[1..][k] == ']';
    assert p[k + 3 + m] == s[k + 3..][m] == ')';
    LinkMarkup(p, l.caption, l.target);
  }

  lemma {:induction false} SliceOfPrefix(s: String, n: nat, a: nat, b: nat)
    requires a <= b <= n <= |s|
    ensures s[..n][a..b] == s[a..b]
  {
    forall i | 0 <= i < b - a
      ensures s[..n][a..b][i] == s[a..b][i]
    {
      assert s[..n][a..b][i] == s[..n][a + i] == s[a + i];
    }
  }

  lemma {:induction false} LinkMarkup(p: String, caption: String, target: String)
    requires |p| == |caption| + |target| + 4
    requires p[0] == '[' && p[1..|caption| + 1] == caption && p[|caption| + 1] == ']'
    requires p[|caption| + 2] == '(' && p[|caption| + 3..|caption| + 3 + |target|] == target
    requires p[|p| - 1] == ')'
    ensures p == "[" + caption + "](" + target + ")"
  {
    var q := "[" + caption + "](" + target + ")";
    forall i | 0 <= i < |p|
      ensures p[i] == q[i]
    {
      if 1 <= i < |caption| + 1 {
        assert p[i] == p[1..|caption| + 1][i - 1];
      } else if |caption| + 3 <= i < |caption| + 3 + |target| {
        assert p[i] == p[|caption| + 3..|caption| + 3 + |target|][i - |caption| - 3];
      }
    }
  }

  /** `re.sub(r"\[([^\]]+)\]\([^)]+\)", r"\1", s)`: every link, scanning
      left to right, replaced by its caption. */
  function RewriteLinks(s: String): (r: String)
    ensures |r| <= |s|
    decreases |s|
  {
    if s == [] then []
    else match LinkAt(s)
      case Some(l) => l.caption + RewriteLinks(s[l.length..])
      case None => [s[0]] + RewriteLinks(s[1..])
  }

  // ------------------------------------------------------------ sections

  /** A line at which a section ends (the lookahead `^## `). */
  predicate StartsSection(line: String) {
    StartsWith(line, "## ")
  }

  /** A line that can open a section: "## " and at least one character. */
  predicate IsHeading(line: String) {
    |line| >= 4 && line[..3] == "## "
  }

  /** A section as found in the text: its heading text and its raw body. */
  datatype Block = Block(heading: String, body: String)

  /** The number of lines before the next line that starts a section. */
  function BodyLength(lines: seq<String>): (n: nat)
    ensures n <= |lines|
    ensures forall i :: 0 <= i < n ==> !StartsSection(lines[i])
    ensures n < |lines| ==> StartsSection(lines[n])
  {
    if lines == [] || StartsSection(lines[0]) then 0
    else 1 + BodyLength(lines[1..])
  }

  /** The sections of a text given as its lines, in document order: a
      heading line that is followed by a newline opens a section whose body
      runs up to the next line that starts with "## " or to the end. The
      newline in front of that next line is left out of the body; it is
      whitespace and would be trimmed anyway. */
  function Blocks(lines: seq<String>): seq<Block>
    decreases |lines|
  {
    if |lines| < 2 then []
    else if IsHeading(lines[0]) then
      var n := BodyLength(lines[1..]);
      [Block(lines[0][3..], Join(lines[1..1 + n], "\n"))] + Blocks(lines[1 + n..])
    else
      Blocks(lines[1..])
  }

  /** Every block comes from a "## " heading line of the text. */
  lemma {:induction false} BlockHeadings(lines: seq<String>)
    ensures forall b :: b in Blocks(lines) ==> "## " + b.heading in lines
    decreases |lines|
  {
    if |lines| >= 2 {
      var k := if IsHeading(lines[0]) then 1 + BodyLength(lines[1..]) else 1;
      var rest := Blocks(lines[k..]);
      BlockHeadings(lines[k..]);
      forall b | b in rest
        ensures "## " + b.heading in lines
      {
        InSuffix(lines, k, "## " + b.heading);
      }
      if IsHeading(lines[0]) {
        var first := Block(lines[0][3..], Join(lines[1..k], "\n"));
        assert lines[0] == "## " + first.heading;
        assert Blocks(lines) == [first] + rest;
      } else {
        assert Blocks(lines) == rest;
      }
    }
  }

  lemma {:induction false} InSuffix<T>(s: seq<T>, k: nat, x: T)
    requires k <= |s| && x in s[k..]
    ensures x in s
  {
    var i :| 0 <= i < |s[k..]| && s[k..][i] == x;
    assert s[k + i] == x;
  }

  /** A section as stored: trimmed heading and trimmed body. */
  datatype Entry = Entry(key: String, value: String)

  function Entries(blocks: seq<Block>): (r: seq<Entry>)
    ensures |r| == |blocks|
    ensures forall i :: 0 <= i < |blocks| ==> r[i] == Entry(Strip(blocks[i].heading), Strip(blocks[i].body))
  {
    if blocks == [] then [] else [Entry(Strip(blocks[0].heading), Strip(blocks[0].body))] + Entries(blocks[1..])
  }

  /** The last entry with key `k` and a non-empty value. */
  function LastWith(entries: seq<Entry>, k: String): (r: Option<nat>)
    ensures r.Some? ==> r.value < |entries| && entries[r.value].key == k && entries[r.value].value != []
    ensures r.Some? ==> forall j :: r.value < j < |entries| ==> entries[j].key != k || entries[j].value == []
    ensures r.None? ==> forall j :: 0 <= j < |entries| ==> entries[j].key != k || entries[j].value == []
  {
    if entries == [] then None
    else
      var last := entries[|entries| - 1];
      if last.key == k && last.value != [] then Some(|entries| - 1)
      else LastWith(entries[..|entries| - 1], k)
  }

  /** The sections dictionary built from the entries in order: entries
      whose value is empty are dropped, and a repeated heading overwrites
      the value stored for it before. */
  function SectionsOf(entries: seq<Entry>): (m: map<String, String>)
    ensures forall k :: k in m <==> LastWith(entries, k).Some?
    ensures forall k :: k in m ==> m[k] == entries[LastWith(entries, k).value].value
  {
    if entries == [] then map[]
    else
      var last := entries[|entries| - 1];
      var m := SectionsOf(entries[..|entries| - 1]);
      if last.value != [] then m[last.key := last.value] else m
  }

  /** The `## ` sections of a text (as the parser evidently means them:
      each heading takes one line). */
  function Sections(text: String): (m: map<String, String>)
    ensures forall k :: k in m ==> m[k] != [] && !IsSpace(m[k][0]) && !IsSpace(m[k][|m[k]| - 1])
  {
    SectionsOf(Entries(Blocks(Split(text, '\n'))))
  }

  /** `parse_summary` on the text of a summary file. The title is read
      before links are rewritten, so it keeps any link markup; the
      sections are read after. */
  function ParseSummary(text: String): Summary {
    var body := StripFrontmatter(text);
    Summary(TitleOf(body), Sections(RewriteLinks(body)))
  }

  // ------------------------------------------------------------ as written

  /** The index of the first line that starts with "## ". */
  function FirstSectionStart(lines: seq<String>): (r: Option<nat>)
    ensures r.Some? ==> r.value < |lines| && StartsSection(lines[r.value])
    ensures r.Some? ==> forall j :: 0 <= j < r.value ==> !StartsSection(lines[j])
    ensures r.None? ==> forall j :: 0 <= j < |lines| ==> !StartsSection(lines[j])
  {
    if lines == [] then None
    else if StartsSection(lines[0]) then Some(0)
    else match FirstSectionStart(lines[1..])
      case None => None
      case Some(i) => Some(i + 1)
  }

  /** The section search exactly as the card renderer writes it:
      `re.finditer(r"^## (.+)\n(.*?)(?=^## |\Z)", text, re.M | re.S)`.
      Under DOTALL the greedy `(.+)` crosses newlines, so the heading of
      the first "## " line runs on to the LAST newline of the text and the
      value is only the final line (or nothing, when that line itself
      starts with "## "). At most one section is ever found. */
  function SectionsAsWritten(text: String): (m: map<String, String>)
    ensures |m| <= 1
  {
    var lines := Split(text, '\n');
    var n := |lines|;
    match FirstSectionStart(lines)
    case None => map[]
    case Some(i) =>
      if i + 1 >= n || (i + 2 == n && |lines[i]| == 3) then map[]
      else
        var heading := Join([lines[i][3..]] + lines[i + 1..n - 1], "\n");
        var value := if StartsSection(lines[n - 1]) then [] else lines[n - 1];
        if Strip(value) == [] then map[] else map[Strip(heading) := Strip(value)]
  }

  lemma {:induction false} SplitThreeLines(h: String, b: String)
    requires '\n' !in h && '\n' !in b
    ensures Split("## " + h + "\n" + b + "\n", '\n') == ["## " + h, b, ""]
  {
    var a := "## " + h;
    var c := b + "\n";
    assert '\n' !in a by {
      forall k | 0 <= k < |a|
        ensures a[k] != '\n'
      {
        if k >= 3 {
          assert a[k] == h[k - 3];
        }
      }
    }
    assert "## " + h + "\n" + b + "\n" == a + ['\n'] + c;
    SplitCons(a, '\n', c);
    assert c == b + ['\n'] + [];
    SplitCons(b, '\n', []);
    SplitNoSep([], '\n');
  }

  /** The discrepancy: a heading, one line of content and the final
      newline every saved summary ends with. The source as written finds
      no section at all (the heading swallows the content up to the final
      newline and the value is empty); the evident intent finds the one
      section with its content. */
  lemma {:induction false} AsWrittenLosesSections(h: String, b: String)
    requires h != [] && '\n' !in h && '\n' !in b
    requires !StartsSection(b) && Strip(b) != []
    ensures SectionsAsWritten("## " + h + "\n" + b + "\n") == map[]
    ensures Sections("## " + h + "\n" + b + "\n") == map[Strip(h) := Strip(b)]
  {
    AsWrittenFindsNothing(h, b);
    CorrectedFindsSection(h, b);
  }

  lemma {:induction false} AsWrittenFindsNothing(h: String, b: String)
    requires h != [] && '\n' !in h && '\n' !in b
    ensures SectionsAsWritten("## " + h + "\n" + b + "\n") == map[]
  {
    SplitThreeLines(h, b);
    var lines := ["## " + h, b, ""];
    assert StartsSection(lines[0]);
    assert FirstSectionStart(lines) == Some(0);
    assert !StartsSection("");
    assert Strip("") == [];
  }

  lemma {:induction false} CorrectedFindsSection(h: String, b: String)
    requires h != [] && '\n' !in h && '\n' !in b
    requires !StartsSection(b) && Strip(b) != []
    ensures Sections("## " + h + "\n" + b + "\n") == map[Strip(h) := Strip(b)]
  {
    var text := "## " + h + "\n" + b + "\n";
    SplitThreeLines(h, b);
    OneBlock(h, b);
    var e := OneEntry(h, b);
    SingleSection(e);
    assert Sections(text) == SectionsOf(Entries(Blocks(Split(text, '\n'))));
  }

  lemma {:induction false} OneEntry(h: String, b: String) returns (e: Entry)
    ensures e == Entry(Strip(h), Strip(b))
    ensures Entries([Block(h, b + "\n")]) == [e]
  {
    StripTrailingSpace(b, "\n");
    e := Entry(Strip(h), Strip(b));
  }

  lemma {:induction false} SingleSection(e: Entry)
    requires e.value != []
    ensures SectionsOf([e]) == map[e.key := e.value]
  {
    assert [e][..0] == [];
  }

  lemma {:induction false} OneBlock(h: String, b: String)
    requires h != [] && !StartsSection(b)
    ensures Blocks(["## " + h, b, ""]) == [Block(h, b + "\n")]
  {
    assert !StartsSection("");
    SectionBodyRunsToNextHeading(h, [b, ""], []);
    assert ["## " + h] + [b, ""] + [] == ["## " + h, b, ""];
    assert Join([b, ""], "\n") == b + "\n" by {
      assert Join([""], "\n") == "";
      assert [b, ""][1..] == [""];
    }
  }

  /** A concrete input that meets the hypotheses of
      `AsWrittenLosesSections`: the first section the summary prompt asks
      for, with one line of content. So "## 核心觀點\n重點一\n" parses to
      no sections as written and to one section once corrected. */
  lemma {:induction false} ExampleWords(h: String, b: String)
    requires h == "核心觀點" && b == "重點一"
    ensures h != [] && '\n' !in h && '\n' !in b
    ensures b != []
    ensures !StartsSection(b) && Strip(b) == b && Strip(h) == h
  {
    assert '\n' !in h && '\n' !in b;
    assert b[..3][0] == b[0] == '重';
    assert !StartsSection(b);
    StripOfTrimmed(h);
    StripOfTrimmed(b);
  }

  // ------------------------------------------------------------ lemmas

  lemma {:induction false} BodyLengthAppend(body: seq<String>, rest: seq<String>)
    requires forall i :: 0 <= i < |body| ==> !StartsSection(body[i])
    requires rest == [] || StartsSection(rest[0])
    ensures BodyLength(body + rest) == |body|
  {
    if body != [] {
      assert (body + rest)[1..] == body[1..] + rest;
      BodyLengthAppend(body[1..], rest);
    } else {
      assert body + rest == rest;
    }
  }

  /** A section's body is exactly the lines after its heading up to the
      next line that starts with "## " (or the end of the text). */
  lemma {:induction false} SectionBodyRunsToNextHeading(h: String, body: seq<String>, rest: seq<String>)
    requires h != []
    requires forall i :: 0 <= i < |body| ==> !StartsSection(body[i])
    requires rest == [] || StartsSection(rest[0])
    requires |body| + |rest| >= 1
    ensures Blocks(["## " + h] + body + rest) == [Block(h, Join(body, "\n"))] + Blocks(rest)
  {
    var lines := ["## " + h] + body + rest;
    assert lines[0] == "## " + h;
    assert lines[0][..3] == "## " && lines[0][3..] == h;
    assert lines[1..] == body + rest;
    BodyLengthAppend(body, rest);
    assert lines[1..1 + |body|] == body;
    assert lines[1 + |body|..] == rest;
  }

  /** Every section key is the trimmed text of some "## " heading line. */
  /** A line that is not a heading, in front of the text, adds no section. */
  lemma {:induction false} SectionsAfterOtherLine(x: String, y: String)
    requires '\n' !in x && !IsHeading(x)
    ensures Sections(x + "\n" + y) == Sections(y)
  {
    SplitCons(x, '\n', y);
    var lines := [x] + Split(y, '\n');
    assert lines[1..] == Split(y, '\n');
  }

  /** A summary holding a title line and one section parses to that title
      and that one section, both trimmed. */
  lemma {:induction false} ParsedSection(t: String, h: String, b: String)
    requires t != [] && '\n' !in t && '[' !in t
    requires h != [] && '\n' !in h && '[' !in h
    requires '\n' !in b && '[' !in b && !StartsSection(b) && Strip(b) != []
    ensures ParseSummary("# " + t + "\n" + ("## " + h + "\n" + b + "\n")) == Summary(Strip(t), map[Strip(h) := Strip(b)])
  {
    var sec := "## " + h + "\n" + b + "\n";
    assert '[' !in sec;
    PlainSummary(t, sec);
    TitleFromFirstLine(t, sec);
    TitleLineIsNoHeading(t);
    SectionsAfterOtherLine("# " + t, sec);
    CorrectedFindsSection(h, b);
  }

  /** Without frontmatter and without `[`, the parser reads the text as it is. */
  lemma {:induction false} PlainSummary(t: String, rest: String)
    requires '[' !in t && '[' !in rest
    ensures var text := "# " + t + "\n" + rest;
      ParseSummary(text) == Summary(TitleOf(text), Sections(text))
  {
    var text := "# " + t + "\n" + rest;
    assert !StartsWith(text, "---") by {
      assert text[0] == '#';
    }
    assert '[' !in text;
    NoBracketUnchanged(text);
  }

  lemma {:induction false} TitleLineIsNoHeading(t: String)
    ensures '\n' !in t ==> '\n' !in "# " + t
    ensures !IsHeading("# " + t)
  {
    var first := "# " + t;
    assert first[1] == ' ';
  }

  lemma {:induction false} SectionKeysAreHeadings(text: String, k: String)
    requires k in Sections(text)
    ensures exists h :: "## " + h in Split(text, '\n') && Strip(h) == k
  {
    var blocks := Blocks(Split(text, '\n'));
    BlockHeadings(Split(text, '\n'));
    var entries := Entries(blocks);
    var i := LastWith(entries, k).value;
    assert blocks[i] in blocks;
    assert Strip(blocks[i].heading) == k;
  }

  /** The title is the trimmed text of the first line when that line is a
      top-level heading. */
  lemma {:induction false} TitleFromFirstLine(h: String, rest: String)
    requires h != [] && '\n' !in h
    ensures TitleOf("# " + h + "\n" + rest) == Strip(h)
  {
    assert '\n' !in "# " + h;
    SplitCons("# " + h, '\n', rest);
    var lines := Split("# " + h + "\n" + rest, '\n');
    assert lines[0] == "# " + h;
    assert IsTitleLine(lines[0]);
    assert lines[0][2..] == h;
  }

  /** The title is taken before links are rewritten: whatever the first
      heading holds, link markup included, is the title. */
  lemma {:induction false} TitleKeepsLinkMarkup(h: String, rest: String)
    requires h != [] && '\n' !in h
    ensures ParseSummary("# " + h + "\n" + rest).title == Strip(h)
  {
    var text := "# " + h + "\n" + rest;
    assert !StartsWith(text, "---") by {
      assert text[0] == '#';
    }
    TitleFromFirstLine(h, rest);
  }

  /** A link collapses to its text. */
  lemma {:induction false} LinkCollapses(t: String, u: String, rest: String)
    requires t != [] && ']' !in t && u != [] && ')' !in u
    ensures RewriteLinks("[" + t + "](" + u + ")" + rest) == t + RewriteLinks(rest)
  {
    var s := "[" + t + "](" + u + ")" + rest;
    LinkAtLink(t, u, rest);
    assert s[|t| + |u| + 4..] == rest;
  }

  lemma {:induction false} LinkAtLink(t: String, u: String, rest: String)
    requires t != [] && ']' !in t && u != [] && ')' !in u
    ensures LinkAt("[" + t + "](" + u + ")" + rest) == Some(Link(t, u, |t| + |u| + 4))
  {
    var s := "[" + t + "](" + u + ")" + rest;
    LinkCaption(t, u, rest);
    LinkTarget(t, u, rest);
    LinkAtParts(s, |t|, |u|);
  }

  lemma {:induction false} LinkCaption(t: String, u: String, rest: String)
    requires ']' !in t
    ensures var s := "[" + t + "](" + u + ")" + rest;
      && |t| + 2 < |s| && s[0] == '[' && s[|t| + 2] == '('
      && IndexOf(s[1..], ']') == Some(|t|) && s[1..|t| + 1] == t
  {
    var s := "[" + t + "](" + u + ")" + rest;
    assert s[1..] == t + [']'] + ("(" + u + ")" + rest);
    IndexOfFirst(t, ']', "(" + u + ")" + rest);
    assert s[|t| + 2] == '(';
    assert s[1..|t| + 1] == t;
  }

  lemma {:induction false} LinkTarget(t: String, u: String, rest: String)
    requires ')' !in u
    ensures var s := "[" + t + "](" + u + ")" + rest;
      && |t| + 3 + |u| <= |s|
      && IndexOf(s[|t| + 3..], ')') == Some(|u|) && s[|t| + 3..|t| + 3 + |u|] == u
  {
    var s := "[" + t + "](" + u + ")" + rest;
    assert s[|t| + 3..] == u + [')'] + rest;
    IndexOfFirst(u, ')', rest);
    assert s[|t| + 3..|t| + 3 + |u|] == u;
  }

  /** `LinkAt` in terms of where the first `]` and the first `)` after
      it fall. */
  lemma {:induction false} LinkAtParts(s: String, k: nat, m: nat)
    requires |s| >= 2 && s[0] == '[' && IndexOf(s[1..], ']') == Some(k) && k > 0
    requires k + 2 < |s| && s[k + 2] == '(' && IndexOf(s[k + 3..], ')') == Some(m) && m > 0
    ensures LinkAt(s) == Some(Link(s[1..k + 1], s[k + 3..k + 3 + m], k + m + 4))
  {
  }

  /** Text without an opening bracket passes through link rewriting
      unchanged. */
  lemma {:induction false} NoBracketUnchanged(s: String)
    requires '[' !in s
    ensures RewriteLinks(s) == s
  {
    if s != [] {
      assert LinkAt(s).None?;
      assert '[' !in s[1..];
      NoBracketUnchanged(s[1..]);
    }
  }

  /** A frontmatter block closed by `---` and whitespace ending in a
      newline is removed together with that whitespace, when the block is
      free of `---` and ends with a newline of its own. */
  lemma {:induction false} StripFrontmatterBlock(block: String, ws: String, rest: String)
    requires Avoids(block, "---")
    requires block == [] || block[|block| - 1] == '\n'
    requires ws != [] && AllSpace(ws) && ws[|ws| - 1] == '\n'
    requires rest == [] || !IsSpace(rest[0])
    ensures StripFrontmatter("---" + block + "---" + ws + rest) == rest
  {
    var text := "---" + block + "---" + ws + rest;
    var j0 := 3 + |block|;
    var e := j0 + 3 + |ws|;
    assert StartsWith(text, "---") by {
      assert text[..3] == "---";
    }
    CloseAfterBlock(block, ws, rest);
    NoCloseInsideBlock(block, ws, rest);
    var r := SearchClose(text, 3);
    assert r.Some?;
    assert r.value.0 == j0;
    assert text[e..] == rest;
  }

  lemma {:induction false} CloseAfterBlock(block: String, ws: String, rest: String)
    requires ws != [] && AllSpace(ws) && ws[|ws| - 1] == '\n'
    requires rest == [] || !IsSpace(rest[0])
    ensures CloseAt("---" + block + "---" + ws + rest, 3 + |block|) == Some(6 + |block| + |ws|)
  {
    var text := "---" + block + "---" + ws + rest;
    var j0 := 3 + |block|;
    var k := j0 + 3;
    assert OccursAt(text, "---", j0) by {
      assert text[j0..j0 + 3] == "---";
    }
    assert text[k..k + |ws|] == ws;
    forall i | k <= i < k + |ws|
      ensures IsSpace(text[i])
    {
      assert text[i] == ws[i - k];
    }
    assert k + |ws| < |text| ==> text[k + |ws|] == rest[0];
    var e := SpaceRunEnd(text, k);
    assert e == k + |ws|;
    assert text[k + |ws| - 1] == '\n';
  }

  lemma {:induction false} NoCloseInsideBlock(block: String, ws: String, rest: String)
    requires Avoids(block, "---")
    requires block == [] || block[|block| - 1] == '\n'
    ensures forall j :: 3 <= j < 3 + |block| ==> CloseAt("---" + block + "---" + ws + rest, j).None?
  {
    var text := "---" + block + "---" + ws + rest;
    var j0 := 3 + |block|;
    forall j | 3 <= j < j0
      ensures !OccursAt(text, "---", j)
    {
      if j + 3 <= j0 {
        assert text[j..j + 3] == block[j - 3..j];
        assert !OccursAt(block, "---", j - 3);
      } else if j + 3 <= |text| {
        assert text[j0 - 1] == block[|block| - 1];
        DashWindow(text, j, j0 - 1);
      }
    }
  }
}
