/** Card composition and the card sequence of the card renderer: the
    layout arithmetic of the title card and of the section cards (Pillow's
    drawing itself is not modelled, only where text goes and what it says),
    and the ordering and naming of the cards of one summary. */
module Cards {
  import opened Results
  import opened Text
  import opened Wrap
  import opened SummaryParse

  // Canvas and fonts.
  const CanvasWidth: int := 1080
  const CanvasHeight: int := 1920
  const Pad: int := 90
  const FsBrand: int := 32
  const FsChannel: int := 38
  const FsTitle: int := 68
  const FsLabel: int := 36
  const FsContent: int := 46
  const FsFooter: int := 30
  const FsProgress: int := 30

  /** The width of the text column. */
  const ContentWidth: int := CanvasWidth - Pad * 2

  const TitleLineHeight: int := FsTitle + 22
  const ContentLineHeight: int := FsContent + 18
  const ContentTop: int := 220
  /** The top of the footer separator bar. */
  const FooterRuleTop: int := CanvasHeight - 130

  const Brand: String := "Investment Digest"
  const TitleCaption: String := "AI 投資摘要"
  const Ellipsis: String := "…"
  const FooterChars: int := 32
  const PillPadding: int := 52

  /** The section headings that become cards, in card order. */
  const SectionOrder: seq<String> := ["核心觀點", "提及標的", "關鍵數據", "投資機會", "風險提示", "個人行動建議"]

  /** Pillow's `draw.textlength` for a font of the given size. */
  type Measure = (int, String) -> real

  function WidthAt(measure: Measure, size: int): Width {
    s => measure(size, s)
  }

  /** Python's `int()` on a float: truncation toward zero. */
  function Trunc(x: real): (n: int)
    ensures x >= 0.0 ==> n as real <= x < n as real + 1.0
    ensures x < 0.0 ==> n as real - 1.0 < x <= n as real
  {
    if x >= 0.0 then x.Floor else -((-x).Floor)
  }

  /** `int((H - 280 - 160) / (FS_CONTENT + 18))`, true division then
      truncation. */
  function MaxLines(): (n: int)
    ensures n == 23
  {
    var q := (CanvasHeight - 280 - 160) as real / ContentLineHeight as real;
    assert q == 23.125;
    Trunc(q)
  }

  // ------------------------------------------------------------ section card

  /** The content line budget: more than the budget keeps the first
      budget - 1 lines and ends with the ellipsis, so the budget is met
      exactly; an exact fit is left alone. */
  function Truncate(lines: seq<String>): (r: seq<String>)
    ensures |lines| <= MaxLines() ==> r == lines
    ensures |lines| > MaxLines() ==> |r| == MaxLines()
    ensures |lines| > MaxLines() ==> r[..MaxLines() - 1] == lines[..MaxLines() - 1] && r[MaxLines() - 1] == Ellipsis
  {
    if |lines| > MaxLines() then lines[..MaxLines() - 1] + [Ellipsis] else lines
  }

  /** The footer caption: the video title, cut to 31 characters and an
      ellipsis when it is longer than 32. */
  function Footer(title: String): (r: String)
    ensures |r| <= FooterChars
    ensures |title| <= FooterChars ==> r == title
    ensures |title| > FooterChars ==> |r| == FooterChars && r[..FooterChars - 1] == title[..FooterChars - 1] && r[FooterChars - 1..] == Ellipsis
  {
    if |title| <= FooterChars then title else title[..FooterChars - 1] + Ellipsis
  }

  /** The progress label `f"{index} / {total}"`. */
  function Progress(index: int, total: int): String {
    IntToDecimal(index) + " / " + IntToDecimal(total)
  }

  /** Where the text of a section card goes. */
  datatype SectionLayout = SectionLayout(
    progress: String,     // the progress label, top right
    progressX: int,       // its left edge
    pillWidth: int,       // the width of the pill
    lines: seq<String>,   // the content lines, after truncation
    lineYs: seq<int>,     // the top of each content line
    footer: String)       // the footer caption

  /** The y of each of `n` lines starting at `top`, `step` apart. */
  function Rows(top: int, step: int, n: nat): (ys: seq<int>)
    ensures |ys| == n
    ensures forall k :: 0 <= k < n ==> ys[k] == top + k * step
  {
    if n == 0 then [] else Rows(top, step, n - 1) + [top + (n - 1) * step]
  }

  /** At most `MaxLines()` content lines fit between the content top and
      the footer rule. */
  lemma {:induction false} ContentRowsFit(n: nat)
    requires n <= MaxLines()
    ensures forall k :: 0 <= k < n ==>
      (ContentTop <= Rows(ContentTop, ContentLineHeight, n)[k]
       && Rows(ContentTop, ContentLineHeight, n)[k] + ContentLineHeight <= FooterRuleTop)
  {
    var ys := Rows(ContentTop, ContentLineHeight, n);
    forall k | 0 <= k < n
      ensures ContentTop <= ys[k] && ys[k] + ContentLineHeight <= FooterRuleTop
    {
      assert ys[k] == ContentTop + k * 64;
    }
  }

  /** `_make_section_card` without the drawing. */
  function SectionCard(measure: Measure, name: String, content: String, index: int, total: int, videoTitle: String): (c: SectionLayout)
    ensures c.progress == Progress(index, total)
    ensures c.progressX + Trunc(measure(FsProgress, c.progress)) == CanvasWidth - Pad
    ensures c.pillWidth == Trunc(measure(FsLabel, name)) + PillPadding
    ensures c.lines == Truncate(WrapText(WidthAt(measure, FsContent), ContentWidth, content))
    ensures |c.lineYs| == |c.lines| <= MaxLines()
    ensures forall k :: 0 <= k < |c.lines| ==> ContentTop <= c.lineYs[k] && c.lineYs[k] + ContentLineHeight <= FooterRuleTop
    ensures c.footer == Footer(videoTitle)
  {
    var progress := Progress(index, total);
    var lines := Truncate(WrapText(WidthAt(measure, FsContent), ContentWidth, content));
    ContentRowsFit(|lines|);
    SectionLayout(
      progress,
      CanvasWidth - Pad - Trunc(measure(FsProgress, progress)),
      Trunc(measure(FsLabel, name)) + PillPadding,
      lines,
      Rows(ContentTop, ContentLineHeight, |lines|),
      Footer(videoTitle))
  }

  // ------------------------------------------------------------ title card

  /** Where the text of the title card goes. */
  datatype TitleLayout = TitleLayout(
    brand: String,
    channel: String,
    lines: seq<String>,   // the wrapped title
    top: int,             // the top of the title block
    lineYs: seq<int>,     // the top of each title line
    dividerY: int,        // the top of the accent mark under the title
    caption: String)      // the fixed footer caption

  /** `_make_title_card` without the drawing: the title block is centred
      vertically, the space above it equal to the space below it. */
  function TitleCard(measure: Measure, title: String, channel: String): (c: TitleLayout)
    ensures c.lines == WrapText(WidthAt(measure, FsTitle), ContentWidth, title)
    ensures c.top + (c.top + |c.lines| * TitleLineHeight) == CanvasHeight
    ensures |c.lineYs| == |c.lines|
    ensures forall k :: 0 <= k < |c.lines| ==> c.lineYs[k] == c.top + k * TitleLineHeight
    ensures c.dividerY == c.top + |c.lines| * TitleLineHeight + 36
    ensures c.brand == Brand && c.channel == channel && c.caption == TitleCaption
  {
    var lines := WrapText(WidthAt(measure, FsTitle), ContentWidth, title);
    var top := CenteredTop(|lines|);
    TitleLayout(Brand, channel, lines, top, Rows(top, TitleLineHeight, |lines|),
                top + |lines| * TitleLineHeight + 36, TitleCaption)
  }

  /** `H // 2 - block_h // 2` for a block of `n` title lines: an even block
      height leaves equal space above and below. */
  function CenteredTop(n: nat): (top: int)
    ensures top + (top + n * TitleLineHeight) == CanvasHeight
  {
    var h := n * TitleLineHeight;
    assert h == 2 * (n * 45);
    CanvasHeight / 2 - h / 2
  }

  // ------------------------------------------------------------ sequence

  /** The position of a name in the section order (6 when absent). */
  function Rank(name: String): (r: nat)
    ensures r <= |SectionOrder|
    ensures r < |SectionOrder| ==> SectionOrder[r] == name
    ensures r == |SectionOrder| ==> name !in SectionOrder
  {
    RankFrom(name, 0)
  }

  function RankFrom(name: String, i: nat): (r: nat)
    requires i <= |SectionOrder|
    ensures i <= r <= |SectionOrder|
    ensures r < |SectionOrder| ==> SectionOrder[r] == name
    ensures forall j :: i <= j < r ==> SectionOrder[j] != name
    decreases |SectionOrder| - i
  {
    if i == |SectionOrder| || SectionOrder[i] == name then i else RankFrom(name, i + 1)
  }

  lemma {:induction false} SectionOrderDistinct()
    ensures forall i, j :: 0 <= i < j < |SectionOrder| ==> SectionOrder[i] != SectionOrder[j]
  {
  }

  /** A name of the section order ranks at its own position. */
  lemma {:induction false} RankOfOrder(i: nat)
    requires i < |SectionOrder|
    ensures Rank(SectionOrder[i]) == i
  {
    SectionOrderDistinct();
  }

  /** `[(k, sections[k]) for k in SECTION_ORDER[i:] if k in sections]`. */
  function OrderedFrom(sections: map<String, String>, i: nat): (r: seq<(String, String)>)
    requires i <= |SectionOrder|
    ensures forall p :: p in r ==> p.0 in sections && p.1 == sections[p.0] && p.0 in SectionOrder[i..]
    ensures forall j :: i <= j < |SectionOrder| && SectionOrder[j] in sections ==> (SectionOrder[j], sections[SectionOrder[j]]) in r
    ensures forall a, b :: 0 <= a < b < |r| ==> Rank(r[a].0) < Rank(r[b].0)
    ensures forall a :: 0 <= a < |r| ==> i <= Rank(r[a].0)
    decreases |SectionOrder| - i
  {
    if i == |SectionOrder| then []
    else
      var rest := OrderedFrom(sections, i + 1);
      var name := SectionOrder[i];
      if name in sections then
        CoversCons(sections, i, rest);
        RankOfOrder(i);
        RankedCons(i, (name, sections[name]), rest);
        [(name, sections[name])] + rest
      else
        CoversSkip(sections, i, rest);
        rest
  }

  /** `r` holds exactly the sections named in `SectionOrder[i..]`. */
  predicate CoversFrom(sections: map<String, String>, i: nat, r: seq<(String, String)>)
    requires i <= |SectionOrder|
  {
    && (forall p :: p in r ==> p.0 in sections && p.1 == sections[p.0] && p.0 in SectionOrder[i..])
    && (forall j :: i <= j < |SectionOrder| && SectionOrder[j] in sections ==> (SectionOrder[j], sections[SectionOrder[j]]) in r)
  }

  /** The names in `r` strictly increase in rank, starting at rank `i` or later. */
  predicate RankedFrom(i: nat, r: seq<(String, String)>) {
    && (forall a, b :: 0 <= a < b < |r| ==> Rank(r[a].0) < Rank(r[b].0))
    && (forall a :: 0 <= a < |r| ==> i <= Rank(r[a].0))
  }

  lemma {:induction false} CoversCons(sections: map<String, String>, i: nat, rest: seq<(String, String)>)
    requires i < |SectionOrder| && SectionOrder[i] in sections
    requires CoversFrom(sections, i + 1, rest)
    ensures CoversFrom(sections, i, [(SectionOrder[i], sections[SectionOrder[i]])] + rest)
  {
    assert SectionOrder[i..] == [SectionOrder[i]] + SectionOrder[i + 1..];
  }

  lemma {:induction false} CoversSkip(sections: map<String, String>, i: nat, rest: seq<(String, String)>)
    requires i < |SectionOrder| && SectionOrder[i] !in sections
    requires CoversFrom(sections, i + 1, rest)
    ensures CoversFrom(sections, i, rest)
  {
    assert SectionOrder[i..] == [SectionOrder[i]] + SectionOrder[i + 1..];
  }

  lemma {:induction false} RankedCons(i: nat, p: (String, String), rest: seq<(String, String)>)
    requires Rank(p.0) == i
    requires RankedFrom(i + 1, rest)
    ensures RankedFrom(i, [p] + rest)
  {
    var r := [p] + rest;
    forall a, b | 0 <= a < b < |r|
      ensures Rank(r[a].0) < Rank(r[b].0)
    {
      assert r[b] == rest[b - 1];
      if a > 0 {
        assert r[a] == rest[a - 1];
      }
    }
    forall a | 0 <= a < |r|
      ensures i <= Rank(r[a].0)
    {
      if a > 0 {
        assert r[a] == rest[a - 1];
      }
    }
  }

  /** The sections that become cards, in card order. */
  function Ordered(sections: map<String, String>): seq<(String, String)> {
    OrderedFrom(sections, 0)
  }

  /** `f"{i:02d}"`: at least two digits, zero-padded. */
  function Pad2(i: nat): (r: String)
    ensures i < 100 ==> |r| == 2 && AllDigits(r) && DecimalValue(r) == i
  {
    var d := NatToDecimal(i);
    if i < 10 then
      assert "0" + d == ['0'] + d;
      assert ("0" + d)[..1] == "0";
      "0" + d
    else
      assert i < 100 ==> |NatToDecimal(i / 10)| == 1;
      d
  }

  function CardName(i: nat): String {
    "card_" + Pad2(i) + ".png"
  }

  datatype Card =
    | TitleCardOf(name: String, title: TitleLayout)
    | SectionCardOf(name: String, index: nat, total: nat, heading: String, section: SectionLayout)

  /** `generate_cards` on the text of a summary file: the title card
      first, then one section card per known section, in the fixed
      section order. */
  function GenerateCards(measure: Measure, text: String, channel: String): seq<Card> {
    CardsFor(measure, ParseSummary(text), channel)
  }

  /** `generate_cards(md_path, channel_name, output_dir)` on its arguments,
      `content` being the text of the summary file: `output_dir.mkdir` comes
      first and `md_path.read_text` next, and a `str` has neither, so either
      argument handed over as a `str` ends the call with an AttributeError
      naming the missing attribute. */
  function GenerateCardsAt(measure: Measure, mdPath: PyPath, channel: String, outputDir: PyPath, content: String): (r: Result<seq<Card>, String>)
    ensures r.Ok? <==> mdPath.PathValue? && outputDir.PathValue?
    ensures outputDir.StrValue? ==> r == Err("mkdir")
    ensures outputDir.PathValue? && mdPath.StrValue? ==> r == Err("read_text")
    ensures r.Ok? ==> r.value == GenerateCards(measure, content, channel)
  {
    match PathsChecked(mdPath, outputDir)
    case Some(attribute) => Err(attribute)
    case None => Ok(GenerateCards(measure, content, channel))
  }

  /** The attribute a `str` argument lacks at the first use that needs a
      path, if any: `mkdir` on the output directory comes before
      `read_text` on the summary path. */
  function PathsChecked(mdPath: PyPath, outputDir: PyPath): (missing: Option<String>)
    ensures missing.None? <==> mdPath.PathValue? && outputDir.PathValue?
    ensures outputDir.StrValue? ==> missing == Some("mkdir")
    ensures outputDir.PathValue? && mdPath.StrValue? ==> missing == Some("read_text")
  {
    if outputDir.StrValue? then Some("mkdir")
    else if mdPath.StrValue? then Some("read_text")
    else None
  }

  /** The cards of a parsed summary. */
  function CardsFor(measure: Measure, summary: Summary, channel: String): seq<Card> {
    var ordered := Ordered(summary.sections);
    [TitleCardOf(CardName(0), TitleCard(measure, summary.title, channel))]
      + SectionCards(measure, ordered, 1, |ordered|, summary.title)
  }

  /** The section cards of `ordered`, numbered from `first`, each laid
      out by `layout` from its heading, its text and its number. */
  function SectionCardsWith(layout: Layout, ordered: seq<(String, String)>, first: nat, total: nat): seq<Card> {
    seq(|ordered|, i requires 0 <= i < |ordered| =>
      SectionCardOf(CardName(first + i), first + i, total, ordered[i].0,
        layout(ordered[i].0, ordered[i].1, first + i)))
  }

  type Layout = (String, String, nat) -> SectionLayout

  /** `_make_section_card` for a summary with `total` section cards. */
  function SectionLayoutOf(measure: Measure, total: nat, title: String): Layout {
    (name: String, content: String, index: nat) => SectionCard(measure, name, content, index, total, title)
  }

  function SectionCards(measure: Measure, ordered: seq<(String, String)>, first: nat, total: nat, title: String): seq<Card> {
    SectionCardsWith(SectionLayoutOf(measure, total, title), ordered, first, total)
  }

  // ------------------------------------------------------------ lemmas

  /** The card list of a summary: the title card `card_00` first, then for
      each known section present, in the fixed order, a card numbered from
      1 with the number of section cards as its total. Unknown headings
      never become cards. */
  lemma {:induction false} CardSequenceShape(measure: Measure, summary: Summary, channel: String)
    ensures var ordered := Ordered(summary.sections);
      var cards := CardsFor(measure, summary, channel);
      && |cards| == 1 + |ordered|
      && cards[0] == TitleCardOf("card_00.png", TitleCard(measure, summary.title, channel))
      && (forall i :: 1 <= i < |cards| ==>
            && cards[i].SectionCardOf?
            && cards[i].name == CardName(i)
            && cards[i].index == i
            && cards[i].total == |ordered|
            && cards[i].heading == ordered[i - 1].0
            && cards[i].heading in SectionOrder
            && cards[i].heading in summary.sections)
      && (forall i, j :: 1 <= i < j < |cards| ==> Rank(cards[i].heading) < Rank(cards[j].heading))
  {
    var ordered := Ordered(summary.sections);
    var tail := SectionCards(measure, ordered, 1, |ordered|, summary.title);
    FirstCardName();
    CardsForSplit(measure, summary, channel);
    SectionCardsShape(SectionLayoutOf(measure, |ordered|, summary.title), ordered, 1, |ordered|);
    OrderedWellFormed(summary.sections);
    ShapeOfParts(CardsFor(measure, summary, channel), tail, ordered, summary.sections);
  }

  lemma {:induction false} FirstCardName()
    ensures CardName(0) == "card_00.png"
  {
    assert NatToDecimal(0) == "0";
  }

  lemma {:induction false} CardsForSplit(measure: Measure, summary: Summary, channel: String)
    ensures var cards := CardsFor(measure, summary, channel);
      && |cards| >= 1
      && cards[0] == TitleCardOf(CardName(0), TitleCard(measure, summary.title, channel))
      && cards[1..] == SectionCards(measure, Ordered(summary.sections), 1, |Ordered(summary.sections)|, summary.title)
  {
  }

  /** `cards` are section cards numbered from `first`, one per entry of
      `ordered`, captioned with its section name. */
  predicate NumberedRun(cards: seq<Card>, ordered: seq<(String, String)>, first: nat, total: nat) {
    && |cards| == |ordered|
    && forall i :: 0 <= i < |cards| ==>
      && cards[i].SectionCardOf?
      && cards[i].name == CardName(first + i)
      && cards[i].index == first + i
      && cards[i].total == total
      && cards[i].heading == ordered[i].0
  }

  /** `ordered` lists sections of `sections` by strictly increasing rank. */
  predicate RankedSections(ordered: seq<(String, String)>, sections: map<String, String>) {
    && (forall a :: 0 <= a < |ordered| ==> ordered[a].0 in SectionOrder && ordered[a].0 in sections)
    && (forall a, b :: 0 <= a < b < |ordered| ==> Rank(ordered[a].0) < Rank(ordered[b].0))
  }

  /** The bookkeeping of the section cards, whatever their layout. */
  lemma {:induction false} SectionCardsShape(layout: Layout, ordered: seq<(String, String)>, first: nat, total: nat)
    ensures NumberedRun(SectionCardsWith(layout, ordered, first, total), ordered, first, total)
  {
  }

  lemma {:induction false} OrderedWellFormed(sections: map<String, String>)
    ensures RankedSections(Ordered(sections), sections)
  {
    var r := Ordered(sections);
    forall a | 0 <= a < |r|
      ensures r[a].0 in SectionOrder && r[a].0 in sections
    {
      assert r[a] in r;
      assert SectionOrder[0..] == SectionOrder;
    }
  }

  lemma {:induction false} ShapeOfParts(cards: seq<Card>, tail: seq<Card>, ordered: seq<(String, String)>, sections: map<String, String>)
    requires |cards| >= 1 && cards[1..] == tail
    requires NumberedRun(tail, ordered, 1, |ordered|)
    requires RankedSections(ordered, sections)
    ensures |cards| == 1 + |ordered|
    ensures forall i :: 1 <= i < |cards| ==>
      && cards[i].SectionCardOf?
      && cards[i].name == CardName(i)
      && cards[i].index == i
      && cards[i].total == |ordered|
      && cards[i].heading == ordered[i - 1].0
      && cards[i].heading in SectionOrder
      && cards[i].heading in sections
    ensures forall i, j :: 1 <= i < j < |cards| ==> Rank(cards[i].heading) < Rank(cards[j].heading)
  {
    forall i | 1 <= i < |cards|
      ensures cards[i] == tail[i - 1]
    {
    }
  }

  /** Every known section that the summary has gets a card. */
  lemma {:induction false} EveryKnownSectionHasCard(sections: map<String, String>, name: String)
    requires name in SectionOrder && name in sections
    ensures (name, sections[name]) in Ordered(sections)
  {
    var j :| 0 <= j < |SectionOrder| && SectionOrder[j] == name;
  }

  lemma {:induction false} StrLessSamePrefix(p: String, a: String, b: String)
    requires StrLess(a, b)
    ensures StrLess(p + a, p + b)
  {
    if p == [] {
      assert p + a == a && p + b == b;
    } else {
      assert (p + a)[0] == (p + b)[0];
      assert (p + a)[1..] == p[1..] + a;
      assert (p + b)[1..] == p[1..] + b;
      StrLessSamePrefix(p[1..], a, b);
    }
  }

  lemma {:induction false} StrLessAnySuffix(a: String, b: String, x: String, y: String)
    requires |a| == |b| && StrLess(a, b)
    ensures StrLess(a + x, b + y)
  {
    if a != [] && a[0] == b[0] {
      assert (a + x)[1..] == a[1..] + x;
      assert (b + y)[1..] == b[1..] + y;
      StrLessAnySuffix(a[1..], b[1..], x, y);
    }
  }

  lemma {:induction false} TwoDigitOrder(a: String, b: String)
    requires |a| == 2 && |b| == 2 && AllDigits(a) && AllDigits(b)
    requires DecimalValue(a) < DecimalValue(b)
    ensures StrLess(a, b)
  {
    assert a[..1][..0] == [] && b[..1][..0] == [];
    assert DecimalValue(a[..1]) == a[0] as int - '0' as int;
    assert DecimalValue(b[..1]) == b[0] as int - '0' as int;
    assert DecimalValue(a) == (a[0] as int - '0' as int) * 10 + (a[1] as int - '0' as int);
    assert DecimalValue(b) == (b[0] as int - '0' as int) * 10 + (b[1] as int - '0' as int);
    if a[0] == b[0] {
      assert a[1..] == [a[1]] && b[1..] == [b[1]];
      assert a[1] < b[1];
    }
  }

  /** Card names sort in card order, so a sorted directory listing (as the
      video step takes it) gives the cards back in order. */
  lemma {:induction false} CardNamesSortInOrder(i: nat, j: nat)
    requires i < j < 100
    ensures StrLess(CardName(i), CardName(j))
  {
    TwoDigitOrder(Pad2(i), Pad2(j));
    StrLessAnySuffix(Pad2(i), Pad2(j), ".png", ".png");
    StrLessSamePrefix("card_", Pad2(i) + ".png", Pad2(j) + ".png");
    assert CardName(i) == "card_" + (Pad2(i) + ".png");
    assert CardName(j) == "card_" + (Pad2(j) + ".png");
  }
}
