/** The static site builder: reads each summary's frontmatter, turns it
    into an episode record, and orders the records newest episode first. */
module SiteBuild {
  import opened Results
  import opened Text
  import StableSort

  // ----------------------------------------------------------- frontmatter

  /** `\w` in the key pattern, restricted to ASCII word characters. */
  predicate IsWordChar(c: char) {
    ('a' <= c <= 'z') || ('A' <= c <= 'Z') || ('0' <= c <= '9') || c == '_'
  }

  predicate AllWord(s: String) {
    forall i :: 0 <= i < |s| ==> IsWordChar(s[i])
  }

  /** The length of the run of word characters that starts `s`. */
  function WordRun(s: String): (n: nat)
    ensures n <= |s| && AllWord(s[..n])
    ensures n == |s| || !IsWordChar(s[n])
  {
    if s == [] || !IsWordChar(s[0]) then 0 else 1 + WordRun(s[1..])
  }

  datatype Field = Field(key: String, value: String)

  /** A frontmatter line `key: value`: a non-empty run of word characters,
      a colon, and the rest of the line with surrounding blanks stripped. */
  function MetaField(line: String): (r: Option<Field>)
    ensures r.Some? ==> var k := r.value.key;
      && k != [] && AllWord(k) && |k| < |line| && line[..|k|] == k && line[|k|] == ':'
      && r.value.value == Strip(line[|k| + 1..])
  {
    var n := WordRun(line);
    if 0 < n < |line| && line[n] == ':' then
      Some(Field(line[..n], Strip(line[n + 1..])))
    else
      None
  }

  /** A line that is not a field has no word-character key before a colon. */
  lemma {:induction false} NotAField(line: String, n: nat)
    requires MetaField(line).None?
    requires 0 < n < |line| && line[n] == ':'
    ensures !AllWord(line[..n])
  {
    var w := WordRun(line);
    assert n > w ==> !IsWordChar(line[..n][w]);
  }

  /** The fields of a frontmatter block, line by line. */
  function FieldsOf(lines: seq<String>): (fs: seq<Option<Field>>)
    ensures |fs| == |lines|
    ensures forall i :: 0 <= i < |lines| ==> fs[i] == MetaField(lines[i])
  {
    seq(|lines|, i requires 0 <= i < |lines| => MetaField(lines[i]))
  }

  predicate SetsKey(f: Option<Field>, key: String) {
    f.Some? && f.value.key == key
  }

  /** Some field sets `key` to `value`, and no later field sets `key`. */
  ghost predicate SetsLast(fields: seq<Option<Field>>, key: String, value: String) {
    exists i :: 0 <= i < |fields| && fields[i] == Some(Field(key, value))
      && forall j :: i < j < |fields| ==> !SetsKey(fields[j], key)
  }

  /** The dictionary built by assigning the fields in order. */
  function Assign(fields: seq<Option<Field>>): (m: map<String, String>)
    ensures forall k :: k in m <==> exists i :: 0 <= i < |fields| && SetsKey(fields[i], k)
    ensures forall k :: k in m ==> SetsLast(fields, k, m[k])
  {
    if fields == [] then map[]
    else
      var init := fields[..|fields| - 1];
      var last := fields[|fields| - 1];
      var before := Assign(init);
      var m := Store(before, last);
      assert fields == init + [last];
      AssignLast(init, last, before);
      m
  }

  /** One assignment step: a field overrides its key, a non-field line
      changes nothing. */
  function Store(m: map<String, String>, f: Option<Field>): map<String, String> {
    match f
    case None => m
    case Some(f) => m[f.key := f.value]
  }

  lemma {:induction false} AssignLast(init: seq<Option<Field>>, last: Option<Field>, before: map<String, String>)
    requires forall k :: k in before <==> exists i :: 0 <= i < |init| && SetsKey(init[i], k)
    requires forall k :: k in before ==> SetsLast(init, k, before[k])
    ensures var fields, m := init + [last], Store(before, last);
      && (forall k :: k in m <==> exists i :: 0 <= i < |fields| && SetsKey(fields[i], k))
      && (forall k :: k in m ==> SetsLast(fields, k, m[k]))
  {
    var fields, m := init + [last], Store(before, last);
    forall k
      ensures k in m <==> exists i :: 0 <= i < |fields| && SetsKey(fields[i], k)
    {
      if k in before {
        var i :| 0 <= i < |init| && SetsKey(init[i], k);
        assert fields[i] == init[i];
      }
      if last.Some? && last.value.key == k {
        assert SetsKey(fields[|init|], k);
      }
      if exists i :: 0 <= i < |fields| && SetsKey(fields[i], k) {
        var i :| 0 <= i < |fields| && SetsKey(fields[i], k);
        if i < |init| {
          assert SetsKey(init[i], k);
        }
      }
    }
    forall k | k in m
      ensures SetsLast(fields, k, m[k])
    {
      if last.Some? && last.value.key == k {
        assert fields[|init|] == Some(Field(k, m[k]));
      } else {
        var i :| 0 <= i < |init| && init[i] == Some(Field(k, before[k]))
          && forall j :: i < j < |init| ==> !SetsKey(init[j], k);
        assert fields[i] == init[i];
        assert forall j :: i < j < |fields| ==> !SetsKey(fields[j], k) by {
          forall j | i < j < |fields|
            ensures !SetsKey(fields[j], k)
          {
            if j < |init| {
              assert fields[j] == init[j];
            }
          }
        }
      }
    }
  }

  function MetaOf(lines: seq<String>): map<String, String> {
    Assign(FieldsOf(lines))
  }

  datatype Document = Document(meta: map<String, String>, body: String)

  /** Splits a summary into its `---`-delimited frontmatter and its body.
      Without an opening `---` or a closing one, there is no frontmatter. */
  function ParseFrontmatter(content: String): (d: Document)
    ensures d.meta != map[] ==> StartsWith(content, "---")
    ensures |d.body| <= |content| && d.body == content[|content| - |d.body|..]
    ensures d.body != content ==> d.body == [] || d.body[0] != '\n'
    ensures !StartsWith(content, "---") ==> d == Document(map[], content)
    ensures Find(content, "---", 3).None? ==> d == Document(map[], content)
  {
    if !StartsWith(content, "---") then Document(map[], content)
    else match Find(content, "---", 3)
      case None => Document(map[], content)
      case Some(end) =>
        var rest := content[end + 3..];
        var body := LStripChar(rest, '\n');
        assert body == content[|content| - |body|..];
        Document(MetaOf(SplitLines(content[3..end])), body)
  }

  /** A block that ends in anything but a dash and holds no `---` closes
      at the first `---` after it. */
  lemma {:induction false} FrontmatterBlock(block: String, rest: String)
    requires Avoids(block, "---")
    requires block == [] || block[|block| - 1] != '-'
    ensures ParseFrontmatter("---" + block + "---" + rest)
         == Document(MetaOf(SplitLines(block)), LStripChar(rest, '\n'))
  {
    var content := "---" + block + "---" + rest;
    var e := 3 + |block|;
    CloseAfterBlock(block, rest);
    assert StartsWith(content, "---");
    assert content[3..e] == block;
    assert content[e + 3..] == rest;
  }

  lemma {:induction false} CloseAfterBlock(block: String, rest: String)
    requires Avoids(block, "---")
    requires block == [] || block[|block| - 1] != '-'
    ensures Find("---" + block + "---" + rest, "---", 3) == Some(3 + |block|)
  {
    var content := "---" + block + "---" + rest;
    var e := 3 + |block|;
    assert OccursAt(content, "---", e) by {
      assert content[e..e + 3] == "---";
    }
    forall j | 3 <= j < e
      ensures !OccursAt(content, "---", j)
    {
      if j + 3 <= e {
        assert content[j..j + 3] == block[j - 3..j];
        assert !OccursAt(block, "---", j - 3);
      } else {
        assert content[e - 1] == block[|block| - 1];
        assert content[j..j + 3][e - 1 - j] == content[e - 1];
      }
    }
  }

  /** A line `key:value` with a word key reads back as that key with the
      value stripped. */
  lemma {:induction false} FieldRoundTrip(key: String, value: String)
    requires key != [] && AllWord(key)
    ensures MetaField(key + ":" + value) == Some(Field(key, Strip(value)))
  {
    var line := key + ":" + value;
    WordRunOfKey(key, ":" + value);
    assert line == key + (":" + value);
    assert line[..|key|] == key && line[|key|] == ':';
    assert line[|key| + 1..] == value;
  }

  lemma {:induction false} WordRunOfKey(key: String, rest: String)
    requires AllWord(key)
    requires rest == [] || !IsWordChar(rest[0])
    ensures WordRun(key + rest) == |key|
  {
    if key != [] {
      assert (key + rest)[1..] == key[1..] + rest;
      WordRunOfKey(key[1..], rest);
    } else {
      assert key + rest == rest;
    }
  }

  /** A later line for the same key overrides an earlier one. */
  lemma {:induction false} LaterFieldWins(lines: seq<String>, key: String, v1: String, v2: String)
    requires key != [] && AllWord(key)
    ensures var m := MetaOf(lines + [key + ":" + v1, key + ":" + v2]);
      key in m && m[key] == Strip(v2)
  {
    FieldRoundTrip(key, v2);
    var all := lines + [key + ":" + v1, key + ":" + v2];
    var fs := FieldsOf(all);
    var last := |fs| - 1;
    assert fs[last] == Some(Field(key, Strip(v2)));
    assert SetsKey(fs[last], key);
    var m := Assign(fs);
    var i :| 0 <= i < |fs| && fs[i] == Some(Field(key, m[key]))
      && forall j :: i < j < |fs| ==> !SetsKey(fs[j], key);
    assert i == last;
  }

  // ------------------------------------------------------- episode numbers

  predicate IsE(c: char) { c == 'E' || c == 'e' }
  predicate IsP(c: char) { c == 'P' || c == 'p' }

  /** The length of the run of digits that starts `s`. */
  function DigitRun(s: String): (n: nat)
    ensures n <= |s| && AllDigits(s[..n])
    ensures n == |s| || !IsDigit(s[n])
  {
    if s == [] || !IsDigit(s[0]) then 0 else 1 + DigitRun(s[1..])
  }

  /** The number of an `EP<digits>` match (either case) starting at `i`. */
  function EpAt(title: String, i: nat): Option<nat> {
    if i + 2 < |title| && IsE(title[i]) && IsP(title[i + 1]) && IsDigit(title[i + 2]) then
      var digits := title[i + 2..];
      Some(DecimalValue(digits[..DigitRun(digits)]))
    else None
  }

  /** The first position at or after `i` where `EP<digits>` matches. */
  function FirstEp(title: String, i: nat): (r: Option<nat>)
    ensures r.Some? ==> i <= r.value < |title| && EpAt(title, r.value).Some?
    ensures r.Some? ==> forall m :: i <= m < r.value ==> EpAt(title, m).None?
    ensures r.None? ==> forall m :: i <= m < |title| ==> EpAt(title, m).None?
    decreases |title| - i
  {
    if i >= |title| then None
    else if EpAt(title, i).Some? then Some(i)
    else FirstEp(title, i + 1)
  }

  /** The episode number of a title: the first `EP<digits>`, any case, or 0. */
  function EpisodeNumber(title: String): nat {
    match FirstEp(title, 0)
    case None => 0
    case Some(j) => EpAt(title, j).value
  }

  /** A title that opens with `EP<n>` has episode number `n`. */
  lemma {:induction false} EpisodeNumberLeading(n: nat, rest: String)
    requires rest == [] || !IsDigit(rest[0])
    ensures EpisodeNumber("EP" + NatToDecimal(n) + rest) == n
  {
    var digits := NatToDecimal(n);
    var title := "EP" + digits + rest;
    assert title[2..] == digits + rest;
    DigitRunOfDigits(digits, rest);
    assert (digits + rest)[..|digits|] == digits;
    assert EpAt(title, 0) == Some(n);
  }

  lemma {:induction false} DigitRunOfDigits(digits: String, rest: String)
    requires AllDigits(digits)
    requires rest == [] || !IsDigit(rest[0])
    ensures DigitRun(digits + rest) == |digits|
  {
    if digits != [] {
      assert (digits + rest)[1..] == digits[1..] + rest;
      DigitRunOfDigits(digits[1..], rest);
    } else {
      assert digits + rest == rest;
    }
  }

  /** A title with no `E` or `e` in it has episode number 0. */
  lemma {:induction false} NoEpisodeNumber(title: String)
    requires 'E' !in title && 'e' !in title
    ensures EpisodeNumber(title) == 0
  {
    assert forall j :: 0 <= j < |title| ==> !IsE(title[j]);
  }

  // -------------------------------------------------------------- ordering

  datatype SortKey = SortKey(episode: nat, processed: String)

  /** Python's comparison of `(episode, processed_at)` tuples. */
  predicate KeyLess(a: SortKey, b: SortKey) {
    a.episode < b.episode || (a.episode == b.episode && StrLess(a.processed, b.processed))
  }

  /** `reverse=True`: the larger key goes first. */
  predicate NewerFirst(a: SortKey, b: SortKey) {
    KeyLess(b, a)
  }

  lemma {:induction false} NewerFirstIsStrictTotalOrder()
    ensures StableSort.StrictTotalOrder(NewerFirst)
  {
    forall a: SortKey
      ensures !NewerFirst(a, a)
    {
      StrLessIrreflexive(a.processed);
    }
    forall a: SortKey, b: SortKey, c: SortKey | NewerFirst(a, b) && NewerFirst(b, c)
      ensures NewerFirst(a, c)
    {
      if c.episode == b.episode && b.episode == a.episode {
        StrLessTransitive(c.processed, b.processed, a.processed);
      }
    }
    forall a: SortKey, b: SortKey | a != b
      ensures NewerFirst(a, b) || NewerFirst(b, a)
    {
      if a.episode == b.episode {
        StrLessTotal(a.processed, b.processed);
      }
    }
  }

  lemma {:induction false} StrLessIsStrictTotalOrder()
    ensures StableSort.StrictTotalOrder(StrLess)
  {
    forall a: String
      ensures !StrLess(a, a)
    {
      StrLessIrreflexive(a);
    }
    forall a: String, b: String, c: String | StrLess(a, b) && StrLess(b, c)
      ensures StrLess(a, c)
    {
      StrLessTransitive(a, b, c);
    }
    forall a: String, b: String | a != b
      ensures StrLess(a, b) || StrLess(b, a)
    {
      StrLessTotal(a, b);
    }
  }

  // --------------------------------------------------------------- records

  /** The fields of a `channels.json` entry the builder reads; an absent
      field is `None`. */
  datatype ChannelInfo = ChannelInfo(name: Option<String>, thumbnailUrl: Option<String>)

  /** A file `<stem>.md` of the summaries directory. */
  datatype SummaryFile = SummaryFile(stem: String, content: String)

  datatype Episode = Episode(
    videoId: String,
    channelId: String,
    channelName: String,
    channelThumbnail: String,
    title: String,
    publishedAt: String,
    processedAt: String,
    summaryUrl: String,
    cards: seq<String>)

  /** The channel of a summary is listed without a `name` field. */
  datatype BuildError = MissingChannelName(channelId: String)

  function Get(meta: map<String, String>, key: String, default: String): String {
    if key in meta then meta[key] else default
  }

  /** The date normaliser: empty stays empty, anything else is handed to
      the ISO parser (a parameter: it is datetime's, not this program's). */
  function NormalizeDate(iso: String -> String, raw: String): (r: String)
    ensures raw == [] ==> r == []
  {
    if raw == [] then [] else iso(raw)
  }

  function FileName(f: SummaryFile): String {
    f.stem + ".md"
  }

  /** `card_*.png`. */
  predicate IsCardFile(name: String) {
    |name| >= 9 && name[..5] == "card_" && name[|name| - 4..] == ".png"
  }

  function CardFiles(names: seq<String>): (r: seq<String>)
    ensures forall i :: 0 <= i < |r| ==> IsCardFile(r[i])
    ensures forall n :: n in names && IsCardFile(n) <==> n in r
  {
    if names == [] then []
    else (if IsCardFile(names[0]) then [names[0]] else []) + CardFiles(names[1..])
  }

  /** The site URLs of a video's card images, in file-name order; no
      directory means no cards. */
  function CardUrls(videoId: String, listing: Option<seq<String>>): (urls: seq<String>)
    ensures listing.None? ==> urls == []
    ensures listing.Some? ==> var files := StableSort.Sort(StableSort.Id, StrLess, CardFiles(listing.value));
      |urls| == |files| && forall i :: 0 <= i < |urls| ==> urls[i] == "cards/" + videoId + "/" + files[i]
  {
    match listing
    case None => []
    case Some(names) =>
      var files := StableSort.Sort(StableSort.Id, StrLess, CardFiles(names));
      seq(|files|, i requires 0 <= i < |files| => "cards/" + videoId + "/" + files[i])
  }

  /** Builds the record of one summary file. */
  function MakeEpisode(
    file: SummaryFile, channels: map<String, ChannelInfo>,
    cardDirs: map<String, seq<String>>, iso: String -> String): Result<Episode, BuildError>
  {
    EpisodeOf(ParseFrontmatter(file.content).meta, file.stem, channels, cardDirs, iso)
  }

  /** The record of a summary whose frontmatter reads `meta` and whose file
      name without extension is `stem`. */
  function EpisodeOf(
    meta: map<String, String>, stem: String, channels: map<String, ChannelInfo>,
    cardDirs: map<String, seq<String>>, iso: String -> String): (r: Result<Episode, BuildError>)
    ensures var cid := Get(meta, "channel_id", "");
      r.Err? <==> Get(meta, "channel_name", "") == [] && cid in channels && channels[cid].name.None?
    ensures r.Ok? ==>
      && r.value.videoId == (if Get(meta, "video_id", "") != [] then Get(meta, "video_id", "") else stem)
      && r.value.title == Get(meta, "title", stem)
      && r.value.summaryUrl == "summaries/" + r.value.videoId + ".md"
      && r.value.channelId == Get(meta, "channel_id", "")
      && (Get(meta, "channel_name", "") != [] ==> r.value.channelName == Get(meta, "channel_name", ""))
      && (Get(meta, "channel_name", "") == [] && r.value.channelId in channels ==>
            channels[r.value.channelId].name == Some(r.value.channelName))
      && (Get(meta, "channel_name", "") == [] && r.value.channelId !in channels ==> r.value.channelName == [])
      && (r.value.channelId in channels ==> r.value.channelThumbnail == channels[r.value.channelId].thumbnailUrl.GetOr(""))
      && (r.value.channelId !in channels ==> r.value.channelThumbnail == [])
      && (Get(meta, "published", "") == [] ==> r.value.publishedAt == [])
      && (Get(meta, "processed", "") == [] ==> r.value.processedAt == [])
      && (r.value.videoId !in cardDirs ==> r.value.cards == [])
      && (r.value.videoId in cardDirs ==> r.value.cards == CardUrls(r.value.videoId, Some(cardDirs[r.value.videoId])))
  {
    var videoId := if Get(meta, "video_id", "") != [] then meta["video_id"] else stem;
    var channelId := Get(meta, "channel_id", "");
    var title := Get(meta, "title", stem);
    var known := channelId in channels;
    var thumbnail := if known then channels[channelId].thumbnailUrl.GetOr("") else "";
    var name := Get(meta, "channel_name", "");
    if name == [] && known && channels[channelId].name.None? then
      Err(MissingChannelName(channelId))
    else
      var channelName := if name == [] && known then channels[channelId].name.value else name;
      var listing := if videoId in cardDirs then Some(cardDirs[videoId]) else None;
      Ok(Episode(
        videoId, channelId, channelName, thumbnail, title,
        NormalizeDate(iso, Get(meta, "published", "")),
        NormalizeDate(iso, Get(meta, "processed", "")),
        "summaries/" + videoId + ".md",
        CardUrls(videoId, listing)))
  }

  function EpisodeKey(e: Episode): SortKey {
    SortKey(EpisodeNumber(e.title), e.processedAt)
  }

  /** The records of the files in order, or the first error. */
  function Records(make: SummaryFile -> Result<Episode, BuildError>, files: seq<SummaryFile>): (r: Result<seq<Episode>, BuildError>)
    ensures r.Ok? ==> |r.value| == |files|
    ensures r.Ok? ==> forall i :: 0 <= i < |files| ==> make(files[i]) == Ok(r.value[i])
    ensures r.Err? ==> exists i :: 0 <= i < |files| && make(files[i]) == Err(r.error)
  {
    if files == [] then Ok([])
    else match make(files[0])
      case Err(e) => Err(e)
      case Ok(first) =>
        match Records(make, files[1..])
        case Err(e) =>
          ghost var i :| 0 <= i < |files[1..]| && make(files[1..][i]) == Err(e);
          assert make(files[i + 1]) == Err(e);
          Err(e)
        case Ok(rest) =>
          assert forall i :: 1 <= i < |files| ==> files[i] == files[1..][i - 1];
          Ok([first] + rest)
  }

  /** The episode list: records of the summaries read in file-name order,
      then sorted by `(episode number, processed date)`, largest first. */
  function Build(
    files: seq<SummaryFile>, channels: map<String, ChannelInfo>,
    cardDirs: map<String, seq<String>>, iso: String -> String): Result<seq<Episode>, BuildError>
  {
    var inOrder := StableSort.Sort(FileName, StrLess, files);
    match Records(f => MakeEpisode(f, channels, cardDirs, iso), inOrder)
    case Err(e) => Err(e)
    case Ok(records) => Ok(StableSort.Sort(EpisodeKey, NewerFirst, records))
  }

  /** The episodes are exactly the records of the files, each listed after
      every episode with a larger key, and episodes with equal keys keep
      the order of their file names. */
  lemma {:induction false} BuildOrder(
    files: seq<SummaryFile>, channels: map<String, ChannelInfo>,
    cardDirs: map<String, seq<String>>, iso: String -> String)
    requires Build(files, channels, cardDirs, iso).Ok?
    ensures var inOrder := StableSort.Sort(FileName, StrLess, files);
      var records := Records(f => MakeEpisode(f, channels, cardDirs, iso), inOrder).value;
      var episodes := Build(files, channels, cardDirs, iso).value;
      && multiset(episodes) == multiset(records)
      && (forall i, j :: 0 <= i < j < |episodes| ==> !KeyLess(EpisodeKey(episodes[i]), EpisodeKey(episodes[j])))
      && (forall k :: StableSort.WithKey(EpisodeKey, episodes, k) == StableSort.WithKey(EpisodeKey, records, k))
  {
    var inOrder := StableSort.Sort(FileName, StrLess, files);
    var records := Records(f => MakeEpisode(f, channels, cardDirs, iso), inOrder).value;
    NewerFirstIsStrictTotalOrder();
    StableSort.SortSorted(EpisodeKey, NewerFirst, records);
    forall k
      ensures StableSort.WithKey(EpisodeKey, StableSort.Sort(EpisodeKey, NewerFirst, records), k)
           == StableSort.WithKey(EpisodeKey, records, k)
    {
      StableSort.SortStable(EpisodeKey, NewerFirst, records, k);
    }
  }

  /** The summaries are read in file-name order. */
  lemma {:induction false} FilesReadInNameOrder(files: seq<SummaryFile>)
    ensures var inOrder := StableSort.Sort(FileName, StrLess, files);
      multiset(inOrder) == multiset(files)
      && forall i, j :: 0 <= i < j < |inOrder| ==> !StrLess(FileName(inOrder[j]), FileName(inOrder[i]))
  {
    StrLessIsStrictTotalOrder();
    StableSort.SortSorted(FileName, StrLess, files);
  }
}
