/** The worker: `.env` loading, extraction of videos from a channel's RSS
    feed, the summary texts built around the language-model call, and the
    header written in front of a summary. */
module Worker {
  import opened Results
  import opened Text
  import SummaryParse

  // ------------------------------------------------------------- .env file

  datatype Setting = Setting(key: String, value: String)

  /** The value part of a line: trimmed, then every leading and trailing
      double quote removed, then every single quote. */
  function Unquoted(s: String): String {
    StripChar(StripChar(Strip(s), '"'), '\'')
  }

  /** What one line of a `.env` file sets: nothing for a blank line, a
      comment or a line without `=`; otherwise the trimmed text before the
      first `=` and the unquoted text after it. */
  function SettingOf(raw: String): (r: Option<Setting>)
    ensures r.Some? ==> '=' !in r.value.key
    ensures r.None? <==> Strip(raw) == [] || Strip(raw)[0] == '#' || '=' !in Strip(raw)
  {
    SettingOfLine(Strip(raw))
  }

  /** What a trimmed line sets. */
  function SettingOfLine(line: String): (r: Option<Setting>)
    ensures r.Some? ==> '=' !in r.value.key
    ensures r.None? <==> line == [] || line[0] == '#' || '=' !in line
  {
    if line == [] || line[0] == '#' then None
    else match IndexOf(line, '=')
      case None => None
      case Some(i) =>
        assert '=' !in Strip(line[..i]);
        Some(Setting(Strip(line[..i]), Unquoted(line[i + 1..])))
  }

  /** A line that is not a comment splits at its first `=`: the key is the
      trimmed text before it and the value the unquoted text after it. */
  lemma {:induction false} SettingSplit(raw: String, i: nat)
    requires i < |Strip(raw)| && Strip(raw)[i] == '=' && '=' !in Strip(raw)[..i]
    requires Strip(raw)[0] != '#'
    ensures SettingOf(raw) == Some(Setting(Strip(Strip(raw)[..i]), Unquoted(Strip(raw)[i + 1..])))
  {
    var line := Strip(raw);
    FirstIndexUnique(line, '=', i);
  }

  /** The only index that is the first occurrence of `c` is the one IndexOf finds. */
  lemma {:induction false} FirstIndexUnique(s: String, c: char, i: nat)
    requires i < |s| && s[i] == c && c !in s[..i]
    ensures IndexOf(s, c) == Some(i)
  {
    var j := IndexOf(s, c).value;
    assert forall k :: 0 <= k < i ==> s[..i][k] == s[k];
    assert forall k :: 0 <= k < j ==> s[..j][k] == s[k];
  }

  /** The setting sets `key`: the key is non-empty. */
  predicate Sets(s: Option<Setting>, key: String) {
    s.Some? && s.value.key == key && key != []
  }

  /** The value the first setting of `key` gives it. */
  function FirstSetting(settings: seq<Option<Setting>>, key: String): (r: Option<String>)
    ensures r.None? <==> forall i :: 0 <= i < |settings| ==> !Sets(settings[i], key)
    ensures r.Some? ==> exists i :: (0 <= i < |settings| && Sets(settings[i], key)
      && settings[i].value.value == r.value
      && forall j :: 0 <= j < i ==> !Sets(settings[j], key))
  {
    if settings == [] then None
    else if Sets(settings[0], key) then Some(settings[0].value.value)
    else
      var r := FirstSetting(settings[1..], key);
      assert forall i :: 1 <= i < |settings| ==> settings[i] == settings[1..][i - 1];
      r
  }

  /** Applies the settings in order to the environment `env`, never
      replacing a variable that is already set. */
  function Apply(settings: seq<Option<Setting>>, env: map<String, String>): (r: map<String, String>)
    ensures forall k :: k in env ==> k in r && r[k] == env[k]
    ensures forall k :: k !in env ==> (k in r <==> FirstSetting(settings, k).Some?)
    ensures forall k :: k !in env && k in r ==> r[k] == FirstSetting(settings, k).value
  {
    if settings == [] then env
    else
      var next := match settings[0]
        case Some(Setting(key, value)) => if key != [] && key !in env then env[key := value] else env
        case None => env;
      Apply(settings[1..], next)
  }

  function SettingsOf(lines: seq<String>): (r: seq<Option<Setting>>)
    ensures |r| == |lines|
    ensures forall i :: 0 <= i < |lines| ==> r[i] == SettingOf(lines[i])
  {
    seq(|lines|, i requires 0 <= i < |lines| => SettingOf(lines[i]))
  }

  /** Loads the lines of a `.env` file into the environment. */
  function LoadDotenv(lines: seq<String>, env: map<String, String>): map<String, String> {
    Apply(SettingsOf(lines), env)
  }

  /** `KEY="value"` sets KEY to the unquoted value. */
  lemma {:induction false} DotenvQuoted(key: String, value: String)
    requires key != [] && '=' !in key && key[0] != '#'
    requires !IsSpace(key[0]) && !IsSpace(key[|key| - 1])
    requires NoQuoteEnds(value)
    ensures SettingOf(key + "=\"" + value + "\"") == Some(Setting(key, value))
  {
    var quoted := "\"" + value + "\"";
    var raw := key + ['='] + quoted;
    assert raw == key + "=\"" + value + "\"";
    StripOfTrimmed(raw);
    IndexOfFirst(key, '=', quoted);
    assert raw[..|key|] == key;
    assert raw[|key| + 1..] == quoted;
    StripOfTrimmed(key);
    UnquotedValue(value);
    assert SettingOf(raw) == SettingOfLine(raw);
  }

  /** Neither end of `v` is a quote character. */
  predicate NoQuoteEnds(v: String) {
    v == [] || (v[0] != '"' && v[0] != '\'' && v[|v| - 1] != '"' && v[|v| - 1] != '\'')
  }

  lemma {:induction false} UnquotedValue(value: String)
    requires NoQuoteEnds(value)
    ensures Unquoted("\"" + value + "\"") == value
  {
    var q := ['"'];
    var x := q + value + q;
    assert x == "\"" + value + "\"";
    assert x[0] == '"' && x[|x| - 1] == '"';
    StripOfTrimmed(x);
    Unquote(value, '"');
    assert StripChar(x, '"') == value;
    StripCharNone(value, '\'');
  }

  lemma {:induction false} Unquote(value: String, q: char)
    requires value == [] || (value[0] != q && value[|value| - 1] != q)
    ensures StripChar([q] + value + [q], q) == value
  {
    if value == [] {
      UnquoteEmpty(q);
    } else {
      assert [q] + value + [q] == [q] + (value + [q]);
      LStripOne(value + [q], q);
      RStripOne(value, q);
    }
  }

  lemma {:induction false} UnquoteEmpty(q: char)
    ensures StripChar([q] + [] + [q], q) == []
  {
    assert [q] + [] + [q] == [q, q];
    assert [q, q][1..] == [q];
    assert [q][1..] == [];
  }

  lemma {:induction false} LStripOne(t: String, q: char)
    requires t == [] || t[0] != q
    ensures LStripChar([q] + t, q) == t
  {
    assert ([q] + t)[1..] == t;
  }

  lemma {:induction false} RStripOne(t: String, q: char)
    requires t == [] || t[|t| - 1] != q
    ensures RStripChar(t + [q], q) == t
  {
    assert (t + [q])[..|t|] == t;
  }

  lemma {:induction false} StripCharNone(value: String, q: char)
    requires value == [] || (value[0] != q && value[|value| - 1] != q)
    ensures StripChar(value, q) == value
  {
  }

  /** Of two settings of a variable not yet in the environment, the first
      wins. */
  lemma {:induction false} DotenvFirstWins(key: String, v1: String, v2: String, env: map<String, String>)
    requires key != [] && '=' !in key && key[0] != '#'
    requires !IsSpace(key[0]) && !IsSpace(key[|key| - 1])
    requires NoQuoteEnds(v1)
    requires key !in env
    ensures var r := LoadDotenv([key + "=\"" + v1 + "\"", key + "=\"" + v2 + "\""], env);
      key in r && r[key] == v1
  {
    DotenvQuoted(key, v1);
    var lines := [key + "=\"" + v1 + "\"", key + "=\"" + v2 + "\""];
    var settings := SettingsOf(lines);
    assert settings[0] == Some(Setting(key, v1));
    assert Sets(settings[0], key);
    assert FirstSetting(settings, key) == Some(v1);
  }

  // -------------------------------------------------------------- RSS feed

  const EntryOpen: String := "<entry>"
  const EntryClose: String := "</entry>"

  /** `re.findall(r'<entry>(.*?)</entry>', content, re.DOTALL)`: the text
      of each non-overlapping `<entry>…</entry>` block, left to right. */
  function EntryBlocks(content: String): (r: seq<String>)
    ensures forall i :: 0 <= i < |r| ==> Avoids(r[i], EntryClose)
  {
    BlocksAvoidClose(content, EntryOpen, EntryClose);
    Blocks(content, EntryOpen, EntryClose)
  }

  /** The text of each non-overlapping `open…close` block, left to right,
      with each block ending at the first `close` after its `open`. */
  function Blocks(content: String, open: String, close: String): seq<String>
    requires close != []
    decreases |content|
  {
    match FirstBlockAt(content, open, close)
    case None => []
    case Some(Block(block, next)) => [block] + Blocks(content[next..], open, close)
  }

  datatype Block = Block(text: String, next: nat)

  /** The first block: the text from the first `open` to the first `close`
      after it, and where the search resumes. */
  function FirstBlockAt(content: String, open: String, close: String): (r: Option<Block>)
    requires close != []
    ensures r.Some? ==> 0 < r.value.next <= |content|
  {
    match Find(content, open, 0)
    case None => None
    case Some(s) =>
      match Find(content, close, s + |open|)
      case None => None
      case Some(e) => Some(Block(content[s + |open|..e], e + |close|))
  }

  /** No block holds `close`: the lazy `.*?` stops at the first one. */
  lemma {:induction false} BlocksAvoidClose(content: String, open: String, close: String)
    requires close != []
    ensures forall i :: 0 <= i < |Blocks(content, open, close)| ==> Avoids(Blocks(content, open, close)[i], close)
    decreases |content|
  {
    match FirstBlockAt(content, open, close)
    case None =>
    case Some(Block(block, next)) =>
      BlocksAvoidClose(content[next..], open, close);
      FirstBlockAvoidsClose(content, open, close);
  }

  lemma {:induction false} FirstBlockAvoidsClose(content: String, open: String, close: String)
    requires close != []
    ensures FirstBlockAt(content, open, close).Some? ==> Avoids(FirstBlockAt(content, open, close).value.text, close)
  {
    match Find(content, open, 0)
    case None =>
    case Some(s) =>
      match Find(content, close, s + |open|)
      case None =>
      case Some(e) => SliceAvoids(content, s + |open|, e, close);
  }

  /** A feed: before each entry a gap (the feed's header, the whitespace
      between entries), then the entries, then the closing text. */
  function Feed(gaps: seq<String>, entries: seq<String>, tail: String): String
    requires |gaps| == |entries|
    decreases |entries|
  {
    if entries == [] then tail
    else gaps[0] + EntryOpen + entries[0] + EntryClose + Feed(gaps[1..], entries[1..], tail)
  }

  /** The feed's parts are where the search finds them: no `<entry>` outside
      the entries, no `</entry>` inside one. */
  predicate FeedParts(gaps: seq<String>, entries: seq<String>, tail: String) {
    && |gaps| == |entries|
    && (forall i :: 0 <= i < |gaps| ==> Avoids(gaps[i], EntryOpen))
    && (forall i :: 0 <= i < |entries| ==> Avoids(entries[i], EntryClose))
    && Avoids(tail, EntryOpen)
  }

  /** A feed yields back each entry's text, in order, whatever tags the
      entries hold. */
  lemma {:induction false} EntryBlocksOfFeed(gaps: seq<String>, entries: seq<String>, tail: String)
    requires FeedParts(gaps, entries, tail)
    ensures EntryBlocks(Feed(gaps, entries, tail)) == entries
    decreases |entries|
  {
    if entries == [] {
      assert Find(tail, EntryOpen, 0).None?;
    } else {
      FeedPartsRest(gaps, entries, tail);
      EntryBlocksOfFeed(gaps[1..], entries[1..], tail);
      FirstEntry(gaps[0], entries[0], Feed(gaps[1..], entries[1..], tail));
      assert entries == [entries[0]] + entries[1..];
    }
  }

  lemma {:induction false} FeedPartsRest(gaps: seq<String>, entries: seq<String>, tail: String)
    requires FeedParts(gaps, entries, tail) && entries != []
    ensures FeedParts(gaps[1..], entries[1..], tail)
    ensures Avoids(gaps[0], EntryOpen) && Avoids(entries[0], EntryClose)
  {
    assert forall i :: 0 <= i < |gaps[1..]| ==> gaps[1..][i] == gaps[i + 1];
    assert forall i :: 0 <= i < |entries[1..]| ==> entries[1..][i] == entries[i + 1];
  }

  /** The first entry after a gap without `<entry>` is found first, and the
      search resumes after it. */
  lemma {:induction false} FirstEntry(gap: String, e: String, rest: String)
    requires Avoids(gap, EntryOpen) && Avoids(e, EntryClose)
    ensures EntryBlocks(gap + EntryOpen + e + EntryClose + rest) == [e] + EntryBlocks(rest)
  {
    assert EntryOpen[1..] == "entry>";
    assert EntryClose[1..] == "/entry>";
    FirstBlock(gap, EntryOpen, e, EntryClose, rest);
  }

  lemma {:induction false} FirstBlock(gap: String, open: String, v: String, close: String, rest: String)
    requires UniqueHead(open) && UniqueHead(close)
    requires Avoids(gap, open) && Avoids(v, close)
    ensures Blocks(gap + open + v + close + rest, open, close) == [v] + Blocks(rest, open, close)
  {
    var content := gap + open + v + close + rest;
    var next := |gap| + |open| + |v| + |close|;
    FirstBlockIs(gap, open, v, close, rest);
    assert content[next..] == rest;
  }

  lemma {:induction false} FirstBlockIs(gap: String, open: String, v: String, close: String, rest: String)
    requires UniqueHead(open) && UniqueHead(close)
    requires Avoids(gap, open) && Avoids(v, close)
    ensures FirstBlockAt(gap + open + v + close + rest, open, close) == Some(Block(v, |gap| + |open| + |v| + |close|))
  {
    FindOpenAfterGap(gap, open, v, close, rest);
    FindCloseAfterValue(gap, open, v, close, rest);
    FramedValue(gap, open, v, close, rest);
    FirstBlockAtFound(gap + open + v + close + rest, open, close, |gap|, |gap| + |open| + |v|, v);
  }

  lemma {:induction false} FramedValue(gap: String, open: String, v: String, close: String, rest: String)
    ensures (gap + open + v + close + rest)[|gap| + |open|..|gap| + |open| + |v|] == v
  {
    MiddleSlice(gap + open, v, close, rest);
  }

  /** In `gap + open + tail`, the first `open` follows the gap. */
  lemma {:induction false} FindOpenAfterGap(gap: String, open: String, v: String, close: String, rest: String)
    requires UniqueHead(open) && Avoids(gap, open)
    ensures Find(gap + open + v + close + rest, open, 0) == Some(|gap|)
  {
    FindAfterGap([], gap, open, v + close + rest);
    assert [] + gap == gap;
    Regroup(gap, open, v, close, rest);
  }

  /** In `gap + open + v + close + rest`, the first `close` after the
      `open` follows `v`. */
  lemma {:induction false} FindCloseAfterValue(gap: String, open: String, v: String, close: String, rest: String)
    requires UniqueHead(close) && Avoids(v, close)
    ensures Find(gap + open + v + close + rest, close, |gap| + |open|) == Some(|gap| + |open| + |v|)
  {
    FindAfterGap(gap + open, v, close, rest);
  }

  lemma {:induction false} FirstBlockAtFound(content: String, open: String, close: String, s: nat, c: nat, v: String)
    requires close != []
    requires Find(content, open, 0) == Some(s) && Find(content, close, s + |open|) == Some(c)
    requires s + |open| <= c && content[s + |open|..c] == v
    ensures FirstBlockAt(content, open, close) == Some(Block(v, c + |close|))
  {
  }

  function OpenTag(tag: String): String {
    "<" + tag + ">"
  }

  function CloseTag(tag: String): String {
    "</" + tag + ">"
  }

  lemma {:induction false} TagsUniqueHead(tag: String)
    requires '<' !in tag
    ensures UniqueHead(OpenTag(tag)) && UniqueHead(CloseTag(tag))
  {
    assert OpenTag(tag)[1..] == tag + ">";
    assert CloseTag(tag)[1..] == "/" + tag + ">";
  }

  /** `value` sits between an opening tag at `start` and the first closing
      tag after it, on one line. */
  ghost predicate ValueAt(entry: String, open: String, close: String, start: nat, value: String) {
    && OccursAt(entry, open, start)
    && OccursAt(entry, close, start + |open| + |value|)
    && entry[start + |open|..start + |open| + |value|] == value
    && '\n' !in value
    && forall j :: start + |open| <= j < start + |open| + |value| ==> !OccursAt(entry, close, j)
  }

  /** `<tag>(.*?)</tag>` can match at `start`: an opening tag there and some
      closing tag after it with no line break in between. */
  ghost predicate MatchesAt(entry: String, open: String, close: String, start: nat) {
    && OccursAt(entry, open, start)
    && exists c: nat :: start + |open| <= c && OccursAt(entry, close, c) && '\n' !in entry[start + |open|..c]
  }

  lemma {:induction false} ValueAtMatches(entry: String, open: String, close: String, start: nat, value: String)
    requires ValueAt(entry, open, close, start, value)
    ensures MatchesAt(entry, open, close, start)
  {
    var c := start + |open| + |value|;
    assert OccursAt(entry, close, c) && '\n' !in entry[start + |open|..c];
  }

  /** Of two closing tags after `b`, the text up to the later one holds any
      line break the text up to the earlier one holds. */
  lemma {:induction false} LineBreakExtends(entry: String, b: nat, c: nat, d: nat)
    requires b <= c <= d <= |entry| && '\n' in entry[b..c]
    ensures '\n' in entry[b..d]
  {
    assert entry[b..d] == entry[b..c] + entry[c..d];
  }

  datatype Match = Match(start: nat, value: String)

  /** `re.search(r'<tag>(.*?)</tag>', entry)` from position `from`: the
      first opening tag whose value runs to the next closing tag without
      crossing a line break (`.` does not match `\n`). */
  function TagSearch(entry: String, open: String, close: String, from: nat): (r: Option<Match>)
    requires open != []
    ensures r.Some? ==> from <= r.value.start && ValueAt(entry, open, close, r.value.start, r.value.value)
    ensures r.Some? ==> forall s: nat :: from <= s < r.value.start ==> !MatchesAt(entry, open, close, s)
    ensures r.None? ==> forall s: nat :: from <= s ==> !MatchesAt(entry, open, close, s)
    decreases |entry| - from
  {
    match Find(entry, open, from)
    case None =>
      NoOpenNoMatch(entry, open, close, from);
      None
    case Some(s) =>
      var b := s + |open|;
      BeforeFirstOpen(entry, open, close, from, s);
      match Find(entry, close, b)
      case None =>
        NoCloseNoMatch(entry, open, close, s);
        None
      case Some(c) =>
        if '\n' !in entry[b..c] then Some(Match(s, entry[b..c]))
        else
          BrokenLineNoMatch(entry, open, close, s, c);
          TagSearch(entry, open, close, s + 1)
  }

  lemma {:induction false} NoOpenNoMatch(entry: String, open: String, close: String, from: nat)
    requires Find(entry, open, from).None?
    ensures forall s: nat :: from <= s ==> !MatchesAt(entry, open, close, s)
  {
  }

  lemma {:induction false} BeforeFirstOpen(entry: String, open: String, close: String, from: nat, s: nat)
    requires Find(entry, open, from) == Some(s)
    ensures forall t: nat :: from <= t < s ==> !MatchesAt(entry, open, close, t)
  {
  }

  /** With no closing tag after the first opening tag, no later opening tag is closed either. */
  lemma {:induction false} NoCloseNoMatch(entry: String, open: String, close: String, s: nat)
    requires Find(entry, close, s + |open|).None?
    ensures forall t: nat :: s <= t ==> !MatchesAt(entry, open, close, t)
  {
  }

  /** The nearest closing tag lies past a line break, so the opening tag at `s` has no one-line match. */
  lemma {:induction false} BrokenLineNoMatch(entry: String, open: String, close: String, s: nat, c: nat)
    requires Find(entry, close, s + |open|) == Some(c)
    requires s + |open| <= c && '\n' in entry[s + |open|..c]
    ensures !MatchesAt(entry, open, close, s)
  {
    var b := s + |open|;
    forall d: nat | b <= d && OccursAt(entry, close, d)
      ensures '\n' in entry[b..d]
    {
      LineBreakExtends(entry, b, c, d);
    }
  }

  /** Some `<tag>…</tag>` on one line occurs in the entry. */
  ghost predicate HasTag(entry: String, tag: String) {
    exists s: nat :: MatchesAt(entry, OpenTag(tag), CloseTag(tag), s)
  }

  /** `value` is what the first match of `<tag>(.*?)</tag>` captures. */
  ghost predicate FirstValue(entry: String, tag: String, value: String) {
    exists s: nat :: ValueAt(entry, OpenTag(tag), CloseTag(tag), s, value)
      && forall t: nat :: t < s ==> !MatchesAt(entry, OpenTag(tag), CloseTag(tag), t)
  }

  /** The captured text of the first match of `<tag>(.*?)</tag>`, if any. */
  function TagValue(entry: String, tag: String): (r: Option<String>)
    ensures r.Some? <==> HasTag(entry, tag)
    ensures r.Some? ==> FirstValue(entry, tag, r.value)
  {
    match TagSearch(entry, OpenTag(tag), CloseTag(tag), 0)
    case None => None
    case Some(m) =>
      ValueAtMatches(entry, OpenTag(tag), CloseTag(tag), m.start, m.value);
      Some(m.value)
  }

  /** The first match is one: no two values are both the first. */
  lemma {:induction false} FirstValueUnique(entry: String, tag: String, v: String, w: String)
    requires FirstValue(entry, tag, v) && FirstValue(entry, tag, w)
    ensures v == w
  {
    var s: nat :| ValueAt(entry, OpenTag(tag), CloseTag(tag), s, v)
      && forall t: nat :: t < s ==> !MatchesAt(entry, OpenTag(tag), CloseTag(tag), t);
    var u: nat :| ValueAt(entry, OpenTag(tag), CloseTag(tag), u, w)
      && forall t: nat :: t < u ==> !MatchesAt(entry, OpenTag(tag), CloseTag(tag), t);
    SameFirstMatch(entry, OpenTag(tag), CloseTag(tag), s, v, u, w);
  }

  lemma {:induction false} SameFirstMatch(entry: String, open: String, close: String, s: nat, v: String, u: nat, w: String)
    requires ValueAt(entry, open, close, s, v) && forall t: nat :: t < s ==> !MatchesAt(entry, open, close, t)
    requires ValueAt(entry, open, close, u, w) && forall t: nat :: t < u ==> !MatchesAt(entry, open, close, t)
    ensures v == w
  {
    ValueAtMatches(entry, open, close, s, v);
    ValueAtMatches(entry, open, close, u, w);
    assert s == u;
    LazyValueUnique(entry, open, close, s, v, w);
  }

  /** At one start, the lazy value is the one that ends at the first
      closing tag. */
  lemma {:induction false} LazyValueUnique(entry: String, open: String, close: String, s: nat, v: String, w: String)
    requires ValueAt(entry, open, close, s, v) && ValueAt(entry, open, close, s, w)
    ensures v == w
  {
    assert !(|v| < |w|) by {
      assert OccursAt(entry, close, s + |open| + |v|);
    }
    assert !(|w| < |v|) by {
      assert OccursAt(entry, close, s + |open| + |w|);
    }
  }

  /** The value after the first `<tag>` of an entry, on one line and without
      `</tag>`, is the value read, whatever comes before it. */
  lemma {:induction false} TagValueAfter(tag: String, pre: String, v: String, rest: String)
    requires '<' !in tag
    requires Avoids(pre, OpenTag(tag))
    requires '\n' !in v && Avoids(v, CloseTag(tag))
    ensures TagValue(pre + OpenTag(tag) + v + CloseTag(tag) + rest, tag) == Some(v)
  {
    TagsUniqueHead(tag);
    TagSearchFramed(pre, OpenTag(tag), v, CloseTag(tag), rest);
  }

  lemma {:induction false} TagSearchFramed(pre: String, open: String, v: String, close: String, rest: String)
    requires UniqueHead(open) && UniqueHead(close)
    requires Avoids(pre, open) && Avoids(v, close) && '\n' !in v
    ensures TagSearch(pre + open + v + close + rest, open, close, 0) == Some(Match(|pre|, v))
  {
    FindOpenAfterGap(pre, open, v, close, rest);
    FindCloseAfterValue(pre, open, v, close, rest);
    FramedValue(pre, open, v, close, rest);
    TagSearchHit(pre + open + v + close + rest, open, close, 0, |pre|, |pre| + |open| + |v|, v);
  }

  lemma {:induction false} TagSearchHit(entry: String, open: String, close: String, from: nat, s: nat, c: nat, v: String)
    requires open != []
    requires Find(entry, open, from) == Some(s)
    requires Find(entry, close, s + |open|) == Some(c)
    requires s + |open| <= c && entry[s + |open|..c] == v && '\n' !in v
    ensures TagSearch(entry, open, close, from) == Some(Match(s, v))
  {
  }

  datatype Video = Video(videoId: String, title: String, publishedAt: String)

  /** The video an entry describes, if it has both a video id and a title;
      the publication date defaults to empty. */
  function EntryVideo(entry: String): (r: Option<Video>)
    ensures r.Some? <==> HasTag(entry, "yt:videoId") && HasTag(entry, "title")
    ensures r.Some? ==> FirstValue(entry, "yt:videoId", r.value.videoId) && FirstValue(entry, "title", r.value.title)
    ensures r.Some? && HasTag(entry, "published") ==> FirstValue(entry, "published", r.value.publishedAt)
    ensures r.Some? && !HasTag(entry, "published") ==> r.value.publishedAt == []
  {
    match (TagValue(entry, "yt:videoId"), TagValue(entry, "title"))
    case (Some(id), Some(title)) => Some(Video(id, title, TagValue(entry, "published").GetOr("")))
    case _ => None
  }

  /** The present values, in order. */
  function Present(opts: seq<Option<Video>>): (r: seq<Video>)
    ensures |r| <= |opts|
    ensures forall x :: x in r <==> Some(x) in opts
  {
    if opts == [] then []
    else
      var rest := Present(opts[1..]);
      assert forall x :: Some(x) in opts <==> Some(x) == opts[0] || Some(x) in opts[1..];
      if opts[0].Some? then [opts[0].value] + rest else rest
  }

  /** Appending an entry appends its video, if it has one: the videos keep
      the order of the entries. */
  lemma {:induction false} PresentAppend(opts: seq<Option<Video>>, o: Option<Video>)
    ensures Present(opts + [o]) == Present(opts) + (if o.Some? then [o.value] else [])
    decreases |opts|
  {
    if opts == [] {
      assert [] + [o] == [o];
    } else {
      assert (opts + [o])[1..] == opts[1..] + [o];
      PresentAppend(opts[1..], o);
    }
  }

  function EntryVideos(entries: seq<String>): (r: seq<Option<Video>>)
    ensures |r| == |entries|
    ensures forall i :: 0 <= i < |entries| ==> r[i] == EntryVideo(entries[i])
  {
    seq(|entries|, i requires 0 <= i < |entries| => EntryVideo(entries[i]))
  }

  /** The videos the entries describe, in entry order. */
  function VideosOf(entries: seq<String>): (r: seq<Video>)
    ensures |r| <= |entries|
    ensures forall v :: v in r <==> exists i :: 0 <= i < |entries| && EntryVideo(entries[i]) == Some(v)
  {
    var opts := EntryVideos(entries);
    assert forall v :: Some(v) in opts <==> exists i :: 0 <= i < |entries| && opts[i] == Some(v);
    Present(opts)
  }

  /** One more entry adds its video, if it has one, after the others. */
  lemma {:induction false} VideosOfAppend(entries: seq<String>, e: String)
    ensures VideosOf(entries + [e]) == VideosOf(entries) + (if EntryVideo(e).Some? then [EntryVideo(e).value] else [])
  {
    assert EntryVideos(entries + [e]) == EntryVideos(entries) + [EntryVideo(e)];
    PresentAppend(EntryVideos(entries), EntryVideo(e));
  }

  /** The entries `[:max_results]` keeps. */
  function FirstEntries(content: String, maxResults: int): seq<String> {
    PyPrefix(EntryBlocks(content), maxResults)
  }

  /** The videos of the first `maxResults` entries of a feed, in feed order. */
  function VideosFromRss(content: String, maxResults: int): (r: seq<Video>)
    ensures maxResults >= 0 ==> |r| <= maxResults
    ensures forall v :: v in r <==>
      exists i :: 0 <= i < |FirstEntries(content, maxResults)| && EntryVideo(FirstEntries(content, maxResults)[i]) == Some(v)
  {
    VideosOf(FirstEntries(content, maxResults))
  }

  lemma {:induction false} FeedPartsAppend(gaps: seq<String>, entries: seq<String>, tail: String, gap: String, e: String)
    requires FeedParts(gaps, entries, tail)
    requires Avoids(gap, EntryOpen) && Avoids(e, EntryClose)
    ensures FeedParts(gaps + [gap], entries + [e], tail)
  {
    assert forall i :: 0 <= i < |gaps| ==> (gaps + [gap])[i] == gaps[i];
    assert forall i :: 0 <= i < |entries| ==> (entries + [e])[i] == entries[i];
  }

  /** One more entry within the limit adds its video after the videos of
      the entries before it: the videos keep feed order. */
  lemma {:induction false} VideosOfLongerFeed(gaps: seq<String>, entries: seq<String>, tail: String, gap: String, e: String, maxResults: int)
    requires FeedParts(gaps, entries, tail)
    requires Avoids(gap, EntryOpen) && Avoids(e, EntryClose)
    requires |entries| < maxResults
    ensures VideosFromRss(Feed(gaps + [gap], entries + [e], tail), maxResults)
      == VideosFromRss(Feed(gaps, entries, tail), maxResults) + (if EntryVideo(e).Some? then [EntryVideo(e).value] else [])
  {
    FeedPartsAppend(gaps, entries, tail, gap, e);
    EntryBlocksOfFeed(gaps, entries, tail);
    EntryBlocksOfFeed(gaps + [gap], entries + [e], tail);
    VideosOfAppend(entries, e);
  }

  /** Entries after the first `maxResults` are never read. */
  lemma {:induction false} EntriesBeyondLimitIgnored(gaps: seq<String>, entries: seq<String>, tail: String, gap: String, e: String, maxResults: int)
    requires FeedParts(gaps, entries, tail)
    requires Avoids(gap, EntryOpen) && Avoids(e, EntryClose)
    requires 0 <= maxResults <= |entries|
    ensures VideosFromRss(Feed(gaps + [gap], entries + [e], tail), maxResults)
      == VideosFromRss(Feed(gaps, entries, tail), maxResults)
  {
    FeedPartsAppend(gaps, entries, tail, gap, e);
    EntryBlocksOfFeed(gaps, entries, tail);
    EntryBlocksOfFeed(gaps + [gap], entries + [e], tail);
    assert (entries + [e])[..maxResults] == entries[..maxResults];
  }

  /** The newest videos: the feed's when it has any, otherwise the page
      scrape's, otherwise none (a failing fetch is `None`). */
  function LatestVideos(rss: Option<seq<Video>>, page: Option<seq<Video>>): (r: seq<Video>)
    ensures rss.Some? && rss.value != [] ==> r == rss.value
    ensures (rss.None? || rss.value == []) ==> r == page.GetOr([])
  {
    if rss.Some? && rss.value != [] then rss.value else page.GetOr([])
  }

  /** The page is scraped exactly when none of the first `maxResults`
      entries of the feed describes a video; otherwise the feed's videos
      are the result. */
  lemma {:induction false} LatestOfFeed(content: String, maxResults: int, page: Option<seq<Video>>)
    ensures var entries := FirstEntries(content, maxResults);
      var r := LatestVideos(Some(VideosFromRss(content, maxResults)), page);
      && ((exists i :: 0 <= i < |entries| && EntryVideo(entries[i]).Some?) ==> r == VideosFromRss(content, maxResults) && r != [])
      && ((forall i :: 0 <= i < |entries| ==> EntryVideo(entries[i]).None?) ==> r == page.GetOr([]))
  {
    var entries := FirstEntries(content, maxResults);
    var videos := VideosFromRss(content, maxResults);
    if videos != [] {
      assert videos[0] in videos;
    }
    if i :| 0 <= i < |entries| && EntryVideo(entries[i]).Some? {
      assert EntryVideo(entries[i]).value in videos;
    }
  }

  // ------------------------------------------------------------- summaries

  /** The notice after the title; its first character ends the heading line. */
  const NoKeyNotice: String := "\n" + NoKeyMessage
  const NoKeyMessage: String := "\n⚠\U{FE0F} 請設定 GEMINI_API_KEY 環境變數以啟用 AI 摘要功能。\n\n## 逐字稿原文\n\n"
  const FailureNotice: String := "\n\n⚠\U{FE0F} AI 摘要生成失敗："
  const FailureTail: String := "\n\n## 逐字稿前段\n\n"
  const PromptIntro: String := "你是一位專業的投資分析師助理。請分析以下投資 Podcast / YouTube 影片的逐字稿，產出結構化的投資重點摘要。\n\n影片標題："
  const PromptTranscript: String := "\n\n逐字稿：\n"
  const PromptFormatLead: String := "\n\n請用繁體中文產出以下格式的 Markdown 摘要：\n\n"

  /** The sections the prompt asks for, each with its instruction. */
  const RequestedSections: seq<(String, String)> := [
    ("核心觀點", "（3-5個主要投資觀點）"),
    ("提及標的", "（股票、ETF、產業、市場等，若無則標注「本集未提及具體標的」）"),
    ("關鍵數據", "（重要數字、指標、時間點）"),
    ("投資機會", "（值得關注的機會）"),
    ("風險提示", "（提到的風險或注意事項）"),
    ("個人行動建議", "（根據內容，投資人可以採取的具體行動）")]

  function SectionTemplate(section: (String, String)): String {
    "## " + section.0 + "\n" + section.1
  }

  function PromptFormat(): String {
    PromptFormatLead
      + Join(seq(|RequestedSections|, i requires 0 <= i < |RequestedSections| => SectionTemplate(RequestedSections[i])), "\n\n")
      + "\n"
  }

  /** The summary written when no API key is configured. */
  function NoKeySummary(transcript: String, title: String): (r: String)
    ensures StartsWith(r, "# " + title)
    ensures |r| == 2 + |title| + |NoKeyNotice| + |PyPrefix(transcript, 2000)| + 3
    ensures |PyPrefix(transcript, 2000)| <= 2000
  {
    "# " + title + NoKeyNotice + PyPrefix(transcript, 2000) + "..."
  }

  /** The request sent to the model. */
  function Prompt(transcript: String, title: String): (r: String)
    ensures |PyPrefix(transcript, 8000)| <= 8000
    ensures |r| == |PromptIntro| + |title| + |PromptTranscript| + |PyPrefix(transcript, 8000)| + |PromptFormat()|
  {
    PromptIntro + title + PromptTranscript + PyPrefix(transcript, 8000) + PromptFormat()
  }

  /** The summary written when the model call fails with `error`. */
  function FailureSummary(transcript: String, title: String, error: String): (r: String)
    ensures StartsWith(r, "# " + title)
    ensures |PyPrefix(transcript, 1000)| <= 1000
    ensures |r| == 2 + |title| + |FailureNotice| + |error| + |FailureTail| + |PyPrefix(transcript, 1000)|
  {
    "# " + title + FailureNotice + error + FailureTail + PyPrefix(transcript, 1000)
  }

  /** The summary of a transcript. `service(key, prompt)` is the model call:
      the text of its first candidate, or the message of what failed. */
  function GenerateSummary(
    apiKey: String, transcript: String, title: String,
    service: (String, String) -> Result<String, String>): (r: String)
    ensures apiKey == [] ==> r == NoKeySummary(transcript, title)
    ensures apiKey != [] && service(apiKey, Prompt(transcript, title)).Ok? ==> r == service(apiKey, Prompt(transcript, title)).value
    ensures apiKey != [] && service(apiKey, Prompt(transcript, title)).Err? ==> r == FailureSummary(transcript, title, service(apiKey, Prompt(transcript, title)).error)
  {
    if apiKey == [] then NoKeySummary(transcript, title)
    else match service(apiKey, Prompt(transcript, title))
      case Ok(text) => text
      case Err(e) => FailureSummary(transcript, title, e)
  }

  /** When no key is configured, the summary's parsed title is the video
      title, trimmed. */
  lemma {:induction false} NoKeySummaryTitle(transcript: String, title: String)
    requires title != [] && '\n' !in title
    ensures SummaryParse.ParseSummary(NoKeySummary(transcript, title)).title == Strip(title)
  {
    var rest := NoKeyMessage + PyPrefix(transcript, 2000) + "...";
    assert "# " + title + NoKeyNotice + PyPrefix(transcript, 2000) + "..."
      == "# " + title + "\n" + rest;
    SummaryParse.TitleKeepsLinkMarkup(title, rest);
  }

  /** When the model call fails, the summary's parsed title is the video
      title, trimmed. */
  lemma {:induction false} FailureSummaryTitle(transcript: String, title: String, error: String)
    requires title != [] && '\n' !in title
    ensures SummaryParse.ParseSummary(FailureSummary(transcript, title, error)).title == Strip(title)
  {
    var rest := FailureNotice[1..] + error + FailureTail + PyPrefix(transcript, 1000);
    assert FailureNotice == "\n" + FailureNotice[1..];
    assert "# " + title + FailureNotice + error + FailureTail + PyPrefix(transcript, 1000)
      == "# " + title + "\n" + rest;
    SummaryParse.TitleKeepsLinkMarkup(title, rest);
  }

  /** Without a key, or when the model call fails, the summary still parses
      back to the video's title; otherwise it is the model's text. */
  lemma {:induction false} GenerateSummaryTitle(
    apiKey: String, transcript: String, title: String,
    service: (String, String) -> Result<String, String>)
    requires title != [] && '\n' !in title
    requires apiKey == [] || service(apiKey, Prompt(transcript, title)).Err?
    ensures SummaryParse.ParseSummary(GenerateSummary(apiKey, transcript, title, service)).title == Strip(title)
  {
    if apiKey == [] {
      NoKeySummaryTitle(transcript, title);
    } else {
      FailureSummaryTitle(transcript, title, service(apiKey, Prompt(transcript, title)).error);
    }
  }

  /** A transcript up to the length limit is embedded whole. */
  lemma {:induction false} ShortTranscriptEmbedded(transcript: String, title: String)
    requires |transcript| <= 1000
    ensures NoKeySummary(transcript, title) == "# " + title + NoKeyNotice + transcript + "..."
    ensures FailureSummary(transcript, title, []) == "# " + title + FailureNotice + FailureTail + transcript
  {
  }

  // ---------------------------------------------------------------- header

  const WatchLink: String := "\U{1F517} [YouTube 觀看原片](https://youtube.com/watch?v="

  /** The frontmatter lines of the `fetch` command's summary file. */
  function WorkerFields(v: Video, channelId: String, now: String): seq<String> {
    ["title: " + v.title, "video_id: " + v.videoId, "channel_id: " + channelId,
     "published: " + v.publishedAt, "processed: " + now]
  }

  /** The heading and video link written under the frontmatter. */
  function Preamble(v: Video): String {
    "# " + v.title + "\n\n" + WatchLink + v.videoId + ")\n\n"
  }

  /** The `fetch` command's summary file: frontmatter, title, link, summary. */
  function WorkerDocument(v: Video, channelId: String, now: String, summary: String): String {
    "---\n" + Terminated(WorkerFields(v, channelId, now)) + "---\n\n" + Preamble(v) + summary
  }
}
