/** How the parts fit together: the summary files the `run` and `fetch`
    paths write, as the site builder and the `cards` command read them
    back; the cards the generator names, as the site lists them; and the
    sections the summary prompt asks for, as the card generator orders
    them. */
module Pipeline {
  import opened Results
  import opened Text
  import StableSort
  import SiteBuild
  import Worker
  import Runner
  import Cards
  import SummaryParse

  // ------------------------------------------------- frontmatter blocks

  /** A value a writer can put on a frontmatter line and have read back:
      one line, and no `---` that would close the block early. */
  predicate Writable(s: String) {
    NoLineBreak(s) && Avoids(s, "---")
  }

  /** A summary file as the writers lay it out: `---`, the field lines,
      `---`, then the rest. */
  function Framed(fields: seq<String>, rest: String): String {
    "---" + ("\n" + Terminated(fields)) + "---" + rest
  }

  /** `key: value`, as the writers put a field. */
  function FieldLines(keys: seq<String>, values: seq<String>): (lines: seq<String>)
    requires |keys| == |values|
    ensures |lines| == |keys|
  {
    seq(|keys|, i requires 0 <= i < |keys| => keys[i] + ": " + values[i])
  }

  lemma {:induction false} StripLeadingSpace(t: String)
    ensures Strip(" " + t) == Strip(t)
  {
    assert (" " + t)[1..] == t;
    assert LStrip(" " + t) == LStrip(t);
  }

  lemma {:induction false} BlockOf(fields: seq<String>)
    requires forall i :: 0 <= i < |fields| ==> Writable(fields[i])
    ensures var block := "\n" + Terminated(fields);
      && Avoids(block, "---") && block[|block| - 1] == '\n'
      && SplitLines(block) == [""] + fields
  {
    var t := Terminated(fields);
    if fields != [] {
      TerminatedEnds(fields);
    }
    AvoidsTerminated(fields);
    NoDashAvoids("\n");
    AvoidsDashesAppend("\n", t);
    SplitLinesTerminated(fields);
    SplitLinesCons("", t);
    assert "" + "\n" + t == "\n" + t;
  }

  /** The site's frontmatter parser reads a framed file as its field lines
      and the rest without its leading newlines. */
  lemma {:induction false} FramedFrontmatter(fields: seq<String>, rest: String)
    requires forall i :: 0 <= i < |fields| ==> Writable(fields[i])
    ensures SiteBuild.ParseFrontmatter(Framed(fields, rest))
         == SiteBuild.Document(SiteBuild.MetaOf([""] + fields), LStripChar(rest, '\n'))
  {
    BlockOf(fields);
    SiteBuild.FrontmatterBlock("\n" + Terminated(fields), rest);
  }

  /** The `cards` command scans exactly the field lines of a framed file. */
  lemma {:induction false} FramedScan(fields: seq<String>, rest: String, channels: seq<Runner.Channel>)
    requires forall i :: 0 <= i < |fields| ==> Writable(fields[i])
    ensures Runner.CardsChannelName(Framed(fields, rest), channels)
         == Runner.Scan(Runner.KindsOf([""] + fields), channels, [])
  {
    var block := "\n" + Terminated(fields);
    BlockOf(fields);
    SiteBuild.CloseAfterBlock(block, rest);
    assert Framed(fields, rest) == "---" + block + "---" + rest;
    ScanOfBlock(block, rest, channels);
  }

  lemma {:induction false} ScanOfBlock(block: String, rest: String, channels: seq<Runner.Channel>)
    requires Find("---" + block + "---" + rest, "---", 3) == Some(3 + |block|)
    ensures Runner.CardsChannelName("---" + block + "---" + rest, channels)
         == Runner.Scan(Runner.KindsOf(SplitLines(block)), channels, [])
  {
    var content := "---" + block + "---" + rest;
    assert content[..3] == "---";
    assert content[3..3 + |block|] == block;
  }

  /** Each `key: value` line is read as the field of its key and the
      stripped value; the blank line before them is no field. */
  lemma {:induction false} FieldsOfFieldLines(keys: seq<String>, values: seq<String>)
    requires |keys| == |values|
    requires forall i :: 0 <= i < |keys| ==> keys[i] != [] && SiteBuild.AllWord(keys[i])
    ensures var fs := SiteBuild.FieldsOf([""] + FieldLines(keys, values));
      && |fs| == |keys| + 1 && fs[0] == None
      && forall i :: 0 <= i < |keys| ==> fs[i + 1] == Some(SiteBuild.Field(keys[i], Strip(values[i])))
  {
    var fs := SiteBuild.FieldsOf([""] + FieldLines(keys, values));
    assert fs[0] == SiteBuild.MetaField("") == None;
    forall i | 0 <= i < |keys|
      ensures fs[i + 1] == Some(SiteBuild.Field(keys[i], Strip(values[i])))
    {
      FieldLineAt(keys, values, i);
    }
  }

  lemma {:induction false} FieldLineAt(keys: seq<String>, values: seq<String>, i: nat)
    requires |keys| == |values| && i < |keys|
    requires keys[i] != [] && SiteBuild.AllWord(keys[i])
    ensures SiteBuild.FieldsOf([""] + FieldLines(keys, values))[i + 1] == Some(SiteBuild.Field(keys[i], Strip(values[i])))
  {
    var lines := [""] + FieldLines(keys, values);
    assert lines[i + 1] == keys[i] + ": " + values[i];
    FieldOfLine(keys[i], values[i]);
  }

  lemma {:induction false} FieldOfLine(key: String, value: String)
    requires key != [] && SiteBuild.AllWord(key)
    ensures SiteBuild.MetaField(key + ": " + value) == Some(SiteBuild.Field(key, Strip(value)))
  {
    ColonSpace(key, value);
    SiteBuild.FieldRoundTrip(key, " " + value);
    StripLeadingSpace(value);
  }

  /** The space after a field's colon belongs to its value. */
  lemma {:induction false} ColonSpace(key: String, value: String)
    ensures key + ": " + value == key + ":" + (" " + value)
  {
    assert ": " == ":" + " ";
    AppendAssociative(key, ":", " ");
    AppendAssociative(key + ":", " ", value);
  }

  /** Assigning fields with distinct keys, after a non-field, maps each key
      to its value and nothing else. */
  lemma {:induction false} AssignDistinct(fs: seq<Option<SiteBuild.Field>>, keys: seq<String>, values: seq<String>)
    requires |keys| == |values| && |fs| == |keys| + 1 && fs[0] == None
    requires forall i :: 0 <= i < |keys| ==> fs[i + 1] == Some(SiteBuild.Field(keys[i], values[i]))
    requires forall i, j :: 0 <= i < j < |keys| ==> keys[i] != keys[j]
    ensures var m := SiteBuild.Assign(fs);
      && (forall k :: k in m <==> k in keys)
      && (forall i :: 0 <= i < |keys| ==> keys[i] in m && m[keys[i]] == values[i])
  {
    var m := SiteBuild.Assign(fs);
    forall k
      ensures k in m <==> k in keys
    {
      if k in m {
        var j :| 0 <= j < |fs| && SiteBuild.SetsKey(fs[j], k);
        assert keys[j - 1] == k;
      }
      if k in keys {
        var i :| 0 <= i < |keys| && keys[i] == k;
        assert SiteBuild.SetsKey(fs[i + 1], k);
      }
    }
    forall i | 0 <= i < |keys|
      ensures keys[i] in m && m[keys[i]] == values[i]
    {
      var k := keys[i];
      assert SiteBuild.SetsKey(fs[i + 1], k);
      assert SiteBuild.SetsLast(fs, k, m[k]);
      var j :| 0 <= j < |fs| && fs[j] == Some(SiteBuild.Field(k, m[k]))
        && forall j' :: j < j' < |fs| ==> !SiteBuild.SetsKey(fs[j'], k);
      assert keys[j - 1] == k;
      assert j - 1 == i;
    }
  }

  /** Field lines with distinct keys give the dictionary of each key to its
      stripped value, and nothing else. */
  lemma {:induction false} MetaOfFields(keys: seq<String>, values: seq<String>)
    requires |keys| == |values|
    requires forall i :: 0 <= i < |keys| ==> keys[i] != [] && SiteBuild.AllWord(keys[i])
    requires forall i, j :: 0 <= i < j < |keys| ==> keys[i] != keys[j]
    ensures var m := SiteBuild.MetaOf([""] + FieldLines(keys, values));
      && (forall k :: k in m <==> k in keys)
      && (forall i :: 0 <= i < |keys| ==> keys[i] in m && m[keys[i]] == Strip(values[i]))
  {
    FieldsOfFieldLines(keys, values);
    var stripped := seq(|values|, i requires 0 <= i < |values| => Strip(values[i]));
    AssignDistinct(SiteBuild.FieldsOf([""] + FieldLines(keys, values)), keys, stripped);
  }

  /** A framed file of `key: value` lines with distinct keys reads back as
      the dictionary of those keys to the stripped values. */
  lemma {:induction false} FramedRead(keys: seq<String>, values: seq<String>, rest: String)
    requires |keys| == |values|
    requires forall i :: 0 <= i < |keys| ==> keys[i] != [] && SiteBuild.AllWord(keys[i])
    requires forall i, j :: 0 <= i < j < |keys| ==> keys[i] != keys[j]
    requires forall i :: 0 <= i < |values| ==> Writable(values[i])
    ensures var d := SiteBuild.ParseFrontmatter(Framed(FieldLines(keys, values), rest));
      && d.body == LStripChar(rest, '\n')
      && (forall k :: k in d.meta <==> k in keys)
      && (forall i :: 0 <= i < |keys| ==> keys[i] in d.meta && d.meta[keys[i]] == Strip(values[i]))
  {
    var fields := FieldLines(keys, values);
    forall i | 0 <= i < |fields|
      ensures Writable(fields[i])
    {
      FieldLineWritable(keys[i], values[i]);
    }
    FramedFrontmatter(fields, rest);
    MetaOfFields(keys, values);
  }

  /** A `key: value` line is writable when its value is. */
  lemma {:induction false} FieldLineWritable(key: String, value: String)
    requires SiteBuild.AllWord(key) && Writable(value)
    ensures Writable(key + ": " + value)
  {
    var prefix := key + ": ";
    forall i | 0 <= i < |prefix|
      ensures prefix[i] != '-' && !IsLineBreak(prefix[i])
    {
      if i < |key| {
        assert prefix[i] == key[i];
        assert SiteBuild.IsWordChar(key[i]);
      }
    }
    NoDashAvoids(prefix);
    AvoidsDashesAppend(prefix, value);
    var line := prefix + value;
    forall i | 0 <= i < |line|
      ensures !IsLineBreak(line[i])
    {
      if i >= |prefix| {
        assert line[i] == value[i - |prefix|];
      }
    }
  }

  /** A field whose key does not start with `c` is neither of the lines
      the `cards` scan looks for. */
  lemma {:induction false} OtherFieldKind(key: String, value: String)
    requires key != [] && key[0] != 'c'
    ensures Runner.KindOf(key + ": " + value) == Runner.OtherLine
  {
    var line := key + ": " + value;
    assert line[0] == key[0];
    assert !StartsWith(line, "channel_name:") by {
      if |line| >= 13 {
        assert line[..13][0] != "channel_name:"[0];
      }
    }
    assert !StartsWith(line, "channel_id:") by {
      if |line| >= 11 {
        assert line[..11][0] != "channel_id:"[0];
      }
    }
  }

  lemma {:induction false} IdFieldKind(value: String)
    ensures Runner.KindOf("channel_id" + ": " + value) == Runner.IdLine(Strip(value))
  {
    ColonSpace("channel_id", value);
    assert "channel_id" + ":" == "channel_id:";
    Runner.IdLineKind(" " + value);
    StripLeadingSpace(value);
  }

  lemma {:induction false} NameFieldKind(value: String)
    ensures Runner.KindOf("channel_name" + ": " + value) == Runner.NameLine(Strip(value))
  {
    ColonSpace("channel_name", value);
    assert "channel_name" + ":" == "channel_name:";
    Runner.NameLineKind(" " + value);
    StripLeadingSpace(value);
  }

  lemma {:induction false} LStripNewlines(x: String)
    requires x != [] && x[0] != '\n'
    ensures LStripChar("\n\n" + x, '\n') == x
  {
    assert ("\n\n" + x)[1..] == "\n" + x;
    assert ("\n" + x)[1..] == x;
  }

  // ------------------------------------------------ the `run` summary

  const RunKeys: seq<String> := ["title", "video_id", "channel_id", "channel_name", "published", "processed"]

  function RunValues(v: Worker.Video, ch: Runner.Channel, now: String): seq<String> {
    [v.title, v.videoId, ch.channelId, ch.name, v.publishedAt, now]
  }

  predicate RunWritable(v: Worker.Video, ch: Runner.Channel, now: String) {
    Writable(v.title) && Writable(v.videoId) && Writable(ch.channelId)
      && Writable(ch.name) && Writable(v.publishedAt) && Writable(now)
  }

  lemma {:induction false} RunKeysAreKeys()
    ensures forall i :: 0 <= i < |RunKeys| ==> RunKeys[i] != [] && SiteBuild.AllWord(RunKeys[i])
    ensures forall i, j :: 0 <= i < j < |RunKeys| ==> RunKeys[i] != RunKeys[j]
  {
  }

  /** The `run` file is the framed `key: value` lines of the six fields,
      then a blank line, the heading and link, and the summary. */
  lemma {:induction false} RunDocumentFramed(v: Worker.Video, ch: Runner.Channel, now: String, summary: String)
    ensures Runner.RunFields(v, ch, now) == FieldLines(RunKeys, RunValues(v, ch, now))
    ensures Runner.RunDocument(v, ch, now, summary)
         == Framed(Runner.RunFields(v, ch, now), "\n\n" + (Worker.Preamble(v) + summary))
  {
    RunFieldsAsLines(v, ch, now);
    var t := Terminated(Runner.RunFields(v, ch, now));
    FrameRegrouped(t, Worker.Preamble(v) + summary);
    assert Runner.RunDocument(v, ch, now, summary) == "---\n" + t + "---\n\n" + (Worker.Preamble(v) + summary);
  }

  lemma {:induction false} RunFieldsAsLines(v: Worker.Video, ch: Runner.Channel, now: String)
    ensures Runner.RunFields(v, ch, now) == FieldLines(RunKeys, RunValues(v, ch, now))
  {
    var fs := Runner.RunFields(v, ch, now);
    var vs := RunValues(v, ch, now);
    assert fs[0] == RunKeys[0] + ": " + vs[0];
    assert fs[1] == RunKeys[1] + ": " + vs[1];
    assert fs[2] == RunKeys[2] + ": " + vs[2];
    assert fs[3] == RunKeys[3] + ": " + vs[3];
    assert fs[4] == RunKeys[4] + ": " + vs[4];
    assert fs[5] == RunKeys[5] + ": " + vs[5];
  }

  lemma {:induction false} RunFieldsWritable(v: Worker.Video, ch: Runner.Channel, now: String)
    requires RunWritable(v, ch, now)
    ensures forall i :: 0 <= i < 6 ==> Writable(Runner.RunFields(v, ch, now)[i])
  {
    RunDocumentFramed(v, ch, now, []);
    RunKeysAreKeys();
    var vs := RunValues(v, ch, now);
    forall i | 0 <= i < 6
      ensures Writable(Runner.RunFields(v, ch, now)[i])
    {
      FieldLineWritable(RunKeys[i], vs[i]);
    }
  }

  /** The site reads back from a `run` file the six fields, stripped, and
      the heading, link and summary as the body. */
  lemma {:induction false} RunFrontmatterRead(v: Worker.Video, ch: Runner.Channel, now: String, summary: String)
    requires RunWritable(v, ch, now)
    ensures var d := SiteBuild.ParseFrontmatter(Runner.RunDocument(v, ch, now, summary));
      && d.body == Worker.Preamble(v) + summary
      && "title" in d.meta && d.meta["title"] == Strip(v.title)
      && "video_id" in d.meta && d.meta["video_id"] == Strip(v.videoId)
      && "channel_id" in d.meta && d.meta["channel_id"] == Strip(ch.channelId)
      && "channel_name" in d.meta && d.meta["channel_name"] == Strip(ch.name)
      && "published" in d.meta && d.meta["published"] == Strip(v.publishedAt)
      && "processed" in d.meta && d.meta["processed"] == Strip(now)
      && (forall k :: k in d.meta <==> k in RunKeys)
  {
    var vs := RunValues(v, ch, now);
    var rest := "\n\n" + (Worker.Preamble(v) + summary);
    RunDocumentFramed(v, ch, now, summary);
    RunKeysAreKeys();
    assert forall i :: 0 <= i < |vs| ==> Writable(vs[i]);
    FramedRead(RunKeys, vs, rest);
    var d := SiteBuild.ParseFrontmatter(Runner.RunDocument(v, ch, now, summary));
    assert d.meta[RunKeys[0]] == Strip(vs[0]);
    assert d.meta[RunKeys[1]] == Strip(vs[1]);
    assert d.meta[RunKeys[2]] == Strip(vs[2]);
    assert d.meta[RunKeys[3]] == Strip(vs[3]);
    assert d.meta[RunKeys[4]] == Strip(vs[4]);
    assert d.meta[RunKeys[5]] == Strip(vs[5]);
    LStripNewlines(Worker.Preamble(v) + summary);
  }

  /** The site's record of a `run` file: its title, channel and name come
      from the frontmatter, and the build fails on it only when the name
      written is blank and the channel is configured without a name. */
  lemma {:induction false} RunFileIndexed(
    v: Worker.Video, ch: Runner.Channel, now: String, summary: String, stem: String,
    channels: map<String, SiteBuild.ChannelInfo>, cardDirs: map<String, seq<String>>, iso: String -> String)
    requires RunWritable(v, ch, now)
    ensures var r := SiteBuild.MakeEpisode(
        SiteBuild.SummaryFile(stem, Runner.RunDocument(v, ch, now, summary)), channels, cardDirs, iso);
      && (r.Err? <==> Strip(ch.name) == [] && Strip(ch.channelId) in channels
                      && channels[Strip(ch.channelId)].name.None?)
      && (r.Ok? ==> r.value.title == Strip(v.title) && r.value.channelId == Strip(ch.channelId))
      && (r.Ok? && Strip(ch.name) != [] ==> r.value.channelName == Strip(ch.name))
      && (r.Ok? && Strip(v.videoId) != [] ==> r.value.videoId == Strip(v.videoId))
  {
    RunFrontmatterRead(v, ch, now, summary);
    var meta := SiteBuild.ParseFrontmatter(Runner.RunDocument(v, ch, now, summary)).meta;
    assert SiteBuild.Get(meta, "channel_name", "") == Strip(ch.name);
    assert SiteBuild.Get(meta, "channel_id", "") == Strip(ch.channelId);
    assert SiteBuild.Get(meta, "title", stem) == Strip(v.title);
    assert SiteBuild.Get(meta, "video_id", "") == Strip(v.videoId);
  }

  /** The `cards` command reads the channel name the `run` command wrote. */
  lemma {:induction false} RunCardsChannel(v: Worker.Video, ch: Runner.Channel, now: String, summary: String, channels: seq<Runner.Channel>)
    requires RunWritable(v, ch, now)
    ensures Runner.CardsChannelName(Runner.RunDocument(v, ch, now, summary), channels) == Strip(ch.name)
  {
    RunDocumentFramed(v, ch, now, summary);
    RunFieldsWritable(v, ch, now);
    var fields := Runner.RunFields(v, ch, now);
    var vs := RunValues(v, ch, now);
    FramedScan(fields, "\n\n" + (Worker.Preamble(v) + summary), channels);
    var kinds := Runner.KindsOf([""] + fields);
    assert kinds[0] == Runner.KindOf("") == Runner.OtherLine;
    assert kinds[1] == Runner.KindOf(RunKeys[0] + ": " + vs[0]);
    assert kinds[2] == Runner.KindOf(RunKeys[1] + ": " + vs[1]);
    assert kinds[3] == Runner.KindOf(RunKeys[2] + ": " + vs[2]);
    assert kinds[4] == Runner.KindOf(RunKeys[3] + ": " + vs[3]);
    OtherFieldKind(RunKeys[0], vs[0]);
    OtherFieldKind(RunKeys[1], vs[1]);
    IdFieldKind(vs[2]);
    NameFieldKind(vs[3]);
    assert RunKeys[2] == "channel_id" && RunKeys[3] == "channel_name";
    assert kinds[1] == Runner.OtherLine && kinds[2] == Runner.OtherLine;
    assert kinds[3] == Runner.IdLine(Strip(vs[2]));
    assert kinds[4] == Runner.NameLine(Strip(vs[3]));
    ScanRunKinds(kinds, channels, Strip(vs[2]), Strip(vs[3]));
  }

  // --------------------------------------------- the `fetch` summary

  const WorkerKeys: seq<String> := ["title", "video_id", "channel_id", "published", "processed"]

  function WorkerValues(v: Worker.Video, channelId: String, now: String): seq<String> {
    [v.title, v.videoId, channelId, v.publishedAt, now]
  }

  lemma {:induction false} WorkerKeysHaveNoName()
    ensures "channel_name" !in WorkerKeys
  {
    assert |"channel_name"| == 12;
    assert |WorkerKeys[0]| == 5 && |WorkerKeys[1]| == 8 && |WorkerKeys[2]| == 10;
    assert |WorkerKeys[3]| == 9 && |WorkerKeys[4]| == 9;
  }

  predicate WorkerWritable(v: Worker.Video, channelId: String, now: String) {
    Writable(v.title) && Writable(v.videoId) && Writable(channelId)
      && Writable(v.publishedAt) && Writable(now)
  }

  lemma {:induction false} WorkerDocumentFramed(v: Worker.Video, channelId: String, now: String, summary: String)
    ensures Worker.WorkerFields(v, channelId, now) == FieldLines(WorkerKeys, WorkerValues(v, channelId, now))
    ensures Worker.WorkerDocument(v, channelId, now, summary)
         == Framed(Worker.WorkerFields(v, channelId, now), "\n\n" + (Worker.Preamble(v) + summary))
  {
    WorkerFieldsAsLines(v, channelId, now);
    var t := Terminated(Worker.WorkerFields(v, channelId, now));
    FrameRegrouped(t, Worker.Preamble(v) + summary);
    assert Worker.WorkerDocument(v, channelId, now, summary) == "---\n" + t + "---\n\n" + (Worker.Preamble(v) + summary);
  }

  lemma {:induction false} WorkerFieldsAsLines(v: Worker.Video, channelId: String, now: String)
    ensures Worker.WorkerFields(v, channelId, now) == FieldLines(WorkerKeys, WorkerValues(v, channelId, now))
  {
    var fs := Worker.WorkerFields(v, channelId, now);
    var vs := WorkerValues(v, channelId, now);
    assert fs[0] == WorkerKeys[0] + ": " + vs[0];
    assert fs[1] == WorkerKeys[1] + ": " + vs[1];
    assert fs[2] == WorkerKeys[2] + ": " + vs[2];
    assert fs[3] == WorkerKeys[3] + ": " + vs[3];
    assert fs[4] == WorkerKeys[4] + ": " + vs[4];
  }

  lemma {:induction false} FrameRegrouped(t: String, p: String)
    ensures "---\n" + t + "---\n\n" + p == "---" + ("\n" + t) + "---" + ("\n\n" + p)
  {
  }

  lemma {:induction false} WorkerFieldsWritable(v: Worker.Video, channelId: String, now: String)
    requires WorkerWritable(v, channelId, now)
    ensures forall i :: 0 <= i < 5 ==> Writable(Worker.WorkerFields(v, channelId, now)[i])
  {
    WorkerDocumentFramed(v, channelId, now, []);
    var vs := WorkerValues(v, channelId, now);
    forall i | 0 <= i < 5
      ensures Writable(Worker.WorkerFields(v, channelId, now)[i])
    {
      FieldLineWritable(WorkerKeys[i], vs[i]);
    }
  }

  /** The site reads back from a `fetch` file its five fields, stripped,
      and no `channel_name`. */
  lemma {:induction false} WorkerFrontmatterRead(v: Worker.Video, channelId: String, now: String, summary: String)
    requires WorkerWritable(v, channelId, now)
    ensures var d := SiteBuild.ParseFrontmatter(Worker.WorkerDocument(v, channelId, now, summary));
      && d.body == Worker.Preamble(v) + summary
      && "channel_name" !in d.meta
      && "title" in d.meta && d.meta["title"] == Strip(v.title)
      && "video_id" in d.meta && d.meta["video_id"] == Strip(v.videoId)
      && "channel_id" in d.meta && d.meta["channel_id"] == Strip(channelId)
      && "published" in d.meta && d.meta["published"] == Strip(v.publishedAt)
      && "processed" in d.meta && d.meta["processed"] == Strip(now)
      && (forall k :: k in d.meta <==> k in WorkerKeys)
  {
    var vs := WorkerValues(v, channelId, now);
    var rest := "\n\n" + (Worker.Preamble(v) + summary);
    WorkerDocumentFramed(v, channelId, now, summary);
    assert forall i :: 0 <= i < |vs| ==> Writable(vs[i]);
    FramedRead(WorkerKeys, vs, rest);
    WorkerKeysHaveNoName();
    var d := SiteBuild.ParseFrontmatter(Worker.WorkerDocument(v, channelId, now, summary));
    assert d.meta[WorkerKeys[0]] == Strip(vs[0]);
    assert d.meta[WorkerKeys[1]] == Strip(vs[1]);
    assert d.meta[WorkerKeys[2]] == Strip(vs[2]);
    assert d.meta[WorkerKeys[3]] == Strip(vs[3]);
    assert d.meta[WorkerKeys[4]] == Strip(vs[4]);
    LStripNewlines(Worker.Preamble(v) + summary);
  }

  /** A `fetch` file carries no `channel_name`: the site takes the name
      from the channel configuration, and fails when it has none. */
  lemma {:induction false} WorkerFileIndexed(
    v: Worker.Video, channelId: String, now: String, summary: String, stem: String,
    channels: map<String, SiteBuild.ChannelInfo>, cardDirs: map<String, seq<String>>, iso: String -> String)
    requires WorkerWritable(v, channelId, now)
    ensures var cid := Strip(channelId);
      var r := SiteBuild.MakeEpisode(
        SiteBuild.SummaryFile(stem, Worker.WorkerDocument(v, channelId, now, summary)), channels, cardDirs, iso);
      && (r.Err? <==> cid in channels && channels[cid].name.None?)
      && (r.Ok? ==> r.value.title == Strip(v.title) && r.value.channelId == cid)
      && (r.Ok? && cid in channels ==> channels[cid].name == Some(r.value.channelName))
      && (r.Ok? && cid !in channels ==> r.value.channelName == [])
  {
    WorkerFrontmatterRead(v, channelId, now, summary);
    var meta := SiteBuild.ParseFrontmatter(Worker.WorkerDocument(v, channelId, now, summary)).meta;
    assert SiteBuild.Get(meta, "channel_name", "") == [];
    assert SiteBuild.Get(meta, "channel_id", "") == Strip(channelId);
    assert SiteBuild.Get(meta, "title", stem) == Strip(v.title);
  }

  /** The `cards` command finds no `channel_name` in a `fetch` file and
      looks the channel id up instead. */
  lemma {:induction false} WorkerCardsChannel(v: Worker.Video, channelId: String, now: String, summary: String, channels: seq<Runner.Channel>)
    requires WorkerWritable(v, channelId, now)
    ensures Runner.CardsChannelName(Worker.WorkerDocument(v, channelId, now, summary), channels)
         == Runner.GetChannelName(Strip(channelId), channels)
  {
    WorkerDocumentFramed(v, channelId, now, summary);
    WorkerFieldsWritable(v, channelId, now);
    var fields := Worker.WorkerFields(v, channelId, now);
    var vs := WorkerValues(v, channelId, now);
    FramedScan(fields, "\n\n" + (Worker.Preamble(v) + summary), channels);
    var kinds := Runner.KindsOf([""] + fields);
    var o := Runner.OtherLine;
    var id := Runner.IdLine(Strip(channelId));
    assert kinds[0] == Runner.KindOf("") == o;
    assert kinds[1] == Runner.KindOf(WorkerKeys[0] + ": " + vs[0]);
    assert kinds[2] == Runner.KindOf(WorkerKeys[1] + ": " + vs[1]);
    assert kinds[3] == Runner.KindOf(WorkerKeys[2] + ": " + vs[2]);
    assert kinds[4] == Runner.KindOf(WorkerKeys[3] + ": " + vs[3]);
    assert kinds[5] == Runner.KindOf(WorkerKeys[4] + ": " + vs[4]);
    OtherFieldKind(WorkerKeys[0], vs[0]);
    OtherFieldKind(WorkerKeys[1], vs[1]);
    IdFieldKind(vs[2]);
    assert WorkerKeys[2] == "channel_id";
    OtherFieldKind(WorkerKeys[3], vs[3]);
    OtherFieldKind(WorkerKeys[4], vs[4]);
    assert WorkerKeys[3][0] == 'p' && WorkerKeys[4][0] == 'p';
    assert kinds[3] == id && kinds[4] == o && kinds[5] == o;
    LastIdsOfWorkerKinds(kinds, channels, Strip(channelId));
  }

  /** The scan of a `fetch` file's lines: no name line, so the last id
      line decides. */
  lemma {:induction false} LastIdsOfWorkerKinds(kinds: seq<Runner.LineKind>, channels: seq<Runner.Channel>, id: String)
    requires |kinds| == 6 && kinds[3] == Runner.IdLine(id)
    requires kinds[0] == kinds[1] == kinds[2] == kinds[4] == kinds[5] == Runner.OtherLine
    ensures Runner.Scan(kinds, channels, []) == Runner.GetChannelName(id, channels)
  {
    LastIdOfSix(kinds, channels, id);
    OneIdAmongOthers(kinds, id);
    ScanWithoutName(kinds, channels);
  }

  lemma {:induction false} OneIdAmongOthers(kinds: seq<Runner.LineKind>, id: String)
    requires |kinds| == 6 && kinds[3] == Runner.IdLine(id)
    requires kinds[0] == kinds[1] == kinds[2] == kinds[4] == kinds[5] == Runner.OtherLine
    ensures forall j :: 0 <= j < |kinds| ==> kinds[j] == Runner.OtherLine || kinds[j].IdLine?
  {
    forall j | 0 <= j < |kinds|
      ensures kinds[j] == Runner.OtherLine || kinds[j].IdLine?
    {
      if j < 3 {
        assert j == 0 || j == 1 || j == 2;
      } else if j > 3 {
        assert j == 4 || j == 5;
      }
    }
  }

  lemma {:induction false} LastIdOfSix(kinds: seq<Runner.LineKind>, channels: seq<Runner.Channel>, id: String)
    requires |kinds| == 6 && kinds[3] == Runner.IdLine(id)
    requires kinds[4] == kinds[5] == Runner.OtherLine
    ensures Runner.LastIdName(kinds, channels, []) == Runner.GetChannelName(id, channels)
  {
    var k5 := kinds[..5];
    var k4 := k5[..4];
    LastIdNameSkips(kinds, channels);
    assert k5[4] == kinds[4];
    LastIdNameSkips(k5, channels);
    assert k4[3] == Runner.IdLine(id);
    assert Runner.LastIdName(k4, channels, []) == Runner.GetChannelName(id, channels);
  }

  lemma {:induction false} ScanWithoutName(kinds: seq<Runner.LineKind>, channels: seq<Runner.Channel>)
    requires forall j :: 0 <= j < |kinds| ==> kinds[j] == Runner.OtherLine || kinds[j].IdLine?
    ensures Runner.Scan(kinds, channels, []) == Runner.LastIdName(kinds, channels, [])
  {
    assert forall j :: 0 <= j < |kinds| ==> !kinds[j].NameLine?;
  }

  /** A trailing line that is neither kind is skipped by the lookup. */
  lemma {:induction false} LastIdNameSkips(kinds: seq<Runner.LineKind>, channels: seq<Runner.Channel>)
    requires kinds != [] && kinds[|kinds| - 1] == Runner.OtherLine
    ensures Runner.LastIdName(kinds, channels, []) == Runner.LastIdName(kinds[..|kinds| - 1], channels, [])
  {
  }

  /** The scan of a `run` file's lines: the name line decides. */
  lemma {:induction false} ScanRunKinds(kinds: seq<Runner.LineKind>, channels: seq<Runner.Channel>, id: String, name: String)
    requires |kinds| == 7 && kinds[3] == Runner.IdLine(id) && kinds[4] == Runner.NameLine(name)
    requires kinds[0] == kinds[1] == kinds[2] == Runner.OtherLine
    ensures Runner.Scan(kinds, channels, []) == name
  {
    assert forall j :: 0 <= j < 4 ==> !kinds[j].NameLine?;
  }

  // ---------------------------------------------------- card listing

  /** Strictly increasing numbers in `[lo, hi)` are at most `hi - lo`. */
  lemma {:induction false} IncreasingBound(s: seq<nat>, lo: nat, hi: nat)
    requires forall a :: 0 <= a < |s| ==> lo <= s[a] < hi
    requires forall a, b :: 0 <= a < b < |s| ==> s[a] < s[b]
    requires lo <= hi
    ensures |s| <= hi - lo
    decreases |s|
  {
    if s != [] {
      assert forall a :: 0 <= a < |s[1..]| ==> s[0] < s[1..][a] == s[a + 1];
      IncreasingBound(s[1..], s[0] + 1, hi);
    }
  }

  /** A summary never yields more than seven cards: the title card and one
      card per known section. */
  lemma {:induction false} OrderedBound(sections: map<String, String>)
    ensures |Cards.Ordered(sections)| <= |Cards.SectionOrder|
  {
    Cards.OrderedWellFormed(sections);
    RankedBound(Cards.Ordered(sections), sections);
  }

  lemma {:induction false} RankedBound(ordered: seq<(String, String)>, sections: map<String, String>)
    requires Cards.RankedSections(ordered, sections)
    ensures |ordered| <= |Cards.SectionOrder|
  {
    var ranks := seq(|ordered|, a requires 0 <= a < |ordered| => Cards.Rank(ordered[a].0));
    forall a | 0 <= a < |ordered|
      ensures ranks[a] < |Cards.SectionOrder|
    {
      assert ordered[a].0 in Cards.SectionOrder;
    }
    IncreasingBound(ranks, 0, |Cards.SectionOrder|);
  }

  /** The names of the generated cards, in generation order. */
  function CardNames(cards: seq<Cards.Card>): (names: seq<String>)
    ensures |names| == |cards|
  {
    seq(|cards|, i requires 0 <= i < |cards| => cards[i].name)
  }

  /** Card `i` of a summary is `card_<i>.png`, and there are at most
      seven. (`generate_cards` on a file is this on the parsed file.) */
  lemma {:induction false} GeneratedCardNames(measure: Cards.Measure, summary: SummaryParse.Summary, channel: String)
    ensures var names := CardNames(Cards.CardsFor(measure, summary, channel));
      && 1 <= |names| <= 1 + |Cards.SectionOrder|
      && forall i :: 0 <= i < |names| ==> names[i] == Cards.CardName(i)
  {
    var cards := Cards.CardsFor(measure, summary, channel);
    Cards.CardSequenceShape(measure, summary, channel);
    OrderedBound(summary.sections);
    TitleCardName();
    assert cards[0].name == Cards.CardName(0);
  }

  // ------------------------------------------------------ `cards` command

  datatype CardsCommandError = SummaryNotFound | CardsFailed(missingAttribute: String)

  /** `SUMMARIES_DIR / f"{video_id}.md"` and `CARDS_DIR / video_id`. */
  function SummaryPath(videoId: String): String {
    "summaries/" + videoId + ".md"
  }

  function CardsDir(videoId: String): String {
    "cards/" + videoId
  }

  /** The `cards` command as written: with the summary file present (its
      text `summary`), the channel name is read from its frontmatter and
      `generate_cards` is handed the summary path and the output directory
      as `str`. */
  function CmdCardsAsWritten(measure: Cards.Measure, videoId: String, summary: Option<String>, channels: seq<Runner.Channel>)
    : (r: Result<seq<Cards.Card>, CardsCommandError>)
    ensures summary.None? ==> r == Err(SummaryNotFound)
  {
    match summary
    case None => Err(SummaryNotFound)
    case Some(content) =>
      match Cards.PathsChecked(StrValue(SummaryPath(videoId)), StrValue(CardsDir(videoId)))
      case Some(attribute) => Err(CardsFailed(attribute))
      case None => Ok(Cards.GenerateCards(measure, content, Runner.CardsChannelName(content, channels)))
  }

  /** Whenever the summary exists, the command as written fails: a `str`
      has no `mkdir`. */
  lemma {:induction false} CmdCardsAsWrittenFails(measure: Cards.Measure, videoId: String, content: String, channels: seq<Runner.Channel>)
    ensures CmdCardsAsWritten(measure, videoId, Some(content), channels) == Err(CardsFailed("mkdir"))
  {
  }

  /** The `cards` command as intended: the paths are handed over as paths. */
  function CmdCards(measure: Cards.Measure, videoId: String, summary: Option<String>, channels: seq<Runner.Channel>)
    : (r: Result<seq<Cards.Card>, CardsCommandError>)
    ensures summary.None? ==> r == Err(SummaryNotFound)
    ensures summary.Some? ==> r.Ok?
  {
    match summary
    case None => Err(SummaryNotFound)
    case Some(content) =>
      match Cards.PathsChecked(PathValue(SummaryPath(videoId)), PathValue(CardsDir(videoId)))
      case Some(attribute) => Err(CardsFailed(attribute))
      case None => Ok(Cards.GenerateCards(measure, content, Runner.CardsChannelName(content, channels)))
  }

  /** With paths, the command renders the cards of the parsed summary for
      the channel its frontmatter names: `card_00.png` for the title, then
      one card per known section, at most seven in all. */
  lemma {:induction false} CmdCardsGenerates(measure: Cards.Measure, videoId: String, content: String, channels: seq<Runner.Channel>)
    ensures var r := CmdCards(measure, videoId, Some(content), channels);
      && r == Ok(Cards.GenerateCards(measure, content, Runner.CardsChannelName(content, channels)))
      && 1 <= |r.value| <= 1 + |Cards.SectionOrder|
      && forall i :: 0 <= i < |r.value| ==> r.value[i].name == Cards.CardName(i)
  {
    var channel := Runner.CardsChannelName(content, channels);
    CmdCardsOk(measure, videoId, content, channels);
    GenerateCardsNames(measure, content, channel);
  }

  lemma {:induction false} CmdCardsOk(measure: Cards.Measure, videoId: String, content: String, channels: seq<Runner.Channel>)
    ensures CmdCards(measure, videoId, Some(content), channels)
         == Ok(Cards.GenerateCards(measure, content, Runner.CardsChannelName(content, channels)))
  {
  }

  lemma {:induction false} GenerateCardsNames(measure: Cards.Measure, content: String, channel: String)
    ensures var cards := Cards.GenerateCards(measure, content, channel);
      && 1 <= |cards| <= 1 + |Cards.SectionOrder|
      && forall i :: 0 <= i < |cards| ==> cards[i].name == Cards.CardName(i)
  {
    var cards := Cards.GenerateCards(measure, content, channel);
    GeneratedCardNames(measure, SummaryParse.ParseSummary(content), channel);
    assert forall i :: 0 <= i < |cards| ==> CardNames(cards)[i] == cards[i].name;
  }

  lemma {:induction false} TitleCardName()
    ensures Cards.CardName(0) == "card_00.png"
  {
  }

  lemma {:induction false} CardNameIsCardFile(i: nat)
    requires i < 100
    ensures SiteBuild.IsCardFile(Cards.CardName(i))
  {
    var n := Cards.CardName(i);
    assert |Cards.Pad2(i)| == 2;
    assert n[..5] == "card_";
    assert n[|n| - 4..] == ".png";
  }

  lemma {:induction false} CardFilesKeepsCards(names: seq<String>)
    requires forall i :: 0 <= i < |names| ==> SiteBuild.IsCardFile(names[i])
    ensures SiteBuild.CardFiles(names) == names
  {
    if names != [] {
      CardFilesKeepsCards(names[1..]);
      assert names == [names[0]] + names[1..];
    }
  }

  /** The first `n` card names, in generation order. */
  function FirstCardNames(n: nat): (names: seq<String>)
    ensures |names| == n
  {
    seq(n, i requires 0 <= i < n => Cards.CardName(i))
  }

  /** The first hundred card names are card files, in file-name order. */
  lemma {:induction false} FirstCardNamesSorted(n: nat)
    requires n <= 100
    ensures forall i :: 0 <= i < n ==> SiteBuild.IsCardFile(FirstCardNames(n)[i])
    ensures StableSort.Sorted(StableSort.Id, StrLess, FirstCardNames(n))
  {
    var names := FirstCardNames(n);
    forall i | 0 <= i < n
      ensures SiteBuild.IsCardFile(names[i])
    {
      CardNameIsCardFile(i);
    }
    forall i, j | 0 <= i < j < n
      ensures !StrLess(StableSort.Id(names[j]), StableSort.Id(names[i]))
    {
      Cards.CardNamesSortInOrder(i, j);
      StrLessAsymmetric(names[i], names[j]);
    }
  }

  /** Whatever order the directory lists the first `n` card files in, the
      site shows them in the order they were generated. */
  lemma {:induction false} CardsListedInOrder(videoId: String, n: nat, listing: seq<String>)
    requires n <= 100
    requires multiset(listing) == multiset(FirstCardNames(n))
    ensures SiteBuild.CardUrls(videoId, Some(listing))
         == seq(n, i requires 0 <= i < n => "cards/" + videoId + "/" + Cards.CardName(i))
  {
    var names := FirstCardNames(n);
    FirstCardNamesSorted(n);
    forall i | 0 <= i < |listing|
      ensures SiteBuild.IsCardFile(listing[i])
    {
      assert listing[i] in multiset(names);
    }
    CardFilesKeepsCards(listing);
    SiteBuild.StrLessIsStrictTotalOrder();
    var sorted := StableSort.Sort(StableSort.Id, StrLess, listing);
    StableSort.SortSorted(StableSort.Id, StrLess, listing);
    StableSort.SortedUnique(StrLess, sorted, names);
  }

  /** The site lists a summary's generated cards in generation order. */
  lemma {:induction false} GeneratedCardsListed(
    measure: Cards.Measure, summary: SummaryParse.Summary, channel: String, videoId: String, listing: seq<String>)
    requires multiset(listing) == multiset(CardNames(Cards.CardsFor(measure, summary, channel)))
    ensures var names := CardNames(Cards.CardsFor(measure, summary, channel));
      SiteBuild.CardUrls(videoId, Some(listing))
        == seq(|names|, i requires 0 <= i < |names| => "cards/" + videoId + "/" + names[i])
  {
    var names := CardNames(Cards.CardsFor(measure, summary, channel));
    GeneratedCardNames(measure, summary, channel);
    assert names == FirstCardNames(|names|);
    CardsListedInOrder(videoId, |names|, listing);
  }

  // ------------------------------------------------------- sections

  /** The summary prompt asks for exactly the sections the card generator
      knows, in the order it draws them. */
  lemma {:induction false} PromptSectionsAreCardSections()
    ensures |Worker.RequestedSections| == |Cards.SectionOrder|
    ensures forall i :: 0 <= i < |Cards.SectionOrder| ==> Worker.RequestedSections[i].0 == Cards.SectionOrder[i]
  {
  }
}
