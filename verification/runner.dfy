/** The local runner: the channel list, target selection, the summary file
    the `run` command writes, and the channel-name scan of `cards`. */
module Runner {
  import opened Results
  import opened Text
  import Worker

  // -------------------------------------------------------------- channels

  /** An entry of `channels.json` as read: absent fields are `None`. */
  datatype RawChannel = RawChannel(channelId: Option<String>, name: Option<String>, active: Option<bool>)

  datatype Channel = Channel(channelId: String, name: String)

  datatype LoadError = ConfigMissing | MissingKey(key: String)

  /** `ch.get(key)` is truthy: present and non-empty. */
  predicate Given(v: Option<String>) {
    v.Some? && v.value != []
  }

  /** `ch.get("active", True)`. */
  predicate IsActive(ch: RawChannel) {
    ch.active.GetOr(true)
  }

  predicate Complete(ch: RawChannel) {
    Given(ch.channelId) && Given(ch.name)
  }

  /** The first required key missing from the entries, in file order. */
  function FirstMissing(entries: seq<RawChannel>): (r: Option<String>)
    ensures r.None? <==> forall i :: 0 <= i < |entries| ==> Complete(entries[i])
    ensures r.Some? ==> exists i :: (0 <= i < |entries| && !Complete(entries[i])
      && (forall j :: 0 <= j < i ==> Complete(entries[j]))
      && r.value == (if Given(entries[i].channelId) then "name" else "channel_id"))
  {
    if entries == [] then None
    else if !Given(entries[0].channelId) then Some("channel_id")
    else if !Given(entries[0].name) then Some("name")
    else
      var r := FirstMissing(entries[1..]);
      assert forall i :: 1 <= i < |entries| ==> entries[i] == entries[1..][i - 1];
      r
  }

  /** The active entries, in file order. */
  function ActiveChannels(entries: seq<RawChannel>): (r: seq<Channel>)
    requires forall i :: 0 <= i < |entries| ==> Complete(entries[i])
    ensures |r| <= |entries|
    ensures forall c :: c in r <==> exists i :: (0 <= i < |entries| && IsActive(entries[i])
      && Complete(entries[i]) && c == Channel(entries[i].channelId.value, entries[i].name.value))
  {
    if entries == [] then []
    else
      var rest := ActiveChannels(entries[1..]);
      assert forall i :: 1 <= i < |entries| ==> entries[i] == entries[1..][i - 1];
      var e := entries[0];
      assert Complete(e);
      if IsActive(e) then [Channel(e.channelId.value, e.name.value)] + rest else rest
  }

  /** The channel a complete entry describes. */
  function ChannelOf(e: RawChannel): Channel
    requires Complete(e)
  {
    Channel(e.channelId.value, e.name.value)
  }

  /** One more entry at the end of the file adds its channel, if active,
      at the end of the list: the list keeps file order. */
  lemma {:induction false} ActiveChannelsAppend(entries: seq<RawChannel>, e: RawChannel)
    requires forall i :: 0 <= i < |entries| ==> Complete(entries[i])
    requires Complete(e)
    ensures ActiveChannels(entries + [e]) == ActiveChannels(entries) + (if IsActive(e) then [ChannelOf(e)] else [])
    decreases |entries|
  {
    if entries == [] {
      assert [] + [e] == [e];
      assert ([e])[1..] == [];
    } else {
      ActiveChannelsAppend(entries[1..], e);
      assert (entries + [e])[1..] == entries[1..] + [e];
    }
  }

  /** Loading a file with one more complete entry at the end appends that
      entry's channel, if active, to the channels loaded before. */
  lemma {:induction false} LoadChannelsAppend(entries: seq<RawChannel>, e: RawChannel)
    requires forall i :: 0 <= i < |entries| ==> Complete(entries[i])
    requires Complete(e)
    ensures LoadChannels(true, entries).Ok?
    ensures LoadChannels(true, entries + [e])
      == Ok(LoadChannels(true, entries).value + (if IsActive(e) then [ChannelOf(e)] else []))
  {
    ActiveChannelsAppend(entries, e);
  }

  /** Reads the channel list: a missing file or an entry without a
      non-empty `channel_id` or `name` is an error; otherwise the active
      channels, a missing `active` flag counting as active. */
  function LoadChannels(fileExists: bool, entries: seq<RawChannel>): (r: Result<seq<Channel>, LoadError>)
    ensures !fileExists ==> r == Err(ConfigMissing)
    ensures fileExists ==> (r.Ok? <==> forall i :: 0 <= i < |entries| ==> Complete(entries[i]))
    ensures r.Ok? ==> forall c :: c in r.value <==> exists i :: (0 <= i < |entries| && IsActive(entries[i])
      && Complete(entries[i]) && c == Channel(entries[i].channelId.value, entries[i].name.value))
    ensures r.Err? && fileExists ==> r.error.MissingKey? && r.error.key in {"channel_id", "name"}
  {
    if !fileExists then Err(ConfigMissing)
    else match FirstMissing(entries)
      case Some(key) => Err(MissingKey(key))
      case None => Ok(ActiveChannels(entries))
  }

  /** The configured name of a channel, or its id when it is not listed. */
  function GetChannelName(channelId: String, channels: seq<Channel>): (r: String)
    ensures forall i :: (0 <= i < |channels| && channels[i].channelId == channelId
      && (forall j :: 0 <= j < i ==> channels[j].channelId != channelId)) ==> r == channels[i].name
    ensures (forall i :: 0 <= i < |channels| ==> channels[i].channelId != channelId) ==> r == channelId
  {
    if channels == [] then channelId
    else if channels[0].channelId == channelId then channels[0].name
    else
      var r := GetChannelName(channelId, channels[1..]);
      assert forall i :: 1 <= i < |channels| ==> channels[i] == channels[1..][i - 1];
      r
  }

  datatype RunError = ChannelNotFound(wanted: Option<String>)

  predicate Wanted(wanted: Option<String>, c: Channel) {
    wanted.None? || c.channelId == wanted.value
  }

  /** The channels a run covers: all of them, or those with the requested
      id; none at all is an error. */
  function SelectTargets(channels: seq<Channel>, wanted: Option<String>): (r: Result<seq<Channel>, RunError>)
    ensures r.Err? <==> forall c :: c in channels ==> !Wanted(wanted, c)
    ensures r.Err? ==> r.error == ChannelNotFound(wanted)
    ensures r.Ok? ==> r.value != [] && forall c :: c in r.value <==> c in channels && Wanted(wanted, c)
    ensures r.Ok? && wanted.None? ==> r.value == channels
  {
    var targets := Matching(channels, wanted);
    assert targets != [] ==> targets[0] in targets;
    if targets == [] then Err(ChannelNotFound(wanted)) else Ok(targets)
  }

  function Matching(channels: seq<Channel>, wanted: Option<String>): (r: seq<Channel>)
    ensures forall c :: c in r <==> c in channels && Wanted(wanted, c)
    ensures wanted.None? ==> r == channels
  {
    if channels == [] then []
    else
      var rest := Matching(channels[1..], wanted);
      assert forall c :: c in channels <==> c == channels[0] || c in channels[1..];
      if Wanted(wanted, channels[0]) then [channels[0]] + rest else rest
  }

  // ---------------------------------------------------------- summary file

  /** The frontmatter lines of the `run` command's summary file. */
  function RunFields(v: Worker.Video, ch: Channel, now: String): seq<String> {
    ["title: " + v.title, "video_id: " + v.videoId, "channel_id: " + ch.channelId,
     "channel_name: " + ch.name, "published: " + v.publishedAt, "processed: " + now]
  }

  /** The `run` command's summary file: frontmatter with the channel name,
      then the title heading and video link, then the summary body. */
  function RunDocument(v: Worker.Video, ch: Channel, now: String, summary: String): String {
    "---\n" + Terminated(RunFields(v, ch, now)) + "---\n\n" + Worker.Preamble(v) + summary
  }

  // --------------------------------------------------- channel-name scan

  /** How the scan in `cards` reads a frontmatter line: `channel_name:` or
      `channel_id:` with the stripped text after the colon
      (`line.split(":", 1)[1].strip()`: the prefix holds the first colon),
      or neither. */
  datatype LineKind = NameLine(name: String) | IdLine(id: String) | OtherLine

  function KindOf(line: String): LineKind {
    if StartsWith(line, "channel_name:") then NameLine(Strip(line[13..]))
    else if StartsWith(line, "channel_id:") then IdLine(Strip(line[11..]))
    else OtherLine
  }

  /** The channel the last `channel_id:` line names, or `name` if none does:
      a reference definition read from the end. */
  function LastIdName(kinds: seq<LineKind>, channels: seq<Channel>, name: String): String {
    if kinds == [] then name
    else match kinds[|kinds| - 1]
      case IdLine(id) => GetChannelName(id, channels)
      case _ => LastIdName(kinds[..|kinds| - 1], channels, name)
  }

  /** The scan: a `channel_name:` line gives the name and ends the scan; a
      `channel_id:` line looks the name up and the scan goes on. */
  function Scan(kinds: seq<LineKind>, channels: seq<Channel>, name: String): (r: String)
    ensures forall i :: (0 <= i < |kinds| && kinds[i].NameLine?
      && (forall j :: 0 <= j < i ==> !kinds[j].NameLine?)) ==> r == kinds[i].name
    ensures (forall i :: 0 <= i < |kinds| ==> !kinds[i].NameLine?) ==> r == LastIdName(kinds, channels, name)
  {
    if kinds == [] then name
    else
      assert forall i :: 1 <= i < |kinds| ==> kinds[i] == kinds[1..][i - 1];
      match kinds[0]
      case NameLine(n) => n
      case IdLine(id) =>
        LastIdNameCons(kinds, channels, name);
        Scan(kinds[1..], channels, GetChannelName(id, channels))
      case OtherLine =>
        LastIdNameCons(kinds, channels, name);
        Scan(kinds[1..], channels, name)
  }

  lemma {:induction false} LastIdNameCons(kinds: seq<LineKind>, channels: seq<Channel>, name: String)
    requires kinds != [] && !kinds[0].NameLine?
    ensures LastIdName(kinds, channels, name) == LastIdName(kinds[1..], channels,
      if kinds[0].IdLine? then GetChannelName(kinds[0].id, channels) else name)
    decreases |kinds|
  {
    if |kinds| > 1 {
      var init := kinds[..|kinds| - 1];
      assert init[0] == kinds[0];
      assert kinds[1..][..|kinds[1..]| - 1] == init[1..];
      assert kinds[1..][|kinds[1..]| - 1] == kinds[|kinds| - 1];
      if !kinds[|kinds| - 1].IdLine? {
        LastIdNameCons(init, channels, name);
      }
    }
  }

  function KindsOf(lines: seq<String>): (r: seq<LineKind>)
    ensures |r| == |lines|
    ensures forall i :: 0 <= i < |lines| ==> r[i] == KindOf(lines[i])
  {
    seq(|lines|, i requires 0 <= i < |lines| => KindOf(lines[i]))
  }

  /** The channel name `cards` reads from a summary: from the frontmatter
      when the text opens with `---` and a closing `---` follows; else empty. */
  function CardsChannelName(content: String, channels: seq<Channel>): (r: String)
    ensures !StartsWith(content, "---") ==> r == []
    ensures Find(content, "---", 3).None? ==> r == []
  {
    if !StartsWith(content, "---") then []
    else match Find(content, "---", 3)
      case None => []
      case Some(end) => Scan(KindsOf(SplitLines(content[3..end])), channels, [])
  }

  lemma {:induction false} IdLineKind(id: String)
    ensures KindOf("channel_id:" + id) == IdLine(Strip(id))
  {
    var line := "channel_id:" + id;
    assert line[..11] == "channel_id:";
    assert !StartsWith(line, "channel_name:") by {
      if |line| >= 13 {
        assert line[..13][8] == 'i';
      }
    }
    assert line[11..] == id;
  }

  lemma {:induction false} NameLineKind(name: String)
    ensures KindOf("channel_name:" + name) == NameLine(Strip(name))
  {
    var line := "channel_name:" + name;
    assert line[..13] == "channel_name:";
    assert line[13..] == name;
  }

  /** A later `channel_name:` line overrides an earlier `channel_id:` line. */
  lemma {:induction false} NameLineOverridesId(id: String, name: String, channels: seq<Channel>)
    ensures Scan(KindsOf(["channel_id:" + id, "channel_name:" + name]), channels, []) == Strip(name)
  {
    var lines := ["channel_id:" + id, "channel_name:" + name];
    var kinds := KindsOf(lines);
    IdLineKind(id);
    NameLineKind(name);
    assert kinds[0] == KindOf(lines[0]);
    assert kinds[1] == KindOf(lines[1]);
    ScanIdThenName(kinds, channels);
  }

  lemma {:induction false} ScanIdThenName(kinds: seq<LineKind>, channels: seq<Channel>)
    requires |kinds| == 2 && kinds[0].IdLine? && kinds[1].NameLine?
    ensures Scan(kinds, channels, []) == kinds[1].name
  {
  }

  /** A `channel_id:` line with no `channel_name:` line gives the
      configured name of that channel. */
  lemma {:induction false} IdLineLooksUp(id: String, other: String, channels: seq<Channel>)
    requires !StartsWith(other, "channel_name:") && !StartsWith(other, "channel_id:")
    ensures Scan(KindsOf(["channel_id:" + id, other]), channels, []) == GetChannelName(Strip(id), channels)
  {
    var lines := ["channel_id:" + id, other];
    var kinds := KindsOf(lines);
    IdLineKind(id);
    assert kinds[0] == KindOf(lines[0]);
    assert kinds[1] == KindOf(lines[1]);
    ScanIdThenOther(kinds, channels);
  }

  lemma {:induction false} ScanIdThenOther(kinds: seq<LineKind>, channels: seq<Channel>)
    requires |kinds| == 2 && kinds[0].IdLine? && kinds[1].OtherLine?
    ensures Scan(kinds, channels, []) == GetChannelName(kinds[0].id, channels)
  {
    assert kinds[..1] == [kinds[0]];
  }
}
