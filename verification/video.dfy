/** The video maker: the check on its input and the concat listing it
    hands to ffmpeg, plus the `video` command of the runner that calls it. */
module VideoMaker {
  import opened Results
  import opened Text
  import StableSort

  /** `seconds_per_card`'s default. */
  const DefaultSecondsPerCard: int := 4

  function FileLine(path: String): String {
    "file '" + path + "'"
  }

  function DurationLine(seconds: int): String {
    "duration " + IntToDecimal(seconds)
  }

  /** Each card's line followed by its duration line. */
  function Shown(paths: seq<String>, seconds: int): (lines: seq<String>)
    ensures |lines| == 2 * |paths|
  {
    if paths == [] then []
    else [FileLine(paths[0]), DurationLine(seconds)] + Shown(paths[1..], seconds)
  }

  lemma {:induction false} ShownAt(paths: seq<String>, seconds: int, i: nat)
    requires i < |paths|
    ensures Shown(paths, seconds)[2 * i] == FileLine(paths[i])
    ensures Shown(paths, seconds)[2 * i + 1] == DurationLine(seconds)
  {
    var head := [FileLine(paths[0]), DurationLine(seconds)];
    var rest := Shown(paths[1..], seconds);
    assert Shown(paths, seconds) == head + rest;
    if i > 0 {
      ShownAt(paths[1..], seconds, i - 1);
      assert paths[1..][i - 1] == paths[i];
      assert (head + rest)[2 * i] == rest[2 * (i - 1)];
      assert (head + rest)[2 * i + 1] == rest[2 * (i - 1) + 1];
    }
  }

  /** The lines of the concat listing: each card with its duration, then
      the last card once more without one, as the concat demuxer wants. */
  function ListingLines(paths: seq<String>, seconds: int): (lines: seq<String>)
    requires paths != []
    ensures |lines| == 2 * |paths| + 1
    ensures lines[2 * |paths|] == FileLine(paths[|paths| - 1])
  {
    Shown(paths, seconds) + [FileLine(paths[|paths| - 1])]
  }

  /** Card `i` appears in line `2i`, followed by its duration. */
  lemma {:induction false} ListingLinesAt(paths: seq<String>, seconds: int, i: nat)
    requires i < |paths|
    ensures ListingLines(paths, seconds)[2 * i] == FileLine(paths[i])
    ensures ListingLines(paths, seconds)[2 * i + 1] == DurationLine(seconds)
  {
    ShownAt(paths, seconds, i);
  }

  datatype VideoError =
    | NoCards          // ValueError: "No card images provided."
    | FfmpegMissing    // RuntimeError from the ffmpeg probe
    | NoAttribute(name: String)  // AttributeError: a str has no such attribute

  /** The first argument that is a `str`, whose `.resolve()` would fail. */
  function FirstStr(cards: seq<PyPath>): (r: Option<nat>)
    ensures r.Some? ==> r.value < |cards| && cards[r.value].StrValue? && forall j :: 0 <= j < r.value ==> cards[j].PathValue?
    ensures r.None? ==> forall j :: 0 <= j < |cards| ==> cards[j].PathValue?
  {
    if cards == [] then None
    else if cards[0].StrValue? then Some(0)
    else match FirstStr(cards[1..])
      case None => None
      case Some(i) => Some(i + 1)
  }

  /** `make_video` up to the ffmpeg run: the empty check, the ffmpeg probe
      (`ffmpeg` says whether it succeeds), `output_path.parent`, and the
      listing with every card's `resolve()` (the function `resolve`). */
  function MakeVideo(
    cards: seq<PyPath>, output: PyPath, ffmpeg: bool,
    resolve: String -> String, seconds: int): (r: Result<String, VideoError>)
    ensures cards == [] ==> r == Err(NoCards)
    ensures cards != [] && !ffmpeg ==> r == Err(FfmpegMissing)
    ensures r.Ok? ==> output.PathValue? && forall j :: 0 <= j < |cards| ==> cards[j].PathValue?
    ensures r.Ok? ==> cards != [] && r.value == Terminated(ListingLines(seq(|cards|, i requires 0 <= i < |cards| => resolve(cards[i].path)), seconds))
  {
    if cards == [] then Err(NoCards)
    else if !ffmpeg then Err(FfmpegMissing)
    else if output.StrValue? then Err(NoAttribute("parent"))
    else match FirstStr(cards)
      case Some(_) => Err(NoAttribute("resolve"))
      case None =>
        Ok(Terminated(ListingLines(seq(|cards|, i requires 0 <= i < |cards| => resolve(cards[i].path)), seconds)))
  }

  // ---------------------------------------------------------- the listing

  datatype Item = FileItem(path: String) | DurationItem(seconds: String) | OtherItem

  /** How the concat demuxer reads a line of the listing. */
  function ItemOf(line: String): Item {
    if |line| >= 7 && line[..6] == "file '" && line[|line| - 1] == '\'' then FileItem(line[6..|line| - 1])
    else if StartsWith(line, "duration ") then DurationItem(line[9..])
    else OtherItem
  }

  function ItemsOf(text: String): seq<Item> {
    var lines := Split(text, '\n');
    seq(|lines|, i requires 0 <= i < |lines| => ItemOf(lines[i]))
  }

  lemma {:induction false} FileLineItem(path: String)
    ensures ItemOf(FileLine(path)) == FileItem(path)
  {
    var line := FileLine(path);
    assert line[..6] == "file '";
    assert line[6..|line| - 1] == path;
  }

  lemma {:induction false} DurationLineItem(seconds: int)
    ensures ItemOf(DurationLine(seconds)) == DurationItem(IntToDecimal(seconds))
  {
    var line := DurationLine(seconds);
    assert line[..9] == "duration ";
    assert |line| < 7 || line[..6] != "file '" by {
      if |line| >= 7 {
        assert line[..6][0] == 'd';
      }
    }
    assert line[9..] == IntToDecimal(seconds);
  }

  lemma {:induction false} DecimalHasNoNewline(n: int)
    ensures '\n' !in IntToDecimal(n)
  {
    var d := IntToDecimal(n);
    if n >= 0 {
      assert forall k :: 0 <= k < |d| ==> IsDigit(d[k]);
    } else {
      assert d == [d[0]] + d[1..];
      assert forall k :: 0 <= k < |d[1..]| ==> IsDigit(d[1..][k]);
    }
  }

  lemma {:induction false} ListingHasNoNewline(paths: seq<String>, seconds: int)
    requires paths != []
    requires forall i :: 0 <= i < |paths| ==> '\n' !in paths[i]
    ensures forall k :: 0 <= k < |ListingLines(paths, seconds)| ==> '\n' !in ListingLines(paths, seconds)[k]
  {
    var shown := Shown(paths, seconds);
    var lines := ListingLines(paths, seconds);
    assert lines == shown + [FileLine(paths[|paths| - 1])];
    ShownHasNoNewline(paths, seconds);
    FileLineHasNoNewline(paths[|paths| - 1]);
    forall k | 0 <= k < |lines|
      ensures '\n' !in lines[k]
    {
      if k < |shown| {
        assert lines[k] == shown[k];
      }
    }
  }

  lemma {:induction false} ShownHasNoNewline(paths: seq<String>, seconds: int)
    requires forall i :: 0 <= i < |paths| ==> '\n' !in paths[i]
    ensures forall k :: 0 <= k < |Shown(paths, seconds)| ==> '\n' !in Shown(paths, seconds)[k]
  {
    if paths != [] {
      var head := [FileLine(paths[0]), DurationLine(seconds)];
      var rest := Shown(paths[1..], seconds);
      assert Shown(paths, seconds) == head + rest;
      ShownHasNoNewline(paths[1..], seconds);
      FileLineHasNoNewline(paths[0]);
      DurationLineHasNoNewline(seconds);
      forall k | 0 <= k < |head + rest|
        ensures '\n' !in (head + rest)[k]
      {
        if k >= 2 {
          assert (head + rest)[k] == rest[k - 2];
        }
      }
    }
  }

  lemma {:induction false} FileLineHasNoNewline(path: String)
    requires '\n' !in path
    ensures '\n' !in FileLine(path)
  {
    assert '\n' !in "file '" && '\n' !in "'";
  }

  lemma {:induction false} DurationLineHasNoNewline(seconds: int)
    ensures '\n' !in DurationLine(seconds)
  {
    DecimalHasNoNewline(seconds);
    assert '\n' !in "duration ";
  }

  /** Read back, the listing shows every card for `seconds` in order, then
      the last card again. */
  lemma {:induction false} ListingRoundTrip(paths: seq<String>, seconds: int)
    requires paths != []
    requires forall i :: 0 <= i < |paths| ==> '\n' !in paths[i]
    ensures var items := ItemsOf(Terminated(ListingLines(paths, seconds)));
      && |items| == 2 * |paths| + 2
      && (forall i :: 0 <= i < |paths| ==>
            (items[2 * i] == FileItem(paths[i]) && items[2 * i + 1] == DurationItem(IntToDecimal(seconds))))
      && items[2 * |paths|] == FileItem(paths[|paths| - 1])
      && items[2 * |paths| + 1] == OtherItem
  {
    var lines := ListingLines(paths, seconds);
    ListingHasNoNewline(paths, seconds);
    ItemsOfTerminated(lines);
    var items := ItemsOf(Terminated(lines));
    forall i | 0 <= i < |paths|
      ensures items[2 * i] == FileItem(paths[i])
      ensures items[2 * i + 1] == DurationItem(IntToDecimal(seconds))
    {
      ListingLinesAt(paths, seconds, i);
      FileLineItem(paths[i]);
      DurationLineItem(seconds);
    }
    FileLineItem(paths[|paths| - 1]);
  }

  /** Lines without newlines, each ended by one, read back line by line
      with an empty last line. */
  lemma {:induction false} ItemsOfTerminated(lines: seq<String>)
    requires forall i :: 0 <= i < |lines| ==> '\n' !in lines[i]
    ensures |ItemsOf(Terminated(lines))| == |lines| + 1
    ensures forall k :: 0 <= k < |lines| ==> ItemsOf(Terminated(lines))[k] == ItemOf(lines[k])
    ensures ItemsOf(Terminated(lines))[|lines|] == OtherItem
  {
    var split := Split(Terminated(lines), '\n');
    SplitTerminated(lines);
    assert split == lines + [[]];
    assert forall k :: 0 <= k < |lines| ==> split[k] == lines[k];
    assert split[|lines|] == [];
    assert ItemOf([]) == OtherItem;
  }

  // ------------------------------------------------------ `video` command

  /** `*.png` in the cards directory. */
  predicate IsPng(name: String) {
    |name| >= 4 && name[|name| - 4..] == ".png"
  }

  function Pngs(names: seq<String>): (r: seq<String>)
    ensures forall n :: n in r <==> n in names && IsPng(n)
  {
    if names == [] then []
    else
      var rest := Pngs(names[1..]);
      assert forall n :: n in names <==> n == names[0] || n in names[1..];
      (if IsPng(names[0]) then [names[0]] else []) + rest
  }

  datatype CommandError = NoCardsDir | NoPngCards | Failed(error: VideoError)

  /** The `video` command as written: the sorted PNGs of the cards
      directory are handed over as `str`, and so is the output path. */
  function CmdVideoAsWritten(
    videoId: String, listing: Option<seq<String>>, ffmpeg: bool, resolve: String -> String): (r: Result<String, CommandError>)
    ensures listing.None? ==> r == Err(NoCardsDir)
    ensures listing.Some? && Pngs(listing.value) == [] ==> r == Err(NoPngCards)
  {
    match listing
    case None => Err(NoCardsDir)
    case Some(names) =>
      var cards := StableSort.Sort(StableSort.Id, StrLess, Pngs(names));
      if cards == [] then Err(NoPngCards)
      else match MakeVideo(seq(|cards|, i requires 0 <= i < |cards| => StrValue(cards[i])), StrValue(videoId + ".mp4"), ffmpeg, resolve, DefaultSecondsPerCard)
        case Ok(text) => Ok(text)
        case Err(e) => Err(Failed(e))
  }

  /** Whenever there are cards and ffmpeg is present, the command as
      written fails: a `str` has no `parent`. */
  lemma {:induction false} CmdVideoAsWrittenFails(videoId: String, names: seq<String>, resolve: String -> String)
    requires Pngs(names) != []
    ensures CmdVideoAsWritten(videoId, Some(names), true, resolve) == Err(Failed(NoAttribute("parent")))
  {
    var cards := StableSort.Sort(StableSort.Id, StrLess, Pngs(names));
    assert |cards| == |Pngs(names)|;
  }

  /** The `video` command as intended: the cards and output as paths. */
  function CmdVideo(
    videoId: String, listing: Option<seq<String>>, ffmpeg: bool, resolve: String -> String): (r: Result<String, CommandError>)
    ensures listing.None? ==> r == Err(NoCardsDir)
    ensures listing.Some? && Pngs(listing.value) == [] ==> r == Err(NoPngCards)
  {
    match listing
    case None => Err(NoCardsDir)
    case Some(names) =>
      var cards := StableSort.Sort(StableSort.Id, StrLess, Pngs(names));
      if cards == [] then Err(NoPngCards)
      else match MakeVideo(seq(|cards|, i requires 0 <= i < |cards| => PathValue(cards[i])), PathValue(videoId + ".mp4"), ffmpeg, resolve, DefaultSecondsPerCard)
        case Ok(text) => Ok(text)
        case Err(e) => Err(Failed(e))
  }

  /** Handed paths and a working ffmpeg, `make_video` writes the listing. */
  lemma {:induction false} MakeVideoOfPaths(paths: seq<String>, output: String, resolve: String -> String, seconds: int)
    requires paths != []
    ensures MakeVideo(seq(|paths|, i requires 0 <= i < |paths| => PathValue(paths[i])), PathValue(output), true, resolve, seconds)
      == Ok(Terminated(ListingLines(seq(|paths|, i requires 0 <= i < |paths| => resolve(paths[i])), seconds)))
  {
    var args := seq(|paths|, i requires 0 <= i < |paths| => PathValue(paths[i]));
    assert FirstStr(args).None?;
    assert seq(|args|, i requires 0 <= i < |args| => resolve(args[i].path))
        == seq(|paths|, i requires 0 <= i < |paths| => resolve(paths[i]));
  }

  /** With paths, the command writes the listing of the sorted PNGs, four
      seconds each. */
  lemma {:induction false} CmdVideoListsCards(videoId: String, names: seq<String>, resolve: String -> String)
    requires Pngs(names) != []
    ensures var cards := StableSort.Sort(StableSort.Id, StrLess, Pngs(names));
      CmdVideo(videoId, Some(names), true, resolve)
        == Ok(Terminated(ListingLines(seq(|cards|, i requires 0 <= i < |cards| => resolve(cards[i])), DefaultSecondsPerCard)))
  {
    var cards := StableSort.Sort(StableSort.Id, StrLess, Pngs(names));
    assert |cards| == |Pngs(names)|;
    MakeVideoOfPaths(cards, videoId + ".mp4", resolve, DefaultSecondsPerCard);
  }
}
