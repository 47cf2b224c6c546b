# Investment digest pipeline — a Dafny model

The investment digest pipeline has five parts:

- It fetches the newest videos of configured YouTube channels from their RSS feeds.
- It has a language model write a structured investment summary of each transcript. The summary is a Markdown file that opens with a `---` frontmatter block.
- It renders each summary as a series of 1080×1920 PNG "cards": a title card and then one card per known section, in a fixed order.
- It joins the cards into a silent short video with ffmpeg.
- It builds a static site whose `episodes.json` lists every summary, newest episode first.

This project models the logic of that pipeline as pure Dafny functions and proves what the code promises about it:

- `text.dfy` (`Text`): the Python string primitives the code relies on. These are `strip`/`lstrip`/`rstrip` with Python's whitespace set, `find`, `split("\n")`, `splitlines()`, `str(int)`, string `<` and `s[:n]`.
- `wrap.dfy` (`Wrap`): `_wrap_text`, the character-granular greedy line breaker of the card renderer. The width function is an arbitrary parameter, standing for Pillow's `textlength`.
- `summary.dfy` (`SummaryParse`): `parse_summary`. It covers frontmatter removal, the first `# ` title, link rewriting, and the `## ` sections. The section regex, as written, cannot find most sections (see Findings). `Sections`, and so `ParseSummary`, `Cards.CardsFor` and `Cards.GenerateCards`, use the corrected search, in which each heading takes one line. The search as written is modelled separately, as `SectionsAsWritten`.
- `cards.dfy` (`Cards`): the layout arithmetic of the title card and the section cards, and `generate_cards`. That is the card list, its order, its numbering and its file names, over the corrected section search.
- `sorting.dfy` (`StableSort`): Python's `list.sort(key=…)` as a stable insertion sort, proved ordered, a permutation and stable.
- `site.dfy` (`SiteBuild`): `build_site.py`. It covers the frontmatter parser, the episode-number sort key, the record of each summary file, card URLs, and the sort of the episode list.
- `worker.dfy` (`Worker`): `backend/worker.py`. It covers:
  - `.env` loading;
  - videos from an RSS feed, and the RSS-then-page fallback;
  - the three texts `generate_summary` can return;
  - the header of the `fetch` summary file.
- `runner.dfy` (`Runner`): `runner.py`. It covers channel loading and validation, the channel-name lookup, `run` target selection, the `run` summary file, and the `cards` command's channel-name scan.
- `video.dfy` (`VideoMaker`): `make_video` up to the ffmpeg run (the empty check, the probe and the concat listing), and the `video` command that calls it.
- `pipeline.dfy` (`Pipeline`): how the parts fit together.
  - What `run` and `fetch` write, the site builder and the `cards` command read back.
  - The card files the generator names, the site lists in generation order.
  - The sections the summary prompt asks for are exactly those the card generator draws.

I/O is a parameter throughout: file contents, directory listings, whether a file exists, the model call, the clock, ffmpeg, and `Path.resolve`. The functions model what the program computes from those inputs.

## Model

| member | source | states |
|---|---|---|
| Wrap.Greedy | backend/card_generator.py:62-72 | the lines the inner loop emits are a greedy breaking of the paragraph: run together they give the paragraph back, none is empty, every prefix of two or more characters of a line was measured and fit, and each line was closed because adding the next line's first character overflowed |
| Wrap.WrapParagraphCharacterised | backend/card_generator.py:62-72 | a sequence of lines is a greedy breaking of a paragraph exactly when it is what the wrapper returns (both directions) |
| Wrap.GreedyBreakingUnique | backend/card_generator.py:62-72 | a paragraph has only one greedy breaking, whatever the width function |
| Wrap.FirstLineMaximal | backend/card_generator.py:64-70 | any prefix of the paragraph longer than the first line has a prefix that does not fit: no line could have been longer |
| Wrap.WrapText | backend/card_generator.py:54-73 | every emitted line is non-empty and either fits the width or is one character too wide on its own |
| Wrap.WrapTextByParagraph | backend/card_generator.py:57-61 | a hard newline always ends a line: the lines of the text are those of its first raw line followed by those of the rest |
| Wrap.BlankLineEmitsNothing | backend/card_generator.py:59-61 | a raw line of whitespace contributes no line at all |
| Wrap.DashAloneBecomesBullet | backend/card_generator.py:59-61 | bullet normalisation runs before the emptiness test, so a line holding only `-` still yields the line `• ` |
| Wrap.GlyphAlone | backend/card_generator.py:59 | a line holding only a bullet glyph becomes the bare marker `• ` |
| Wrap.SingleRawLine | backend/card_generator.py:57-61 | a text without a line break is wrapped as its one paragraph |
| Wrap.StarLosesToBullet | backend/card_generator.py:59 | `*` counts as a bullet glyph: a line opening with `*` and a non-space has that star replaced by the bullet marker |
| Wrap.BoldLosesAsterisk | backend/card_generator.py:59 | bold markup at the start of a line comes out as `• *bold**` |
| SummaryParse.StripFrontmatter | backend/card_generator.py:174 | the result is a suffix of the text; without a leading `---` nothing is removed; what is removed starts with `---`, is at least seven characters and ends in a newline |
| SummaryParse.StripFrontmatterBlock | backend/card_generator.py:174 | a `---` block free of `---` inside, closed by `---` and whitespace ending in a newline, is removed together with that whitespace, leaving the text after it |
| SummaryParse.NoCloseInsideBlock | backend/card_generator.py:174 | the lazy match cannot close inside a block that holds no `---` |
| SummaryParse.FirstTitleIndex | backend/card_generator.py:177 | finds the first line of the form `# ` plus at least one character, and none before it; none when no line qualifies |
| SummaryParse.TitleFromFirstLine | backend/card_generator.py:177-178 | a text whose first line is `# h` has title `h` stripped |
| SummaryParse.TitleOfFirstTitleLine | backend/card_generator.py:177-178 | when line `i` is the first line of the form `# ` plus a character, the title is that line after `# `, stripped |
| SummaryParse.TitleOfNoTitleLine | backend/card_generator.py:177-178 | a text with no `# ` heading line gets the default title 投資摘要 |
| SummaryParse.TitleKeepsLinkMarkup | backend/card_generator.py:176-181 | the title is read before links are rewritten, so it keeps any link markup: the parsed title of `# h` is `h` stripped, whatever `h` holds |
| SummaryParse.LinkAt | backend/card_generator.py:181 | a link match has a non-empty caption without `]`, a non-empty target without `)`, and length caption + target + 4 |
| SummaryParse.LinkAtShape | backend/card_generator.py:181 | what is matched is exactly `[caption](target)` at the start of the text |
| SummaryParse.LinkAtLink | backend/card_generator.py:181 | `[t](u)` with `t`, `u` non-empty and free of `]` and `)` respectively is matched with caption `t` and target `u` |
| SummaryParse.LinkCollapses | backend/card_generator.py:181 | a link followed by more text is replaced by its caption, and the rewriting continues after it |
| SummaryParse.NoBracketUnchanged | backend/card_generator.py:181 | text without `[` passes through link rewriting unchanged |
| SummaryParse.RewriteLinks | backend/card_generator.py:181 | rewriting never lengthens the text |
| SummaryParse.BodyLength | backend/card_generator.py:185 | (corrected search) a section body runs to the first line that starts with `## ` (the lookahead), or to the end |
| SummaryParse.SectionBodyRunsToNextHeading | backend/card_generator.py:185 | (corrected search) a heading line followed by lines free of `## ` and then a `## ` line or the end gives one section whose body is exactly those lines, followed by the sections of the rest |
| SummaryParse.SectionKeysAreHeadings | backend/card_generator.py:185-186 | (corrected search) every section key is the stripped text of some `## ` line of the text |
| SummaryParse.Entries | backend/card_generator.py:186-187 | (corrected search) each found section is stored with its heading and body stripped |
| SummaryParse.SectionsOf | backend/card_generator.py:188-189 | (corrected search) a key is in the dictionary exactly when some entry has it with a non-empty value, and its value is that of the last such entry |
| SummaryParse.Sections | backend/card_generator.py:184-189 | (corrected search) no section is stored with an empty text, and every stored text is trimmed at both ends |
| SummaryParse.SectionsAfterOtherLine | backend/card_generator.py:185 | (corrected search) a line that is not a `## ` heading, in front of the text, adds no section |
| SummaryParse.PlainSummary | backend/card_generator.py:169-181 | a text without a frontmatter block and without `[` is parsed as it stands: no frontmatter is cut and no link rewritten |
| SummaryParse.ParsedSection | backend/card_generator.py:169-191 | (corrected search) `# t`, then `## h` and a one-line body `b`, parses to title `t` and the one section `h` with text `b`, all trimmed |
| SummaryParse.LastWith | backend/card_generator.py:188-189 | finds the last entry with the key and a non-empty value, with no later one; none when there is no such entry |
| SummaryParse.SectionsAsWritten | backend/card_generator.py:185-189 | the section search as the regex is written finds at most one section |
| SummaryParse.AsWrittenLosesSections | backend/card_generator.py:185-189 | on `## h\nb\n` the search as written finds no section, while the corrected search finds `h` with body `b` |
| SummaryParse.AsWrittenFindsNothing | backend/card_generator.py:185 | on any one-heading, one-line section ending in a newline, the search as written finds nothing |
| SummaryParse.CorrectedFindsSection | backend/card_generator.py:185-189 | the corrected search finds the section `h` with body `b` in `## h\nb\n` |
| SummaryParse.ExampleWords | backend/card_generator.py:185 | the concrete input `## 核心觀點\n重點一\n` meets the hypotheses of the discrepancy |
| Cards.Trunc | backend/card_generator.py:129 | Python's `int()` on a float: the largest integer not above a non-negative value, the smallest not below a negative one |
| Cards.MaxLines | backend/card_generator.py:147 | the content line budget is 23 |
| Cards.Truncate | backend/card_generator.py:147-149 | at most the budget: a list within the budget is kept, a longer one keeps its first 22 lines and ends with `…` |
| Cards.Footer | backend/card_generator.py:162 | the footer is never longer than 32 characters; a title of up to 32 is kept, a longer one is its first 31 characters and `…` |
| Cards.ContentRowsFit | backend/card_generator.py:147-158 | every one of up to 23 content lines, 64 pixels apart from y = 220, lies above the footer rule at y = 1790 |
| Cards.SectionCard | backend/card_generator.py:126-162 | the progress label `i / n` is right-aligned to the margin; the pill is the label's width plus 52; the lines are the wrapped content cut to the budget, each at its row and above the footer rule; the footer is the cut title |
| Cards.TitleCard | backend/card_generator.py:91-106 | the title is wrapped to the content width and centred vertically (the space above it equals the space below it), lines 90 pixels apart, the divider 36 pixels below the block |
| Cards.Rows | backend/card_generator.py:151-155 | row `k` is at `top + k * step` |
| Cards.Rank | backend/card_generator.py:21 | the position of a heading in the fixed section order, or 6 exactly when the heading is not one of them |
| Cards.OrderedFrom | backend/card_generator.py:214 | the known sections the summary has, each with its text, every one of them present, listed by strictly increasing position in the fixed order |
| Cards.GenerateCardsAt | backend/card_generator.py:194-202 | the call succeeds exactly when both the summary path and the output directory are paths; a `str` output directory fails at `mkdir` and a `str` summary path at `read_text`; on success the cards are those of the file's text |
| Cards.PathsChecked | backend/card_generator.py:194-202 | no attribute is missing exactly when both arguments are paths; a `str` output directory lacks `mkdir`, which is called first, and a `str` summary path lacks `read_text` |
| Cards.EveryKnownSectionHasCard | backend/card_generator.py:214 | every known section with text in the summary is among the ordered sections |
| Cards.Pad2 | backend/card_generator.py:216 | `{i:02d}` for `i < 100` is two digits whose value is `i` |
| Cards.CardSequenceShape | backend/card_generator.py:194-220 | the card list is `card_00` with the title card, then one card per ordered section, numbered from 1 with the number of section cards as total; each heading is a known section of the summary, in increasing order; unknown headings never become cards |
| Cards.SectionCardsShape | backend/card_generator.py:215-218 | the section cards are numbered consecutively from the first number, each named after its number and captioned with its section |
| Cards.OrderedWellFormed | backend/card_generator.py:214 | the ordered sections are known sections of the summary in strictly increasing rank |
| Cards.CardNamesSortInOrder | backend/card_generator.py:216 | card names sort as strings in the order of their numbers, for numbers below 100 |
| StableSort.Insert | build_site.py:138 | insertion adds exactly the one element |
| StableSort.Sort | build_site.py:138 | the result is a permutation of the input |
| StableSort.SortSorted | build_site.py:138 | under a strict total order on keys, no element of the result has a key before the key of an element ahead of it |
| StableSort.SortStable | build_site.py:138 | the elements with any one key keep their relative order |
| StableSort.SortedUnique | build_site.py:85 | under a strict total order, two sorted permutations of each other are equal |
| SiteBuild.MetaField | build_site.py:52-54 | a field line is a non-empty run of word characters, a colon, and the value stripped |
| SiteBuild.NotAField | build_site.py:52-53 | a line that is not a field has no word-character key in front of its colons |
| SiteBuild.FieldRoundTrip | build_site.py:52-54 | `key:value` with a word key reads back as that key with the stripped value |
| SiteBuild.Assign | build_site.py:51-54 | a key is in the dictionary exactly when some line sets it, and its value is the one the last such line gives |
| SiteBuild.LaterFieldWins | build_site.py:51-54 | a later line for the same key overrides an earlier one |
| SiteBuild.ParseFrontmatter | build_site.py:36-56 | without an opening `---`, or without a closing `---` after it, the content is all body and no field; the body is a suffix of the content, free of leading newlines when something was cut |
| SiteBuild.FrontmatterBlock | build_site.py:41-54 | `---` + block + `---` + rest, with the block free of `---` and not ending in a dash, reads as the fields of the block's lines and the rest without leading newlines |
| SiteBuild.FirstEp | build_site.py:73 | the first position where `EP<digits>` matches in either case, and none before it; none when it matches nowhere |
| SiteBuild.EpisodeNumberLeading | build_site.py:73-74 | a title that opens with `EP<n>` has episode number `n` |
| SiteBuild.NoEpisodeNumber | build_site.py:73-74 | a title with no `E` in either case has episode number 0 |
| SiteBuild.NewerFirstIsStrictTotalOrder | build_site.py:75 | `reverse=True` on `(episode, processed_at)` tuples is a strict total order |
| SiteBuild.StrLessIsStrictTotalOrder | build_site.py:85 | string comparison is a strict total order |
| SiteBuild.NormalizeDate | build_site.py:59-62 | an empty date stays empty |
| SiteBuild.CardFiles | build_site.py:115 | keeps exactly the names matching `card_*.png` |
| SiteBuild.CardUrls | build_site.py:111-116 | no cards directory means no cards; otherwise one URL `cards/<video>/<name>` per `card_*.png` file, in sorted name order |
| SiteBuild.EpisodeOf | build_site.py:95-130 | the video id falls back to the file stem when it is blank or absent; the title falls back to the stem; the summary URL is built from the video id; the channel name comes from the frontmatter, then the channel configuration, else stays empty; the thumbnail is the configured channel's `thumbnail_url` (empty when it has none) whenever the channel is configured, else empty; an absent or empty date stays empty; the record fails exactly when the name is blank and the configured channel has no `name` (the `KeyError`); without a cards directory the card list is empty, and with one it is the card URLs of its listing |
| SiteBuild.Records | build_site.py:90-130 | on success, one record per file, in file order; on failure, the error of one of the files |
| SiteBuild.BuildOrder | build_site.py:85-138 | the episodes are a permutation of the records, no episode has a smaller key than one after it, and episodes with equal keys keep the file-name order |
| SiteBuild.FilesReadInNameOrder | build_site.py:85 | the summaries are read as a permutation of the files, in file-name order |
| Worker.SettingOf | backend/worker.py:36-41 | a line sets nothing exactly when, stripped, it is blank, starts with `#` or has no `=`; a setting's key never holds `=` |
| Worker.SettingOfLine | backend/worker.py:37-41 | a stripped line sets nothing exactly when it is blank, starts with `#` or has no `=` |
| Worker.SettingSplit | backend/worker.py:37-41 | a line that is not a comment splits at its first `=`: the key is the stripped text before it, the value the unquoted text after it |
| Worker.DotenvQuoted | backend/worker.py:36-41 | `KEY="value"` sets `KEY` to the unquoted value |
| Worker.UnquotedValue | backend/worker.py:41 | a double-quoted value whose ends are not quotes loses exactly its quotes |
| Worker.FirstSetting | backend/worker.py:35-43 | the value the first line setting the key gives it; none exactly when no line sets it |
| Worker.Apply | backend/worker.py:42-43 | variables already in the environment are never replaced; a new variable is set exactly when some line sets it, to the value of the first such line |
| Worker.DotenvFirstWins | backend/worker.py:42-43 | of two lines setting a new variable, the first wins |
| Worker.EntryBlocks | backend/worker.py:117 | no found entry contains `</entry>`: each ends at the first closing tag |
| Worker.EntryBlocksOfFeed | backend/worker.py:117 | a feed of entries separated by text without `<entry>` yields back every entry's text, complete and in feed order, whatever tags the entries hold |
| Worker.FirstEntry | backend/worker.py:117 | an entry after text without `<entry>` is found first, and the search resumes after its closing tag |
| Worker.TagSearch | backend/worker.py:118-120 | the match found is an opening tag, a one-line value and the first closing tag after it; no opening tag before it has a one-line match; when none is found, no opening tag has one |
| Worker.TagValue | backend/worker.py:118-120 | a value is found exactly when some opening tag has a one-line match, and it is the value of the first such match |
| Worker.FirstValueUnique | backend/worker.py:118-120 | the first match is unique: two values that both are the first match's are equal |
| Worker.TagValueAfter | backend/worker.py:118-120 | `<tag>v</tag>` after text without `<tag>` yields `v` when `v` is one line without `</tag>`, wherever it sits in the entry |
| Worker.EntryVideo | backend/worker.py:118-126 | an entry gives a video exactly when it has a one-line video id and title; the id, title and date are the first matches of their tags; the date is empty exactly when there is no `published` match |
| Worker.Present | backend/worker.py:121-126 | keeps exactly the entries that gave a video |
| Worker.PresentAppend | backend/worker.py:121-126 | appending an entry appends its video, if it has one: the videos keep the order of the feed's entries |
| Worker.VideosOf | backend/worker.py:117-126 | a video is listed exactly when one of the entries gives it; never more videos than entries |
| Worker.VideosOfAppend | backend/worker.py:117-126 | one more entry appends its video, if it has one, after the videos of the entries before it |
| Worker.VideosFromRss | backend/worker.py:116-127 | at most `max_results` videos, and a video is listed exactly when one of the first `max_results` entries gives it |
| Worker.VideosOfLongerFeed | backend/worker.py:116-127 | while the feed holds fewer than `max_results` entries, one more entry at its end appends its video to the result, if it has one |
| Worker.EntriesBeyondLimitIgnored | backend/worker.py:117 | entries after the first `max_results` change nothing |
| Worker.LatestOfFeed | backend/worker.py:175-189 | the feed's videos are returned, non-empty, exactly when one of its first `max_results` entries gives a video; otherwise the page scrape's videos, or none when it fails |
| Worker.NoKeySummary | backend/worker.py:195-196 | without an API key the summary opens with the title heading and embeds at most 2000 transcript characters |
| Worker.Prompt | backend/worker.py:198-224 | the prompt embeds the title and at most 8000 transcript characters |
| Worker.FailureSummary | backend/worker.py:250-251 | on failure the summary opens with the title heading and embeds the error and at most 1000 transcript characters |
| Worker.NoKeySummaryTitle | backend/worker.py:195-196 | the notice written without a key parses back, through the card generator's parser, to the video title, stripped |
| Worker.FailureSummaryTitle | backend/worker.py:250-251 | the failure text parses back to the video title, stripped, whatever the error |
| Worker.GenerateSummaryTitle | backend/worker.py:193-251 | whenever the summary is not the model's text (no key, or the call failed), the card generator reads the video title from it |
| Worker.ShortTranscriptEmbedded | backend/worker.py:196 | a transcript of up to 1000 characters is embedded whole in the notice and failure texts |
| Runner.FirstMissing | runner.py:48-52 | reports the first entry missing a non-empty `channel_id` or `name`, with that key; none exactly when every entry is complete |
| Runner.ActiveChannels | runner.py:53 | exactly the active entries, a missing `active` flag counting as active |
| Runner.ActiveChannelsAppend | runner.py:53 | one more entry at the end of the file appends its channel, when active, at the end of the list: the channels keep file order |
| Runner.LoadChannels | runner.py:41-53 | a missing file is an error; otherwise the load succeeds exactly when every entry has both keys, and then gives exactly the active channels; the error names `channel_id` or `name` |
| Runner.LoadChannelsAppend | runner.py:41-53 | loading a file with one more complete entry at its end succeeds and appends that entry's channel, when active, to the channels loaded before |
| Runner.GetChannelName | runner.py:56-60 | the name of the first channel with the id, or the id itself when none has it |
| Runner.SelectTargets | runner.py:118-121 | all channels, or those with the requested id; it fails exactly when there are none, naming the request |
| Runner.Matching | runner.py:118 | keeps exactly the wanted channels, and all of them when no id is requested |
| Runner.Scan | runner.py:216-222 | the first `channel_name:` line decides; with none, the last `channel_id:` line's lookup decides |
| Runner.CardsChannelName | runner.py:211-215 | a summary that does not open with `---`, or has no closing `---` after it, has an empty channel name |
| Runner.NameLineOverridesId | runner.py:216-222 | a `channel_name:` line after a `channel_id:` line overrides it |
| Runner.IdLineLooksUp | runner.py:220-222 | a `channel_id:` line with no `channel_name:` line gives the configured name of that id |
| VideoMaker.ListingLines | backend/video_maker.py:38-43 | two lines per card and one more, the last naming the last card again |
| VideoMaker.ListingLinesAt | backend/video_maker.py:39-41 | card `i` is named on line `2i`, followed by its duration line |
| VideoMaker.ListingRoundTrip | backend/video_maker.py:38-43 | read back by the concat demuxer, the listing shows every card for the given seconds, in order, then the last card again |
| VideoMaker.MakeVideo | backend/video_maker.py:31-43 | no cards is an error; a missing ffmpeg is an error; success needs the output and every card to be paths, and then gives the listing of the resolved cards |
| VideoMaker.FirstStr | backend/video_maker.py:40 | finds the first card given as a `str`, with every card before it a path; none when all are paths |
| VideoMaker.Pngs | runner.py:243 | keeps exactly the `*.png` names |
| VideoMaker.CmdVideoAsWritten | runner.py:236-252 | no cards directory and no PNG files are the two errors checked before `make_video` |
| VideoMaker.CmdVideoAsWrittenFails | runner.py:252 | with cards and ffmpeg present, the command as written always fails: a `str` has no `parent` |
| VideoMaker.CmdVideo | runner.py:236-252 | the corrected command checks the same two errors first |
| VideoMaker.CmdVideoListsCards | runner.py:243-252 | with paths, the command writes the listing of the sorted PNG files, four seconds each |
| VideoMaker.MakeVideoOfPaths | backend/video_maker.py:31-43 | given paths and a working ffmpeg, `make_video` writes the listing of the resolved cards |
| Pipeline.FramedRead | build_site.py:36-56 | a framed file of `key: value` lines with distinct word keys and one-line values without `---` reads back as the dictionary of those keys to the stripped values |
| Pipeline.RunFrontmatterRead | runner.py:156-170 | the site reads back from a `run` file its six fields, stripped, and the heading, link and summary as the body |
| Pipeline.RunFileIndexed | build_site.py:95-103 | the site's record of a `run` file takes its title, channel and name from the frontmatter, and fails only when the name written is blank and the channel is configured without a name |
| Pipeline.RunCardsChannel | runner.py:209-222 | the `cards` command reads back the channel name the `run` command wrote |
| Pipeline.WorkerFrontmatterRead | backend/worker.py:287-289 | the site reads back from a `fetch` file its five fields, stripped, and no `channel_name` |
| Pipeline.WorkerFileIndexed | build_site.py:99-106 | a `fetch` file's channel name comes from the channel configuration, and its record fails when that has no name |
| Pipeline.WorkerCardsChannel | runner.py:209-222 | the `cards` command finds no `channel_name` in a `fetch` file and looks its channel id up instead |
| Pipeline.OrderedBound | backend/card_generator.py:214 | a summary never has more than six section cards |
| Pipeline.GeneratedCardNames | backend/card_generator.py:209-218 | card `i` of a summary is named `card_<i>.png`, and there are one to seven cards |
| Pipeline.FirstCardNamesSorted | build_site.py:115 | the first hundred card names are all `card_*.png` files, in sorted order |
| Pipeline.CardsListedInOrder | build_site.py:114-116 | whatever order the directory lists the first `n` card files in, the site lists them in generation order |
| Pipeline.GeneratedCardsListed | build_site.py:114-116 | the site lists a summary's generated cards in the order they were generated |
| Pipeline.GenerateCardsNames | backend/card_generator.py:194-220 | `generate_cards` on a file's text, with the corrected section search, gives one to seven cards, card `i` named `card_<i>.png` |
| Pipeline.CmdCardsAsWritten | runner.py:201-228 | a missing summary file is the one error checked before `generate_cards` |
| Pipeline.CmdCardsAsWrittenFails | runner.py:228 | whenever the summary exists, the command as written fails: a `str` has no `mkdir` |
| Pipeline.CmdCards | runner.py:201-228 | the corrected command fails only when the summary file is missing |
| Pipeline.CmdCardsGenerates | runner.py:209-228 | with paths, the command renders the cards of the summary's text for the channel its frontmatter names: one to seven cards, card `i` named `card_<i>.png` |
| Pipeline.PromptSectionsAreCardSections | backend/worker.py:207-223 | the summary prompt asks for exactly the sections the card generator knows, in its card order |

## Left out

- Pixels: Pillow drawing, fonts, colours and image files are not modelled. Only text placement is: which text goes where, and the line breaking, with the measured width as a parameter.
- Font selection (`_load_font`): a system lookup with no logic beyond trying paths.
- The network. The RSS download, the page scrape `_videos_from_page`, the model API call and its JSON response are parameters: `Worker.LatestVideos` takes the two fetch results (a failed fetch is `None`), and `Worker.GenerateSummary` takes the service call.
- `get_youtube_transcript`: audio download and speech recognition.
- The SQLite bookkeeping (`_get_db`, `_is_processed`, `_mark_processed`), and the loops in `cmd_run` and `fetch_channel` that call it. The summary files those loops write are modelled (`Runner.RunDocument`, `Worker.WorkerDocument`).
- File reads and writes, `mkdir`, `shutil` copies, printing, `sys.exit` and `subprocess`. Directory listings and existence tests are inputs.
- Clocks: `datetime.now()` is the `now` parameter, and `generated_at` is not modelled.
- ISO date parsing: `datetime.fromisoformat` is the `iso` parameter of `SiteBuild.NormalizeDate`.
- `Path.resolve()` is the `resolve` parameter.
- The ffmpeg command line and its run.
- `cmd_build` and `cmd_deploy`: they run another script.
- JSON loading of `channels.json`: entries are given as records with optional fields. "Truthy" is modelled for strings (non-empty) and for `active` (a missing flag counts as true). Other JSON types are not modelled.
- `\w` and `\d` in the frontmatter and episode regexes are modelled as ASCII. Python's Unicode word and digit classes are wider.
- `re.IGNORECASE` on `EP` is modelled for ASCII `E`/`e` and `P`/`p` only.
- Universal newline translation when reading files: `.env` loading takes the list of lines as read.
- SiteBuild.NormalizeDate: states only that an empty date stays empty. The rest is the ISO parser's, which is a parameter.
- SiteBuild.MakeEpisode: a non-empty date is normalised by `NormalizeDate`, whose ISO parsing is left out, so `EpisodeOf`'s contract constrains only empty dates.
- Worker.NoKeySummary, Worker.Prompt, Worker.FailureSummary: the contracts state the heading and the length bounds of the embedded transcript, not the exact notice text. `ShortTranscriptEmbedded` gives the full text for short transcripts.
- Pipeline.GeneratedCardNames and Pipeline.GeneratedCardsListed are stated over a parsed summary. `Cards.GenerateCards` is `CardsFor` of `ParseSummary`.
- Runner.CardsChannelName: the contract states the cases without a frontmatter block. The scan itself is characterised by `Runner.Scan`, and the round trips by `Pipeline.RunCardsChannel` and `Pipeline.WorkerCardsChannel`.
- Directory listings are sorted by file name: `pathlib` compares paths part by part, and all the paths sorted here share one directory.
- VideoMaker.ItemOf: the demuxer's reading of a `file` line is modelled as the literal text between `file '` and the final `'`. ffmpeg's concat demuxer ends a quoted part at any `'`, and `make_video` does not escape one. So for a card path holding `'`, `ListingRoundTrip` promises more than ffmpeg does.
- Card names are proved to sort in order only below 100 cards. A summary never has more than seven (`Pipeline.OrderedBound`).

## Findings

| source | as written | input that shows it | evidently intended | confidence | as-written member | corrected member |
|---|---|---|---|---|---|---|
| backend/card_generator.py:185 | the section regex `^## (.+)\n(.*?)` with a lookahead for the next `## ` line or the end, under MULTILINE and DOTALL: under DOTALL the greedy `(.+)` crosses newlines, so the heading runs to the last newline of the text and the value is only the final line; at most one section is ever found | `## 核心觀點\n重點一\n` gives no section at all (the heading swallows the body, the value is the empty last line) | each `## ` line opens a section whose body runs to the next `## ` line; this text gives the section 核心觀點 with text 重點一 | high, not executed | SummaryParse.AsWrittenLosesSections | SummaryParse.CorrectedFindsSection |
| runner.py:252 | `make_video([str(p) for p in card_paths], str(output_path))`, whose callee calls `output_path.parent` (backend/video_maker.py:35) and `card.resolve()` (backend/video_maker.py:40) | any cards directory holding a PNG, with ffmpeg installed: `str` has no attribute `parent` | pass the `Path` objects, so the concat listing of the sorted cards is written | high, not executed | VideoMaker.CmdVideoAsWrittenFails | VideoMaker.CmdVideoListsCards |
| runner.py:228 | `generate_cards(str(summary_path), channel_name, str(output_dir))`, whose callee calls `output_dir.mkdir` (backend/card_generator.py:200) and, through `parse_summary`, `md_path.read_text` (backend/card_generator.py:171) | any existing summary file: `str` has no attribute `mkdir` | pass the `Path` objects, so the cards of the summary are rendered | high, not executed | Pipeline.CmdCardsAsWrittenFails | Pipeline.CmdCardsGenerates |
