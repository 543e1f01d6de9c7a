# downloaderr: the format list, the download bookkeeping and the session wizard

This project models the logic of a small YouTube downloader that has two back ends.

**server.js (Express).** It answers `GET /api/video-info` in the following steps:
- take the video id out of the URL;
- run `yt-dlp -F` on the canonical watch URL;
- read the title from the `[info]` header line;
- turn every line of the format table into a record (itag, container, a quality label, video and audio flags, and a Turkish note);
- put a synthetic `best` entry in front, and a combined `video+audio` entry when the table has a video-only and an audio-only format;
- sort the list by kind and then by height.

For `POST /api/download` it does the following:
- keeps a progress entry per video id;
- picks the output extension from the format table;
- chooses the `-f` selector of the first attempt and of the retry;
- updates the progress only when a chunk of yt-dlp output reports a larger percentage;
- when an attempt ends, picks the first largest non-empty file whose name starts with `<videoId>_<itag>`;
- falls back to a retry and then a last `-f 22/18/best` attempt.

A served file gets its content type from its extension.

**app.py (Flask).** A four-page wizard kept in the user's session:
- the URL form stores `video_info` and `streams`;
- the quality page needs both;
- the download step stores `download_file`;
- the completion page needs `download_file`;
- `/clear` empties the session.

File names are built from the sanitised title, the resolution and a `YYYYMMDD_HHMMSS` timestamp.

The Dafny modules follow that split:
- `Text`: character classes and string helpers;
- `VideoId`: `extractVideoId` and the canonical URL;
- `FormatList`: the format list and its sort;
- `Downloads`: content type, selectors, progress, the largest file, the tracker and the close handlers;
- `Wizard`: the Flask session.

The two JavaScript regular expressions are modelled by position searches:
- the format-line expression `^(\d+)\s+(\w+)\s+(.+?)(\s+\((.+)\))?$`;
- the id expression.

The proofs show the following about those searches:
- the format-line search finds a match exactly when the expression has one;
- it finds the same match that backtracking tries first;
- `extractVideoId` uses the rightmost marker that `^.*` can reach.

Other modelling choices:
- The format array is sorted in place by an insertion sort with the source's comparator.
- A pytube object and a yt-dlp run are oracles: an answer passed in as a parameter.
- The tracker and the session are classes whose methods change their fields.

## Model

| member | source | states |
|---|---|---|
| Text.Split | server.js:240 | `split('\n')` gives at least one piece, and no piece holds the separator |
| Text.JoinSplit | server.js:240 | joining the pieces of a split with the separator gives back the text |
| Text.SplitFirst | server.js:574 | text without the separator splits into itself alone |
| Text.ContainsIffOccurs | server.js:268 | `includes` holds exactly when the text occurs at some offset |
| Text.AsciiLower | server.js:173 | `toLowerCase` keeps the length, lower-cases A-Z and keeps every other character |
| Text.NatToDecimal | server.js:559 | `String(n)` is a non-empty digit string without a leading zero |
| Text.DecimalRoundTrip | server.js:559 | the digits of `String(n)` read back as `n` |
| VideoId.MarkerLength | server.js:859 | which marker alternative matches at a position and how long it is; its characters hold no line terminator |
| VideoId.MarkerLengthExtends | server.js:859 | a marker match depends only on the characters it covers |
| VideoId.LastMarker | server.js:859 | the rightmost position that `^.*` reaches and where a marker matches; no later position has one |
| VideoId.LastMarkerIs | server.js:859 | a marker position with no marker after it is the one the greedy `^.*` picks |
| VideoId.GroupStart | server.js:859 | capture group 7 starts after the marker and the optional `?`, `v` and `=` |
| VideoId.ExtractVideoId | server.js:858-862 | the result is absent or exactly 11 characters, none of them `#`, `&` or `?` |
| VideoId.ExtractedIdHasNoMarker | server.js:858-862 | an extracted id contains no marker that the expression could have used instead |
| VideoId.WatchUrl | server.js:51 | the canonical URL is `https://www.youtube.com/watch?v=` followed by the id |
| VideoId.ThumbnailUrl | server.js:254-255 | the thumbnail URL holds the id, or `null` when there is none, between `https://i.ytimg.com/vi/` and `/maxresdefault.jpg` |
| VideoId.NoMarkerInPrefixTail | server.js:51 | no marker starts inside `atch?v=` of the canonical watch URL |
| VideoId.NoMarkerAfterWatch | server.js:51 | in the canonical URL of a marker-free id, no marker starts after the `watch?` |
| VideoId.WatchMarker | server.js:51 | the canonical URL's marker is the `watch?` at offset 24, and its id starts at 32 |
| VideoId.WatchHostHasNoLineTerminator | server.js:51 | the host part of the canonical URL holds no line terminator |
| VideoId.LineUpToGroup | server.js:859 | `^.*` reaches the start of group 7 |
| VideoId.MarkerInsideGroup | server.js:859 | a marker inside the captured id is a marker of the whole URL |
| VideoId.WatchUrlYieldsId | server.js:858-862 | the canonical URL of an 11-character, marker-free id without `#&?` yields that id |
| VideoId.WatchUrlRoundTrip | server.js:858-862 | every extracted id, put into `https://www.youtube.com/watch?v=<id>` (lines 51 and 254), is extracted again unchanged |
| VideoId.CheckInfoRequest | server.js:37-51 | a missing or empty `url` is refused; a URL without an id is refused; otherwise the query is the canonical URL, which yields the same id |
| FormatList.GroupEnd | server.js:261 | where `\s+\((.+)\)$` ends its whitespace, when it matches from a position |
| FormatList.GroupEndComplete | server.js:261 | whenever the type group can match from a position, GroupEnd finds it |
| FormatList.DescEnd | server.js:261 | the lazy `(.+?)` ends at or after the position it has reached |
| FormatList.DescEndSpec | server.js:261 | `(.+?)` ends at the first end where the rest matches, within the line; it finds none exactly when every end up to the next line terminator fails |
| FormatList.DescEndAccepts | server.js:261 | where the lazy description stops, the rest of the expression matches |
| FormatList.DescEndReaches | server.js:261 | the lazy description stops no later than any accepting end it can reach |
| FormatList.FindMatch | server.js:261 | the positions of the groups found are in order within the line |
| FormatList.Describe | server.js:261 | the description starts after the whitespace run, or at its last character when the run reaches the end of the line |
| FormatList.FindMatchSound | server.js:261 | what FindMatch finds is a match of the expression |
| FormatList.DescribeSound | server.js:261 | the description Describe chooses after the maximal runs completes a match |
| FormatList.OneCharLine | server.js:261 | one character that is not a line terminator can be covered by `.` |
| FormatList.DecompOfRuns | server.js:261 | the maximal digit, space and word runs followed by an accepted description form a match |
| FormatList.MatchPrefixForced | server.js:261 | in any match, groups 1 and 2 and the whitespace between them are the maximal runs |
| FormatList.DescriptionFromRunEnd | server.js:261 | when text follows the whitespace run, the description found from there ends no later than any match's |
| FormatList.DescriptionAtGroup | server.js:261 | a description that runs into the `(` of the closing group starts there and reaches the end of the line |
| FormatList.DescriptionAtEnd | server.js:261 | when the whitespace reaches the end of the line, any match ends there, with one character of description |
| FormatList.FindMatchFirst | server.js:261 | when the expression matches, FindMatch finds the first match in backtracking order: longest whitespace before group 3, then shortest group 3 |
| FormatList.FindMatchComplete | server.js:261 | FindMatch finds something exactly when the line matches |
| FormatList.FindMatchIsFirst | server.js:261 | what FindMatch finds comes before every other match in backtracking order |
| FormatList.TypeTextIsGroup | server.js:266 | group 5 is the text between the parentheses of the type group |
| FormatList.FirstPattern | server.js:273 | `match` of `(\d+)x(\d+)`, `(\d+)fps` or `(\d+)k` finds the leftmost position where the pattern matches |
| FormatList.FirstPatternIsWholeRun | server.js:273 | the first group of the leftmost match is a whole digit run |
| FormatList.DigitsAt | server.js:275 | a pattern's digit group is all digits |
| FormatList.ResolutionHeight | server.js:275 | the height of `WxH` is a non-empty digit string |
| FormatList.MakeFormat | server.js:263-308 | record fields: itag and container are groups 1 and 2, filesize `Otomatik`, `hasAudio` ⇔ type has `audio`, `hasVideo` ⇔ type has `video` or description has `x` or `fps`, note = label + suffix, or empty with no flag |
| FormatList.ParseLine | server.js:261-309 | a record exactly when the line matches; its itag is a non-empty leading digit run and its filesize is `Otomatik` |
| FormatList.ParseLineIsFirstMatch | server.js:261-266 | the record is built from the groups of the first match in backtracking order |
| FormatList.ParseLineFields | server.js:263-264 | the itag is the whole leading digit run, and the container is the whole word after the whitespace |
| FormatList.ParseMagnitudeLeadingDigits | server.js:358 | digits that are not followed by a digit, or by an `x` after a lone 0, read as their decimal value |
| FormatList.ParseIntUnsigned | server.js:358 | `parseInt` of text that starts with a digit reads the digits from its first character |
| FormatList.ParseIntLeadingDigits | server.js:358 | `parseInt` of leading digits followed by a non-digit is their value |
| FormatList.ParseIntDecimal | server.js:358 | `parseInt(String(n))` is `n` |
| FormatList.ContainsAt | server.js:358 | text that occurs at an offset is contained |
| FormatList.HeightBeforeP | server.js:358 | a label `<digits>p…` sorts by the value of its digits |
| FormatList.ResolutionLabel | server.js:273-280 | a `WxH` description is labelled `<H>p`, followed by ` <n>fps` for the leftmost `<n>fps` when there is one |
| FormatList.ResolutionLabelHeight | server.js:273-280 | a `WxH` description is labelled `<H>p…` and sorts by H |
| FormatList.BitrateLabelHeight | server.js:281-285 | an `audio only` description without `WxH` is labelled `<n>kbps` from the leftmost `<n>k`, and sorts by n |
| FormatList.AudioLabelHeight | server.js:286-288 | an `audio only` description without a bitrate is labelled `Audio`, height 0 |
| FormatList.BitrateHeight | server.js:358-359 | a label `<n>kbps` sorts by n |
| FormatList.VerbatimLabel | server.js:271-289 | a description with no `WxH` and no `audio only` is its own label |
| FormatList.FrameRateSuffix | server.js:276-279 | empty exactly when there is no `<n>fps`; otherwise a space, digits and `fps` |
| FormatList.NoteSuffix | server.js:291-298 | empty exactly when the record has neither video nor sound; otherwise a parenthesised kind |
| FormatList.NoteSuffixTellsKind | server.js:291-298 | different flags give different note suffixes, so the note tells the kind |
| FormatList.ParseMagnitude | server.js:358 | the value read is never negative, and text that does not start with a digit is NaN |
| FormatList.ParseInt | server.js:358 | `parseInt` of text without any digit is NaN |
| FormatList.LabelHeight | server.js:357-359 | a label without `p` has height 0, so only a label with `p` can be NaN |
| FormatList.Rank | server.js:345-350 | 0 for video with sound, 1 video only, 2 sound only, 3 neither |
| FormatList.CompareOrder | server.js:343-361 | the lower rank sorts first; within a rank the greater height sorts first, equal heights tie, and a NaN height ties with anything |
| FormatList.CompareAntisymmetric | server.js:343-361 | swapping the arguments of the comparator negates its result |
| FormatList.SortedByRank | server.js:352-355 | in a sorted list the ranks never decrease |
| FormatList.SortedByHeight | server.js:357-360 | within one rank, when every label reads as a number, heights never increase |
| FormatList.StepsDescend | server.js:343-361 | when every neighbour pair either raises the rank or keeps it without raising the height, two positions of equal rank have non-increasing heights |
| FormatList.InsertBackAt | server.js:343-361 | an inserted record lands behind every record that does not compare greater than it, ties included, and every record after it compares greater |
| FormatList.InsertBackElements | server.js:343-361 | inserting an element adds exactly that element to the multiset |
| FormatList.InsertBackSorted | server.js:343-361 | for an antisymmetric comparator, inserting from the back into an ordered list keeps every neighbour pair ordered |
| FormatList.InsertionSortSpec | server.js:343-361 | the insertion sort orders every neighbour pair and is a permutation of its input |
| FormatList.InsertionSortOfSorted | server.js:343-361 | input already in order is returned as it is, so records that tie keep their input order |
| FormatList.InsertingSwap | server.js:343 | swapping the inserted record with a greater one in front of it keeps the inner loop's invariant one place down |
| FormatList.InsertingDone | server.js:343 | once the record in front does not compare greater, the prefix is the insertion of the record |
| FormatList.InsertionSortStep | server.js:343 | sorting one more record of the input inserts it into the sorted records before it |
| FormatList.CompareIsAntisymmetric | server.js:343-361 | the comparator is antisymmetric on all records |
| FormatList.StableSortSpec | server.js:343-361 | the stable sort is in comparator order and a permutation of its input; a list already in order is returned unchanged |
| FormatList.InsertLast | server.js:343 | one insertion pass moves the record at `i` behind the last earlier record that does not compare greater, and leaves later records alone |
| FormatList.SortFormats | server.js:343-361 | the array becomes StableSort of its old contents. That is the ES2019 stable `sort`: each record is inserted behind the earlier records that do not compare greater, so a record stays after those it ties with. The result is sorted by the comparator and a permutation. |
| FormatList.LineRecord | server.js:262-309 | one line yields at most one record |
| FormatList.ParseLinesRecords | server.js:259-310 | every parsed record has a non-empty digit itag and the `Otomatik` size |
| FormatList.ParseLinesAppend | server.js:259-310 | parsing concatenated lines concatenates the records, so records keep line order |
| FormatList.ParseOneLine | server.js:259-310 | a matching line yields exactly its record and any other line nothing |
| FormatList.CollectFormats | server.js:259-310 | the push loop gives the records of the matching lines in order |
| FormatList.FindOnly | server.js:315-316 | `find` gives the first video-only (or audio-only) record, and none when there is none |
| FormatList.Combined | server.js:318-328 | the combined entry's itag is `<video itag>+<audio itag>`; it has video and sound, rank 0, the video entry's label and the `mp4` container |
| FormatList.WithSyntheticEntries | server.js:314-340 | empty stays empty; otherwise `best` comes first, the parsed list follows unchanged, and the combined entry of the first video-only and the first audio-only record is present exactly when both exist |
| FormatList.SyntheticEntriesHaveSound | server.js:319-339 | the synthetic entries have video and sound, rank 0 |
| FormatList.CombinedEntryHasSound | server.js:315-327 | the combined `video+audio` entry, when present, has video and sound, rank 0 |
| FormatList.AddSyntheticEntries | server.js:314-340 | the two `unshift` calls give WithSyntheticEntries |
| FormatList.FirstInfoLine | server.js:244 | the first line starting with `[info]`, or none when no line does |
| FormatList.ColonAfter | server.js:247 | the lazy `(.*?):` ends at the first colon, unless a line terminator comes first |
| FormatList.InfoMatch | server.js:247 | the leftmost match of `\[info\] (.*?):` and its colon; none exactly when no `[info] ` is followed by a colon on its line |
| FormatList.HeaderTitle | server.js:244-251 | the title is `YouTube Video`, or a non-empty group without colon or line terminator; it is `YouTube Video` when no line starts with `[info]` |
| FormatList.AbsentCharNotContained | server.js:358 | text without a given character does not contain it, so `"Audio".includes("p")` is false |
| FormatList.HeaderWithoutMatch | server.js:244-251 | a first `[info]` line in which no `[info] ` is followed by a colon on its line gives `YouTube Video` |
| FormatList.ColonAfterIs | server.js:247 | a colon with no colon or line terminator before it is where `(.*?):` stops |
| FormatList.HeaderTitleOf | server.js:244-251 | with `[info] <title>:<rest>` as first `[info]` line, the title is `<title>` |
| FormatList.FirstInfoLineIs | server.js:244 | the first `[info]` line after non-`[info]` lines is that line |
| FormatList.HeaderLineMatch | server.js:247-249 | in `[info] <title>:<rest>` the match starts at 0, and group 1 is `<title>` |
| FormatList.GetVideoInfo | server.js:234-368 | the answer's title is the header title, its thumbnail is the URL's id, and its formats are StableSort of the parsed records with the synthetic entries, hence sorted and a permutation of them |
| FormatList.SortedCopy | server.js:343 | the record list, copied into an array and sorted in place there, comes out as StableSort of the list |
| Downloads.TrimmedEnd | server.js:173 | trailing slashes are ignored by `path.extname` |
| Downloads.SegmentStart | server.js:173 | the last path segment starts just after the last `/` |
| Downloads.LastDot | server.js:173 | the index of the last `.`, or none when there is none |
| Downloads.Extname | server.js:173 | `path.extname` is empty or starts with `.` and holds no `/` |
| Downloads.ExtnameSpec | server.js:173 | the extension is empty exactly when no dot follows the last segment's first character or the segment is `..`; otherwise it is the segment's end from its last dot |
| Downloads.ExtnameEmpty | server.js:173 | a last segment without a dot after its first character, or the segment `..`, has no extension |
| Downloads.ExtnameFromDot | server.js:173 | a last segment whose last dot is not its first character has the extension from that dot to its end, with no further dot |
| Downloads.MediaType | server.js:176-182 | the table has an entry exactly for the five extensions |
| Downloads.ContentType | server.js:173-188 | the content type is `application/octet-stream` or the table's type of one of the five extensions |
| Downloads.ContentTypeOf | server.js:173-188 | a slash-free `<stem>.<x>` with a dot-free `x` gets the table's type of `x` lower-cased, or `application/octet-stream` when the table has none |
| Downloads.ContentTypeWithoutExtension | server.js:173-188 | a slash-free name with no dot after its first character is served as `application/octet-stream` |
| Downloads.ExtnameOf | server.js:173 | `<stem>.<ext>` without slashes and with no dot in `ext` has the extension `.<ext>` |
| Downloads.NoSlashInStem | server.js:503 | `<videoId>_<itag>` has no slash when its parts have none |
| Downloads.LowerDotExtension | server.js:173 | lower-casing `.` + a lower-case extension changes nothing |
| Downloads.SegmentStartWhole | server.js:173 | a path without slashes is one segment |
| Downloads.LastDotIs | server.js:173 | a dot with no dot after it is the last dot |
| Downloads.OutputNameContentType | server.js:173-188 | a file served under its output name `<videoId>_<itag>.<ext>` gets the media type of its extension from the table |
| Downloads.BackupContentType | server.js:173-188 | the backup file `<videoId>_backup` (line 736) is served as `application/octet-stream` |
| Downloads.ExtensionAtSpec | server.js:493 | an extension that stands as a word at the position, compared without case; none exactly when no alternative does |
| Downloads.ExtensionsDiffer | server.js:493 | the five extensions differ in their first two letters |
| Downloads.ExtensionAtWord | server.js:493 | where an extension stands as a word, the expression reports that extension, so the alternatives' order does not matter |
| Downloads.FirstExtension | server.js:493-495 | the extension found is one of the five |
| Downloads.FirstExtensionSome | server.js:493-495 | what FirstExtension finds is the match at the leftmost position where the expression matches |
| Downloads.FirstExtensionNone | server.js:493-495 | FirstExtension finds nothing exactly when the expression matches at no position |
| Downloads.FirstExtensionAfterNone | server.js:493-495 | an extension at a position with none before it is the one FirstExtension finds |
| Downloads.FirstLineWith | server.js:490-491 | the first line containing the itag, or none when no line does |
| Downloads.FirstLineWithIsFirst | server.js:490-491 | any line that contains the itag with no earlier line containing it is the line found |
| Downloads.SniffedExtension | server.js:488-500 | `mp4` when no line contains the itag; otherwise the leftmost extension of the first line that does, or `mp4` when that line has none |
| Downloads.FormatLineExtension | server.js:488-500 | a table line `<itag><spaces><EXT>…` whose itag no earlier line contains gives `EXT` lower-cased |
| Downloads.LineExtension | server.js:493-495 | in `<digits><separator><EXT><rest>` the leftmost `\b(mp4\|webm\|m4a\|opus\|ogg)\b` match is `EXT` lower-cased |
| Downloads.DetectExtension | server.js:488-500 | the loop that stops at the first line naming the itag gives SniffedExtension |
| Downloads.NoSlashInExtensions | server.js:176-182 | each detectable extension is lower-case, without `/` or `.`, and has a table entry |
| Downloads.OutputName | server.js:503 | the output name starts with `<videoId>_<itag>`, the prefix the finishing step looks for, and ends with `.<ext>` |
| Downloads.ReplaceFirst | server.js:512 | `replace` keeps the length |
| Downloads.ReplaceFirstAbsent | server.js:512 | without an occurrence, `replace` changes nothing |
| Downloads.ReplaceFirstAt | server.js:512 | only the first occurrence is replaced, by the replacement character |
| Downloads.ReplaceFirstSame | server.js:512 | replacing `+` by `+` changes nothing |
| Downloads.FirstSelector | server.js:507-516 | `best` or no itag selects the best MP4 video with M4A sound; any other itag is selected as itself, quoted |
| Downloads.SplitFirstPiece | server.js:641 | the first piece of `split('+')` is the text before the first `+` |
| Downloads.RetrySelector | server.js:636-645 | every retry selector starts with `-f ` and ends with the `/best` fallback; `best` or no itag asks for `bestvideo+bestaudio/best` |
| Downloads.RetryOfCombined | server.js:636-645 | for `<video>+<audio>` the first attempt asks for both and the retry for `<video>+bestaudio/best` |
| Downloads.RetryOfPlain | server.js:643-644 | a plain itag is retried as `-f <itag>/best` |
| Downloads.FirstPercent | server.js:553 | the leftmost match of `(\d+\.\d+)%`, or none when there is none |
| Downloads.DecimalReal | server.js:555 | `parseFloat` of `<digits>.<digits>` is non-negative |
| Downloads.Percent | server.js:553-555 | the percentage read from a chunk is non-negative |
| Downloads.NextProgress | server.js:554-560 | the stored progress never decreases; it changes only to a larger chunk fraction, and afterwards it is at least that fraction |
| Downloads.Replay | server.js:539-585 | replaying chunks never lowers `lastProgress` |
| Downloads.ReplayIsMaximum | server.js:539-585 | after any chunks the progress is the maximum of the start value and every chunk's fraction |
| Downloads.Round | server.js:559 | `Math.round` rounds halves up for non-negative values |
| Downloads.DownloadingStatus | server.js:559 | the status is `İndiriliyor... %` and digits that read back as the rounded percentage |
| Downloads.RetryingStatus | server.js:675 | the status is `Tekrar indiriliyor... %` and digits that read back as the rounded percentage |
| Downloads.StderrStatus | server.js:574 | the standard-error status holds no newline: it shows only the chunk's first line |
| Downloads.Candidates | server.js:597-599 | every kept entry's name starts with the prefix |
| Downloads.CandidatesMembers | server.js:597-599 | exactly the directory entries whose names start with the prefix are kept |
| Downloads.CandidatesAppend | server.js:597-599 | the filter keeps directory order: filtering a concatenation concatenates the results |
| Downloads.CandidatesCons | server.js:597-599 | the first entry is kept, in front of the rest's candidates, exactly when its name starts with the prefix |
| Downloads.CandidatesOne | server.js:597-599 | a single entry is kept exactly when its name starts with the prefix |
| Downloads.SelectLargest | server.js:603-616 | no files; all empty; or the first file of the largest size, which is non-zero |
| Downloads.ProgressTracker.constructor | server.js:27 | the tracker starts without entries |
| Downloads.ProgressTracker.StartDownload | server.js:72-84 | a missing `videoId` or `itag` is refused with the tracker unchanged; otherwise the video's entry is reset to the starting record |
| Downloads.Download.constructor | server.js:488-522 | the output name uses the sniffed extension, the selector is FirstSelector, `lastProgress` is 0, and the entry announces `<videoId>_<itag>.mp4` |
| Downloads.Download.OnStdout | server.js:542-562 | a gone entry ignores the chunk; otherwise `lastProgress` becomes NextProgress, and only a larger value updates progress and the `İndiriliyor... %n` status |
| Downloads.Download.OnStderr | server.js:564-585 | a gone entry ignores the chunk; otherwise the status shows the chunk's first line, and the progress moves only to a larger value |
| Downloads.Download.OnRetryStdout | server.js:659-678 | as OnStdout, with the `Tekrar indiriliyor... %n` status |
| Downloads.Download.FinishFirstAttempt | server.js:590-633 | a gone entry makes the handler throw; a failed listing rejects; it resolves exactly when a candidate is non-empty, with the first largest and the entry complete; otherwise it starts the retry with RetrySelector |
| Downloads.Download.FinishRetry | server.js:690-781 | as in the first attempt for the largest file; empty candidates fail with `Boş dosya`; with no candidate, the backup succeeds only on exit status 0 with a non-empty file, and it threw or failed otherwise |
| Wizard.Sanitize | app.py:22-24 | the result is no longer than the input and contains none of `\ / * ? : " < > \|` |
| Wizard.SanitizeConcat | app.py:22-24 | sanitising a concatenation concatenates the results, so order is kept |
| Wizard.SanitizeKeeps | app.py:22-24 | text without those characters is unchanged |
| Wizard.SanitizeIdempotent | app.py:22-24 | sanitising twice is sanitising once |
| Wizard.SanitizeCounts | app.py:22-24 | every allowed character occurs as often as in the input |
| Wizard.Pad2 | app.py:92 | two digits |
| Wizard.Pad4 | app.py:92 | four digits |
| Wizard.Timestamp | app.py:92 | `strftime('%Y%m%d_%H%M%S')` has 15 characters, `_` at index 8 and digits elsewhere |
| Wizard.Pad2Value | app.py:92 | two padded digits read back as the number |
| Wizard.Pad4Value | app.py:92 | four padded digits read back as the year |
| Wizard.TimestampFields | app.py:92 | the fields of the timestamp read back as year, month, day, hour, minute and second |
| Wizard.FileName | app.py:94 | the file name starts with the sanitised title and `_`, and ends with the timestamp and `.mp4` |
| Wizard.PathJoin | app.py:101 | an absolute second part replaces the first; otherwise the result ends with `/` and the second part, after the first part |
| Wizard.DownloadPathShape | app.py:92-101 | the stored path is `downloads/<name>`; the name has no `/`, starts with the sanitised title and `_`, and ends with the timestamp and `.mp4` |
| Wizard.SpaceStart | app.py:85 | where the trailing white space that `int` strips begins |
| Wizard.DigitGroupsChars | app.py:85 | an integer literal's body is digits and underscores |
| Wizard.RemoveUnderscores | app.py:85 | dropping the underscores leaves digits, and digits stay as they are |
| Wizard.PyInt | app.py:85 | `int('')` raises |
| Wizard.PyIntOfDecimal | app.py:85 | `int(str(n))` is `n`, so a submitted itag reads back as the number offered |
| Wizard.HexDigit | app.py:107 | a lower-case hexadecimal digit whose value is the number |
| Wizard.ReprChar | app.py:107 | the quote and the backslash get a backslash; tab, newline and carriage return get `\t`, `\n`, `\r`; other ASCII control characters get `\x` and two hexadecimal digits of their code; every other character is itself |
| Wizard.PyRepr | app.py:107 | `repr` puts the body between two equal quotes, single unless the text has a single quote and no double quote |
| Wizard.IntError | app.py:105-107 | the `int` error is the `invalid literal for int() with base 10: ` prefix and the repr, cut after 200 characters |
| Wizard.ReprPlain | app.py:107 | printable text without the quote or backslash is shown unchanged inside the quotes |
| Wizard.Row | app.py:47-53 | a stream row copies itag, resolution, fps and MIME type, and its size in MB times 1048576 is the file size |
| Wizard.ListStreams | app.py:45-53 | one row per stream, in the resolver's order |
| Wizard.DownloadFailure | app.py:82-108 | the flashed failure is the generic prefix with the error text; a bad itag fails at `int` with its error; the missing-stream message comes exactly when the itag reads as a number and no stream is found |
| Wizard.Session.constructor | app.py:1 | a new visitor's session holds no key and no message |
| Wizard.Session.Index | app.py:26-62 | GET renders the form; POST without a URL flashes and redirects to the form without asking the resolver; a failure while the streams are read keeps the new `video_info` beside the old `streams`; success stores both and redirects to the quality page |
| Wizard.Session.QualitySelection | app.py:64-70 | renders exactly when `video_info` and `streams` are both present; otherwise it flashes and redirects to the form |
| Wizard.Session.DownloadVideo | app.py:72-108 | no `video_info` redirects to the form; no itag, no stream, a bad `int`, or a failed download redirects to the quality page with the session's keys unchanged; it reaches the completion page exactly when the file is saved, with `download_file` set to the path |
| Wizard.Session.Complete | app.py:110-117 | renders exactly when `download_file` is present; otherwise it flashes and redirects to the form |
| Wizard.Session.Clear | app.py:123-126 | every key and every flashed message is gone, and it redirects to the form |
| Wizard.Session.ClearThenRevisit | app.py:123-126 | after `/clear`, both the quality page (lines 66-68) and the completion page (lines 112-114) redirect to the form |

## Left out

- Processes, the network, the file system and timers are not modelled: `exec`, `spawn` and `spawnSync` of yt-dlp, the command strings, the oEmbed fallback `fetchBasicInfo`, the port probing of `startServer` and `findAvailablePort`, the SSE progress stream with its intervals and the three-minute cleanup, the two-second waits, and file streaming with `send_file`. Their results enter as parameters: the `-F` output, the chunks, the directory listing and the backup run's exit status and file size.
- The three-minute cleanup that deletes a tracker entry is not modelled as an operation. Every handler does take the entry being gone into account, which is the `Uncaught` outcome and the ignored chunks.
- The failure of the `-F` query inside `downloadVideo` (server.js:784-787) just rejects the promise with the foreign error and changes nothing. The outer catch (server.js:789-793) is not modelled.
- Downloads.Download.constructor: requires the tracker entry to exist. If the cleanup has removed it, line 522 throws and the promise is rejected with that TypeError, which is not modelled.
- The retry's standard-error handler (server.js:680-688) only writes to the log, so it changes nothing and has no member. `successCodes` (server.js:588) and the exit codes passed to the close handlers are never used by the code, so they are not modelled either.
- Progress values are exact reals: `parseFloat` and the division by 100 are exact, with no IEEE rounding.
- The `size_mb` value is the exact quotient in the model. app.py rounds it to two decimals, and that rounding is not modelled.
- Strings are sequences of Unicode scalar values. JavaScript counts UTF-16 code units, so `extractVideoId`'s length test of 11 differs for ids with characters outside the Basic Multilingual Plane.
- Downloads.ProgressTracker: treats every video id as an ordinary key. In JavaScript an id that names an `Object.prototype` member (`constructor`, `toString`, `__proto__`) is not one: after the cleanup `progressTracker[videoId]` is still truthy for such a name, so the handlers write onto the prototype member instead of ignoring the chunk, and assigning `progressTracker["__proto__"]` replaces the prototype and adds no entry. `constructor` is an 11-character id that `extractVideoId` accepts.
- Downloads.Extname: models the POSIX `path.extname`. On Windows, where the server runs `bin/yt-dlp.exe` outside production (server.js:467), Node uses the win32 rules, under which `\` also separates segments.
- Wizard.PathJoin: models POSIX `os.path.join`. On Windows, `ntpath.join` puts `\` between the parts, and it treats a drive letter in the second part as starting a new path.
- Wizard.Session: `flashes` holds the pending `_flashes` of the Flask session. The templates are not part of this model, so a render that consumes them through `get_flashed_messages()` is not modelled.
- Downloads.ContentType: `toLowerCase` is modelled for ASCII letters only. The model also does not capture that a key such as `constructor` finds a prototype member of the table object rather than `application/octet-stream`.
- Wizard.PyInt: accepts ASCII digits only. Python also accepts other Unicode decimal digits, and it rejects literals above 4300 digits; neither is modelled.
- Wizard.PyRepr: escapes ASCII control characters only. Python also escapes non-printable characters outside ASCII.
- Wizard.ValidDateTime: assumes a four-digit year (1000 to 9999). `strftime('%Y')` on other years is not modelled.
- FormatList.SortFormats: is an insertion sort with the source's comparator, proved equal to StableSort. For a consistent comparator every stable sort gives this order, which is what `Array.prototype.sort` has promised since ES2019. When a label contains `p` but does not start with a number, the comparator returns NaN. `Array.prototype.sort` with such an inconsistent comparator may produce another order. The proved height order assumes every label reads as a number.
- FormatList.LabelHeight: heights are exact integers. JavaScript's `parseInt` returns a double, so the model's heights and comparator differ for very long labels:
  - Heights above 2^53 can round to the same value. For example, labels reading 9007199254740992 and 9007199254740993 tie in JavaScript but not in the model.
  - A label of more than about 309 digits parses to `Infinity`, and `Infinity - Infinity` in the comparator is NaN.
  - FormatList.ParseInt and FormatList.Compare share this difference.
- Request bodies and query values are modelled as absent or a string. Arrays and objects sent as `videoId`, `itag` or `url` are not.
- pytube's `filter(progressive=True).order_by('resolution').desc()` and `get_by_itag` belong to the library. The handlers receive their outcome as a `Lookup` or `Fetch` value.
