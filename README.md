# TVheadend recording post-processing, modelled in Dafny

`transcode_recordings.py` runs after TVheadend finishes a DVR recording. It
checks its arguments and the recording's status. It builds an FFmetadata
header from the DVR entry. It runs comskip and turns comskip's report into
chapter marks: "content" chapters for the gaps between commercials, then
"commercial" chapters. It encodes the recording with ffmpeg at a bitrate
derived from the source's bitrate. It moves the result next to the
recording, tells the server about the new location, and removes the
original once the server has confirmed.

This project models that sequential core:

- `Strings`: digits, whitespace, `str(int)`, and splitting text at newlines.
- `PosixPath`: `basename`, `dirname`, `splitext` and `join` on POSIX paths.
- `Bitrate`: `floor(src * factor / 1024) * 1024`, with the factor as a
  rational `num / den`. The default is 3/5.
- `Segments`: frame intervals, and the cursor walk that derives the content
  gaps. It also proves that content and commercials tile the recording.
- `Chapters`: the `[CHAPTER]` text, and a reader that proves what the text
  contains.
- `Comskip`: the report's regular expressions, the two loops of
  `generate_metadata`, `_chapter_as_string`, and the `CommercialDetector`
  object.
- `Params`: `TVHRecordParameter` as a filter over the entries of a
  parameter, and its `__repr__`.
- `Failures`: the exceptions the steps raise.
- `Dvr`: the metadata header, the transcoded path, and the
  probe → encode → move → notify → remove sequence as a function on the
  host's state. It also holds the `TVHDVRRecord` object whose methods are
  proved against that function.
- `Cli`: the guards of `main`, and one whole run of the script.

Each external program, the HTTP server and the file system enters as a
parameter:
- comskip's exit status, and the reports it wrote (a map from path to lines);
- ffprobe's parsed bitrate;
- ffmpeg's exit status;
- whether the move succeeded;
- whether the target directory exists;
- whether the `filemoved` POST raised (a timeout, a refused connection), or
  else the status code it answered;
- the DVR entry the server returns.

The host is a map from path to file kind, plus the path the server's DVR
entry records for the recording.

Two behaviours of the code are easy to misread, and the model keeps them:
- With no commercial kept, the script writes no content chapter at all, not
  one chapter spanning the whole recording. The cursor walk never runs.
- The bitrate is rounded DOWN to a multiple of 1024, although the comment on
  that line says "next 1024 multiple". A 5,000,000 bit/s source with the
  default factor gets 2,999,296 bit/s.

## Model

| member | source | states |
|---|---|---|
| Strings.NatToStringRoundTrip | transcode_recordings.py:122-127 | `str(n)` of a cursor or last frame reads back as `n`, so the bounds the script writes denote the frames it computed |
| Strings.SplitAfterLines | transcode_recordings.py:207-212 | newline-free lines written one per line come back first when the text after them is split |
| Strings.JoinLinesTerminated | transcode_recordings.py:207-222 | the header lines joined by "\n", plus the "\n" that `detect_commercials` appends, terminate every header line |
| PosixPath.RFind | transcode_recordings.py:55 | `rfind` gives the last index holding the character, or -1 when there is none |
| PosixPath.Basename | transcode_recordings.py:55 | the base name has no slash and is the longest such suffix of the path: it is the whole path or follows a slash |
| PosixPath.Dirname | transcode_recordings.py:234 | `dirname` is empty, all slashes, or ends in a character other than a slash |
| PosixPath.DirnameIsHead | transcode_recordings.py:234 | `dirname` is empty exactly when the path has no slash; otherwise it is the part before the base name with its trailing slashes stripped, unless that part is all slashes, which is kept whole |
| PosixPath.Splitext | transcode_recordings.py:55 | root + extension is the name |
| PosixPath.SplitextParts | transcode_recordings.py:55 | a non-empty extension is one dot followed by neither a dot nor a slash |
| PosixPath.SplitextHasExtension | transcode_recordings.py:55 | the extension is non-empty exactly when the last path component holds a dot after some character other than a dot |
| PosixPath.JoinParts | transcode_recordings.py:57 | `join` of an absolute second part is that part; otherwise it is the first part, one slash exactly when the first part is non-empty and does not end in a slash, then the second part |
| PosixPath.DerivedNameNoSlash | transcode_recordings.py:55 | the stem of a base name plus a slash-free extension has no slash |
| PosixPath.JoinBasename | transcode_recordings.py:57 | joining any directory with a non-empty slash-free name gives a path whose base name is that name |
| PosixPath.JoinDerived | transcode_recordings.py:55-57 | the report path `<dir>/<stem>.txt` has base name `<stem>.txt` |
| PosixPath.JoinDir | transcode_recordings.py:234 | a dirname joined with a slash-free name has that dirname and that name |
| PosixPath.JoinDirname | transcode_recordings.py:234 | joining a path's dirname with a slash-free name gives a path whose dirname and basename are that dirname and that name |
| Bitrate.TargetBitrate | transcode_recordings.py:273-275 | the target is a multiple of 1024, at most src·num/den, and more than src·num/den − 1024 |
| Bitrate.TargetIsGreatestAlignedBelow | transcode_recordings.py:274-275 | every multiple of 1024 at most src·factor is at most the target, so the rounding is a floor |
| Bitrate.TargetNonNegative | transcode_recordings.py:275 | a non-negative source gives a non-negative target |
| Bitrate.DefaultFactorExample | transcode_recordings.py:224 | with the default factor 0.6, a 5,000,000 bit/s source gets 2,999,296 |
| Segments.IntBound | transcode_recordings.py:105 | a bound the script computes as an int is written as a well-formed numeral of that frame |
| Segments.Content | transcode_recordings.py:100-108 | the walk from frame 1 that the script runs: no commercials give no content; there are at most one gap per commercial plus one; every gap is non-empty; well-formed commercials give well-formed gaps |
| Segments.ContentFrom | transcode_recordings.py:100-108 | walking from any cursor: no commercials give no content; there are at most one gap per commercial plus one; every gap is non-empty; well-formed commercials give well-formed gaps |
| Segments.ContentStep | transcode_recordings.py:103-108 | one iteration of the walk emits the gap before commercial k if it starts after the cursor, and the trailing gap only at the last commercial, then continues from the commercial's end |
| Segments.MergedProjections | transcode_recordings.py:100-108 | the timeline of gaps and commercials is an interleaving of exactly the content and exactly the commercials, each in order |
| Segments.MergedIsChain | transcode_recordings.py:100-108 | for at least one time-ordered commercial the timeline runs from the cursor to the last frame without gap or overlap |
| Segments.ChainOrdered | transcode_recordings.py:100-108 | the segments of such a timeline lie inside its range, in increasing order, without overlap |
| Segments.ChainPartitions | transcode_recordings.py:100-108 | every frame of the range lies in exactly one segment of the timeline |
| Segments.ContentAndCommercialsTile | transcode_recordings.py:100-108 | for at least one time-ordered commercial, all inside [1, last frame], the derived content and the commercials, merged in the walk's order, run from frame 1 to the last frame without gap or overlap, so every frame of [1, last frame) lies in exactly one of them |
| Chapters.ChaptersFromSnoc | transcode_recordings.py:120-127 | one more segment appends its record, numbered next, at the end |
| Chapters.ChapterText | transcode_recordings.py:114-128 | the chapter text is empty exactly when there are no segments |
| Chapters.LinesFromProps | transcode_recordings.py:122-127 | the records are five newline-free lines per segment |
| Chapters.DecodeOneBlock | transcode_recordings.py:122-127 | one record reads back as time base 100/rate, the segment's bounds and title "<label> <index>" |
| Chapters.DecodeLinesFrom | transcode_recordings.py:118-128 | the records of a list read back as one record per segment, in list order, numbered consecutively |
| Chapters.ChapterTextRoundTrip | transcode_recordings.py:114-128 | `_chapter_as_string` text holds exactly one record per segment, in list order, numbered from 1, with time base 100/rate; an empty list gives no record |
| Chapters.ChapterTextPairRoundTrip | transcode_recordings.py:110-112 | two chapter texts written one after the other read back as the first list's records followed by the second's, each numbered from 1 |
| Comskip.SpacedNumeral | transcode_recordings.py:82 | `\s+(\d+)` captures a non-empty numeral |
| Comskip.SpacedNumeralForm | transcode_recordings.py:82 | conversely, a match is whitespace, then the captured digits, then a rest that does not start with a digit |
| Comskip.MatchHeader | transcode_recordings.py:82-86 | a matched header yields a numeric frame count and frame rate |
| Comskip.MatchHeaderForm | transcode_recordings.py:82-86 | conversely, a matched line is "FILE PROCESSING COMPLETE", whitespace, the frame count, " FRAMES AT", whitespace, the rate, and a rest not starting with a digit |
| Comskip.MatchHeaderComplete | transcode_recordings.py:82-86 | every line of the form "FILE PROCESSING COMPLETE<ws><frames> FRAMES AT<ws><rate>…" matches, with those two groups |
| Comskip.MatchPair | transcode_recordings.py:90-96 | a matched pair yields two numerals |
| Comskip.MatchPairForm | transcode_recordings.py:90-96 | conversely, a matched line is the first numeral, whitespace, the second numeral, and a rest not starting with a digit |
| Comskip.MatchPairComplete | transcode_recordings.py:90-96 | every line that starts "<n><ws><m>" matches with groups n and m |
| Comskip.KeepPair | transcode_recordings.py:93-98 | a kept line gives a well-formed commercial longer than 10 frames |
| Comskip.KeepPairIff | transcode_recordings.py:93-98 | a line "<n><ws><m>…" is kept exactly when m − n > 10, and then as the commercial from frame n to frame m |
| Comskip.KeepPairForm | transcode_recordings.py:93-98 | a kept line is such a pair line, kept as the commercial between its two numbers |
| Comskip.KeptSnoc | transcode_recordings.py:92-98 | reading one more line adds that line's commercial, if it has one, at the end |
| Comskip.KeptIsOrderedFilter | transcode_recordings.py:90-98 | the commercials are exactly the lines that are pairs longer than 10 frames, each once, in line order |
| Comskip.KeptWellFormed | transcode_recordings.py:96-98 | every kept commercial is well formed and longer than 10 frames |
| Comskip.Analyze | transcode_recordings.py:80-108 | the report is analysed exactly when it has at least 3 lines and its header matches; the analysis has the header's rate and frame count, and well-formed content and commercials |
| Comskip.ChapterMetadata | transcode_recordings.py:80-112 | nothing is appended exactly when the report is not analysed or keeps no commercial |
| Comskip.ChapterMetadataOfHeader | transcode_recordings.py:80-112 | with a matching header, the appended text is the content chapters, then the commercial chapters, of the commercials from line 2 on |
| Comskip.ChapterMetadataRecords | transcode_recordings.py:73-128 | the appended text reads back as one "content i" record per content interval, then one "commercial i" record per commercial |
| Comskip.KeptCommercials | transcode_recordings.py:92-98 | the first loop collects exactly the kept commercials of lines 2 onward |
| Comskip.ContentIntervals | transcode_recordings.py:100-108 | the cursor loop produces exactly the content the walk defines |
| Comskip.ContentWalkStep | transcode_recordings.py:103-108 | one iteration of the cursor loop extends the content built so far along the walk |
| Comskip.ReportPath | transcode_recordings.py:55-57 | the report comskip is expected to write is named `<stem>.txt` after the video |
| Comskip.CommercialDetector.constructor | transcode_recordings.py:44-48 | a new detector holds the given configuration, no raw result and empty metadata |
| Comskip.CommercialDetector.DetectCommercials | transcode_recordings.py:50-71 | a failing comskip raises TranscodeError and a missing report raises OSError; otherwise the report at <dir>/<stem>.txt becomes the raw result |
| Comskip.CommercialDetector.GenerateMetadata | transcode_recordings.py:73-112 | appends to the metadata exactly the chapter text of the raw result |
| Comskip.CommercialDetector.ChapterAsString | transcode_recordings.py:114-128 | the loop builds exactly the chapter text of the segments |
| Params.RecordParameter.constructor | transcode_recordings.py:135-141 | the loop over the entries leaves exactly the attributes `Attributes` defines |
| Params.Attributes | transcode_recordings.py:135-141 | `value` is always an attribute and `id` never is; every attribute holds a str, int or float, except a `value` left at None |
| Params.AttributeKeys | transcode_recordings.py:135-141 | an attribute exists exactly for `value` and for each key other than `id` that some entry binds to a str, int or float |
| Params.AttributeLastWins | transcode_recordings.py:137-141 | an attribute holds the value of the last entry that binds it |
| Params.ValueDefault | transcode_recordings.py:136 | without an entry binding `value`, it stays None |
| Params.ReprOf | transcode_recordings.py:143-146 | `repr` is "" exactly for a falsy value, the value itself for a non-empty str, and raises TypeError for a truthy non-str |
| Params.RecordParameter.Repr | transcode_recordings.py:143-146 | the object's `repr` is "" exactly when its value is falsy, raises TypeError exactly when its value is truthy and not a str, and otherwise is its str value |
| Dvr.HeaderThenChapters | transcode_recordings.py:207-222 | the header followed by "\n" and the chapters reads back as the six header lines, then the chapter lines |
| Dvr.MetadataHeader | transcode_recordings.py:207-212 | the header followed by "\n" is the six header lines, each newline-terminated |
| Dvr.TranscodedName | transcode_recordings.py:231 | the transcoded name has no slash and ends in ".mp4" |
| Dvr.TranscodedPath | transcode_recordings.py:234 | the transcoded path lies in the recording's directory and is named by the transcoded name |
| Dvr.SameNameIffMp4 | transcode_recordings.py:231-234 | the transcoded name equals the recording's name exactly when its extension is ".mp4" |
| Dvr.ProbeTarget | transcode_recordings.py:266-275 | a failing ffprobe raises TranscodeError, an unreadable bitrate raises the parse error, a readable one gives the floored target, a multiple of 1024 at most src·factor |
| Dvr.AfterMove | transcode_recordings.py:254-257 | the steps after the move raise RequestError exactly when the POST was sent and raised; the transcoded file stays at its target unless it is the source that is removed |
| Dvr.Sequence | transcode_recordings.py:239-257 | the server's record is either unchanged or the target; a bitrate is chosen exactly when ffprobe gave one, and it is the floored target |
| Dvr.SequenceFrame | transcode_recordings.py:239-257 | besides the target no file appears or changes, and besides the source no file vanishes |
| Dvr.FailedRequestKeepsRecording | transcode_recordings.py:255-257 | a POST that raises after the move ends the run with RequestError, the transcoded file in place, the recording kept and the server's record unchanged |
| Dvr.FailureBeforeMoveLeavesHost | transcode_recordings.py:249-254 | a failure of the probe, the encoder or the move leaves files and server record unchanged and raises: TranscodeError for a failing ffprobe or ffmpeg, the parse error for an unreadable bit rate, OSError for a failed move |
| Dvr.RemovedOnlyAfterConfirmation | transcode_recordings.py:249-257 | the recording disappears exactly when encoding and move succeeded, the target directory exists, the server answered 200 and removal is allowed, for the corrected and the as-written removal alike |
| Dvr.RegistryFollowsConfirmation | transcode_recordings.py:293-307 | the server's record changes only on confirmation, and then to the transcoded path |
| Dvr.RegistryStaysValid | transcode_recordings.py:249-257 | when no removal can hit the transcoded file (no removal, or the recording's path differs from its target), if the server's record named an existing file before, it names one after |
| Dvr.SuccessLeavesTranscodedFile | transcode_recordings.py:254-257 | when no removal can hit the transcoded file (no removal, or the recording's path differs from its target), after a normal end the transcoded file is at its target |
| Dvr.RemovalIsSafe | transcode_recordings.py:231-257 | when the transcoded name differs from the recording's name, the transcoded path differs from the recording's path, so the corrected removal never hits the transcoded file |
| Dvr.Transcode | transcode_recordings.py:224-257 | the corrected sequence keeps the server's record valid, and the recording disappears exactly when the move succeeded, the server confirmed and the transcoded name differs from the recording's |
| Dvr.TranscodeAsWritten | transcode_recordings.py:224-257 | as written, the sequence agrees with the corrected one whenever the transcoded name differs from the recording's |
| Dvr.AsWrittenLosesOwnTarget | transcode_recordings.py:231-257 | as written, a recording whose transcoded path is its own path ends normally with no file where the server's record points |
| Dvr.Mp4RecordingIsOwnTarget | transcode_recordings.py:231-234 | "/rec/show.mp4" is such a recording |
| Dvr.CorrectedKeepsOwnTarget | transcode_recordings.py:231-257 | the corrected sequence keeps the transcoded file in that case |
| Dvr.DvrRecording.constructor | transcode_recordings.py:189-212 | the new record's metadata is the header of its entry |
| Dvr.DvrRecording.DetectCommercials | transcode_recordings.py:214-222 | on success the metadata gains "\n" and the chapter text of the report; a comskip or report failure raises and leaves it as it was |
| Dvr.DvrRecording.UpdateFileLocation | transcode_recordings.py:293-307 | False when the target's directory name is empty or missing; otherwise raises RequestError when the POST raises, and is True exactly when it answered 200; only then the server record moves |
| Dvr.DvrRecording.MoveAndNotify | transcode_recordings.py:254-257 | after the move, notifying the server and removing the recording end with the status and host the sequence defines |
| Dvr.DvrRecording.StartTranscoding | transcode_recordings.py:224-257 | sets the metadata and target paths and ends with the status and host of the corrected sequence |
| Cli.ParseArgsAsWritten | transcode_recordings.py:321-331 | the check as written accepts exactly four argv entries |
| Cli.DocumentedInvocationRefused | transcode_recordings.py:321-325 | the documented two-argument invocation is refused as written and accepted by the corrected check |
| Cli.ParseArgs | transcode_recordings.py:321-331 | the corrected check accepts exactly three or four entries |
| Cli.ParseArgsFields | transcode_recordings.py:326-331 | UUID and status come from positions 1 and 2, the config file from position 3 or ""; the corrected check agrees with the written one wherever that accepts |
| Cli.PostProcess | transcode_recordings.py:321-342 | a usage error, a non-"OK" status or a failed lookup changes nothing; otherwise the run ends with detection's and the corrected transcoding's outcome; the recording is removed only after confirmation, and the server's record stays valid |
| Cli.ProcessRecording | transcode_recordings.py:335-340 | builds the header, appends the chapters, and transcodes, with each step's failure cutting the rest short |
| Cli.DetectRecord | transcode_recordings.py:334-339 | a fresh record for the entry whose metadata is the header, plus "\n" and the report's chapters when comskip succeeded and wrote the report; the status says which step failed |
| Cli.TranscodeRecord | transcode_recordings.py:340 | sets the record's metadata file in the work directory and its transcoded path; transcoding the record ends with the status and host of the corrected sequence at the default factor |

## Left out

- HTTP: the `idnode/load` GET and the `filemoved` POST. Their answers
  enter as parameters: the DVR entry (None when a lookup fails) and the
  POST's outcome, which either raised or answered a status code. Authentication and the URL are not modelled.
- Subprocesses: comskip, ffprobe and ffmpeg enter as their exit statuses,
  the reports comskip wrote, and ffprobe's parsed bitrate. Their command
  lines, including `--ini=<config>`, are not modelled.
- Files: temporary directories, the metadata file's contents on disk,
  `shutil.move` and `os.remove`. They are abstract state: a map from path to
  file kind, plus the success of the move. Paths are compared as strings.
  Symbolic links, `..` and aliasing are not modelled.
- `time.localtime` and `strftime`: the formatted date is an opaque string.
- `_source_video_frame_rate`: float division, and nothing calls it.
- Bitrate.TargetBitrate: the factor is the rational num/den, not a float.
  Float rounding of `src * 0.6` is not modelled.
- `setattr` reflection in `TVHRecord` and `TVHRecordParameter`: attributes
  are a map. The lookups of the entry's `channel`, `filename`, `disp_*` and
  `start` parameters are folded into the `Cli.DvrEntry` record.
- `print` diagnostics. The broad `except Exception` in `main` appears as
  the `Finished(Raised(e))` outcome.
- Text beyond Latin-1: `\d` and `\s` are the classes Python uses for
  characters below U+0100.
- Line splitting: the reader splits at "\n" only. No other line break is
  produced or read.
- FFmetadata escaping: the script escapes nothing, and neither does the
  model. The round-trip lemmas require newline-free fields.
- Dvr.DvrRecording.StartTranscoding: models the corrected sequence, which
  skips the removal when the transcoded file replaced the recording. The
  sequence as written is `Dvr.TranscodeAsWritten`.
- Dvr.DvrRecording.MoveAndNotify: models the corrected removal, so it skips
  the removal that line 257 performs after every confirmation when the
  transcoded file replaced the recording. The as-written removal is
  `Dvr.TranscodeAsWritten`.
- Cli.TranscodeRecord: runs the corrected sequence, so it skips the removal
  that line 257 performs when the transcoded file replaced the recording.
- Cli.ProcessRecording: transcodes through the corrected sequence, so it
  skips the removal that line 257 performs when the transcoded file
  replaced the recording.
- Cli.PostProcess: models the corrected argument check and, through
  `Cli.ProcessRecording`, the corrected removal. The check as written is
  `Cli.ParseArgsAsWritten`; the sequence as written is
  `Dvr.TranscodeAsWritten`.
- Python's `int()` accepts surrounding whitespace and underscores. On the
  comskip report the script applies it only to the digit groups of its
  regular expressions, where neither occurs. On ffprobe's `bit_rate` field
  (line 273) the model does not parse the JSON text: the bit rate arrives
  already parsed as `ProbeBitRate`, and a field `int()` rejects (or a
  missing one) arrives as `ProbeUnparsable`.

## Findings

| source | as written | input that shows it | evidently intended | confidence | as-written member | corrected member |
|---|---|---|---|---|---|---|
| transcode_recordings.py:321 | `len(sys.argv) != 4` refuses anything but four entries, so the `else` branch at lines 330-331 never runs | the documented invocation `transcode_recordings.py %U %e`, e.g. argv `[script, uuid, "OK"]`: the usage text is printed and nothing is post-processed | the configuration file is optional (usage text at lines 322-324), so three or four entries are accepted | not executed | Cli.DocumentedInvocationRefused | Cli.ParseArgsFields |
| transcode_recordings.py:254-257 | after a confirmed move the recording's path is removed, even when the transcoded path is that path | a recording at "/rec/show.mp4": the move overwrites it with the transcoded file, then `os.remove` deletes that file; the run ends normally and the server's record points at a missing file | remove the original only when the transcoded file has another path | not executed | Dvr.AsWrittenLosesOwnTarget | Dvr.CorrectedKeepsOwnTarget |
