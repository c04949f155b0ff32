/** A DVR recording being post-processed (class TVHDVRRecord,
    transcode_recordings.py:184-307): its FFmetadata header, the chapter
    marks appended after commercial detection, and the transcoding sequence
    probe -> encode -> move -> notify the server -> remove the original. */
module Dvr {
  import opened Strings
  import opened PosixPath
  import opened Bitrate
  import opened Failures
  import opened Params
  import opened Chapters
  import opened Comskip

  // ---------------------------------------------------------------------------
  // The metadata header

  /** The lines of the header `generate_metadata` writes: the FFmetadata
      signature, then one `key=value` line per field, values written with
      `str`. `date` is the recording's start as `strftime("%Y-%m-%d")` wrote
      it; `network` is what the channel's name parameter renders to. */
  function HeaderLines(title: Value, artist: Value, description: Value, date: string, network: string): seq<string> {
    [";FFMETADATA1",
     "title=" + Display(title),
     "artist=" + Display(artist),
     "description=" + Display(description),
     "date=" + date,
     "network=" + network]
  }

  /** The header text: the lines joined by newlines, without a final one, so
      the newline `detect_commercials` appends terminates the last of them. */
  function MetadataHeader(title: Value, artist: Value, description: Value, date: string, network: string)
    : (r: string)
    ensures r + "\n" == Unlines(HeaderLines(title, artist, description, date, network))
  {
    JoinLinesTerminated(HeaderLines(title, artist, description, date, network));
    JoinLines(HeaderLines(title, artist, description, date, network))
  }

  /** The header is followed by a newline and the chapter records when
      commercials are detected, so the six header lines come back one per
      line, ahead of the records. */
  lemma HeaderThenChapters(title: Value, artist: Value, description: Value, date: string, network: string,
                           chapters: string)
    requires NoNewline(Display(title)) && NoNewline(Display(artist)) && NoNewline(Display(description))
    requires NoNewline(date) && NoNewline(network)
    ensures SplitLines(MetadataHeader(title, artist, description, date, network) + "\n" + chapters)
         == HeaderLines(title, artist, description, date, network) + SplitLines(chapters)
  {
    var ls := HeaderLines(title, artist, description, date, network);
    JoinLinesTerminated(ls);
    HeaderLinesPlain(title, artist, description, date, network);
    SplitAfterLines(ls, chapters);
  }

  lemma HeaderLinesPlain(title: Value, artist: Value, description: Value, date: string, network: string)
    requires NoNewline(Display(title)) && NoNewline(Display(artist)) && NoNewline(Display(description))
    requires NoNewline(date) && NoNewline(network)
    ensures var ls := HeaderLines(title, artist, description, date, network);
      forall i :: 0 <= i < |ls| ==> NoNewline(ls[i])
  {
    assert NoNewline(";FFMETADATA1") by {
      assert forall i :: 0 <= i < |";FFMETADATA1"| ==> ";FFMETADATA1"[i] != '\n';
    }
    NoNewlineConcat("title=", Display(title));
    NoNewlineConcat("artist=", Display(artist));
    NoNewlineConcat("description=", Display(description));
    NoNewlineConcat("date=", date);
    NoNewlineConcat("network=", network);
  }

  // ---------------------------------------------------------------------------
  // Where the transcoded file goes

  /** The name of the transcoded file: the recording's base name with its
      last extension replaced by ".mp4". */
  function TranscodedName(filename: string): (r: string)
    ensures NoSlash(r) && |r| >= 4 && r[|r| - 4..] == ".mp4"
  {
    DerivedNameNoSlash(filename, ".mp4");
    DerivedName(filename, ".mp4")
  }

  /** The transcoded file sits next to the recording: same directory, the
      transcoded name. */
  function TranscodedPath(filename: string): (r: string)
    ensures Dirname(r) == Dirname(filename)
    ensures Basename(r) == TranscodedName(filename)
  {
    JoinDirname(filename, TranscodedName(filename));
    Join(Dirname(filename), TranscodedName(filename))
  }

  /** The transcoded name equals the recording's own name exactly when the
      recording's extension is already ".mp4". */
  lemma SameNameIffMp4(filename: string)
    ensures TranscodedName(filename) == Basename(filename) <==> Splitext(Basename(filename)).1 == ".mp4"
  {
    var base := Basename(filename);
    SplitextParts(base);
    var (root, ext) := Splitext(base);
    if root + ".mp4" == base {
      assert root + ".mp4" == root + ext;
      assert ext == (root + ext)[|root|..];
    }
  }

  // ---------------------------------------------------------------------------
  // The transcoding sequence on the host's state

  /** What is stored at a path of the host: the recording, or the file the
      encoder produced. */
  datatype FileKind = Recording | TranscodedFile

  /** The host as the script affects it: the files present, and the path
      that the server's DVR entry records for the recording. */
  datatype Host = Host(files: map<string, FileKind>, registry: string)

  /** What ffprobe reports: a failure, JSON without a readable integer
      `format.bit_rate`, or that bitrate. */
  datatype ProbeResult = ProbeFailed | ProbeUnparsable | ProbeBitRate(bitRate: int)

  /** How the `filemoved` POST ends: `requests` raises (no answer within the
      30-second timeout, a refused connection), or the server answers with a
      status code. */
  datatype PostResult = PostRaised | PostAnswered(statusCode: int)

  /** The outcomes of the steps the script hands to other programs. */
  datatype ExternalResults = ExternalResults(
    probe: ProbeResult,
    ffmpegExit: int,
    moveSucceeds: bool,
    dirExists: bool,      // whether the transcoded file's directory exists, asked of a non-empty name
    post: PostResult)     // how the `filemoved` POST ended

  datatype Outcome = Outcome(status: Status, host: Host, bitrate: Option<int>)

  /** `_calculate_target_video_bitrate`: ffprobe failing raises TranscodeError,
      an unreadable bitrate raises (KeyError or ValueError), otherwise the
      scaled, floored bitrate. */
  function ProbeTarget(probe: ProbeResult, num: nat, den: nat): (r: Result<int>)
    requires den > 0
    ensures r.Success? <==> probe.ProbeBitRate?
    ensures r.Success? ==> r.value % Alignment == 0 && r.value * den <= probe.bitRate * num
    ensures probe == ProbeFailed ==> r == Failure(TranscodeError)
    ensures probe == ProbeUnparsable ==> r == Failure(ProbeOutputError)
    ensures probe.ProbeBitRate? ==> r == Success(TargetBitrate(probe.bitRate, num, den))
  {
    match probe
    case ProbeFailed => Failure(TranscodeError)
    case ProbeUnparsable => Failure(ProbeOutputError)
    case ProbeBitRate(b) => Success(TargetBitrate(b, num, den))
  }

  /** `update_file_location` posts only when the directory of the
      transcoded file exists (`os.path.exists("")` is False). */
  predicate Posted(target: string, ext: ExternalResults) {
    Dirname(target) != "" && ext.dirExists
  }

  /** `update_file_location` is True when it posted and the server answered
      the `filemoved` POST with 200. */
  predicate Confirmed(target: string, ext: ExternalResults) {
    Posted(target, ext) && ext.post == PostAnswered(200)
  }

  /** `os.remove`: a missing file raises OSError. */
  function Remove(files: map<string, FileKind>, path: string): (Status, map<string, FileKind>) {
    if path in files then (Ok, files - {path}) else (Raised(OSError), files)
  }

  /** The sequence of `start_transcoding` for a recording at `source` whose
      output goes to `target`: probe, encode and move (a failure raises before
      the host changes), notify the server (a failed request raises after the
      move), and, when it confirmed and `removeSource` allows, remove the
      recording. */
  function Sequence(source: string, target: string, removeSource: bool, host: Host, ext: ExternalResults,
                    num: nat, den: nat): (r: Outcome)
    requires den > 0
    ensures r.host.registry == host.registry || r.host.registry == target
    ensures r.bitrate == if ext.probe.ProbeBitRate? then Some(TargetBitrate(ext.probe.bitRate, num, den)) else None
  {
    match ProbeTarget(ext.probe, num, den)
    case Failure(e) => Outcome(Raised(e), host, None)
    case Success(rate) =>
      if ext.ffmpegExit != 0 then Outcome(Raised(TranscodeError), host, Some(rate))
      else if !ext.moveSucceeds then Outcome(Raised(OSError), host, Some(rate))
      else
        var (status, host') := AfterMove(source, target, removeSource, host, ext);
        Outcome(status, host', Some(rate))
  }

  /** The steps after a successful encode: the move puts the transcoded file
      at `target`, then the server is notified and the recording removed as
      `Sequence` describes. */
  function AfterMove(source: string, target: string, removeSource: bool, host: Host, ext: ExternalResults)
    : (r: (Status, Host))
    ensures r.0 == Raised(RequestError) <==> Posted(target, ext) && ext.post == PostRaised
    ensures !(removeSource && source == target) ==> target in r.1.files && r.1.files[target] == TranscodedFile
  {
    var moved := host.files[target := TranscodedFile];
    if Posted(target, ext) && ext.post == PostRaised then (Raised(RequestError), Host(moved, host.registry))
    else if !Confirmed(target, ext) then (Ok, Host(moved, host.registry))
    else if !removeSource then (Ok, Host(moved, target))
    else
      var (status, files) := Remove(moved, source);
      (status, Host(files, target))
  }

  /** Nothing but the target and the recording changes on the host: every
      other path keeps its file, and no path other than the target appears. */
  lemma SequenceFrame(source: string, target: string, removeSource: bool, host: Host, ext: ExternalResults,
                      num: nat, den: nat)
    requires den > 0
    ensures var r := Sequence(source, target, removeSource, host, ext, num, den);
      && (forall p :: p in r.host.files && p != target ==> p in host.files && r.host.files[p] == host.files[p])
      && (forall p :: p in host.files && p != source ==> p in r.host.files)
  {
  }

  /** `start_transcoding` as written: after a confirmed move the recording's
      path is removed, even when that path IS the transcoded file. */
  function TranscodeAsWritten(source: string, host: Host, ext: ExternalResults, num: nat, den: nat): (r: Outcome)
    requires den > 0
    ensures TranscodedName(source) != Basename(source) ==> r == Transcode(source, host, ext, num, den)
  {
    Sequence(source, TranscodedPath(source), true, host, ext, num, den)
  }

  /** `start_transcoding` with the removal skipped when the transcoded file
      replaced the recording under its own name. */
  function Transcode(source: string, host: Host, ext: ExternalResults, num: nat, den: nat): (r: Outcome)
    requires den > 0
    ensures host.registry in host.files ==> r.host.registry in r.host.files
    ensures source in host.files ==>
      (source !in r.host.files <==>
        Moved(ext) && Confirmed(TranscodedPath(source), ext) && TranscodedName(source) != Basename(source))
  {
    var target := TranscodedPath(source);
    var removeSource := TranscodedName(source) != Basename(source);
    RemovalIsSafe(source);
    assert host.registry in host.files ==> Sequence(source, target, removeSource, host, ext, num, den).host.registry
                                           in Sequence(source, target, removeSource, host, ext, num, den).host.files by {
      if host.registry in host.files {
        RegistryStaysValid(source, target, removeSource, host, ext, num, den);
      }
    }
    assert source in host.files ==>
      (source !in Sequence(source, target, removeSource, host, ext, num, den).host.files <==>
        Moved(ext) && Confirmed(target, ext) && removeSource) by {
      if source in host.files {
        RemovedOnlyAfterConfirmation(source, target, removeSource, host, ext, num, den);
      }
    }
    Sequence(source, target, removeSource, host, ext, num, den)
  }

  /** Only a recording renamed by transcoding may be removed: then the
      output is another file. */
  lemma RemovalIsSafe(source: string)
    ensures TranscodedName(source) != Basename(source) ==> TranscodedPath(source) != source
  {
  }

  /** All external steps up to the notification succeeded. */
  predicate Moved(ext: ExternalResults) {
    ext.probe.ProbeBitRate? && ext.ffmpegExit == 0 && ext.moveSucceeds
  }

  /** A failure before the move raises and leaves the host as it was; in
      particular the recording is never touched. A failing ffprobe or ffmpeg
      raises TranscodeError, an unreadable bit rate the parse error, a failed
      move OSError. */
  lemma FailureBeforeMoveLeavesHost(source: string, target: string, removeSource: bool, host: Host,
                                    ext: ExternalResults, num: nat, den: nat)
    requires den > 0 && !Moved(ext)
    ensures Sequence(source, target, removeSource, host, ext, num, den).host == host
    ensures Sequence(source, target, removeSource, host, ext, num, den).status.Raised?
    ensures ext.probe == ProbeFailed
      ==> Sequence(source, target, removeSource, host, ext, num, den).status == Raised(TranscodeError)
    ensures ext.probe == ProbeUnparsable
      ==> Sequence(source, target, removeSource, host, ext, num, den).status == Raised(ProbeOutputError)
    ensures ext.probe.ProbeBitRate? && ext.ffmpegExit != 0
      ==> Sequence(source, target, removeSource, host, ext, num, den).status == Raised(TranscodeError)
    ensures ext.probe.ProbeBitRate? && ext.ffmpegExit == 0 && !ext.moveSucceeds
      ==> Sequence(source, target, removeSource, host, ext, num, den).status == Raised(OSError)
  {
  }

  /** The recording is removed exactly when encoding and move succeeded, the
      server confirmed the new location and removal is allowed; otherwise it
      stays where it was. */
  lemma RemovedOnlyAfterConfirmation(source: string, target: string, removeSource: bool, host: Host,
                                     ext: ExternalResults, num: nat, den: nat)
    requires den > 0 && source in host.files
    ensures var o := Sequence(source, target, removeSource, host, ext, num, den);
      source !in o.host.files <==> Moved(ext) && Confirmed(target, ext) && removeSource
  {
  }

  /** A request that raises ends the run after the move: the transcoded
      file is in place, but the server's record still names the recording,
      which is kept. */
  lemma FailedRequestKeepsRecording(source: string, target: string, removeSource: bool, host: Host,
                                    ext: ExternalResults, num: nat, den: nat)
    requires den > 0 && Moved(ext) && Posted(target, ext) && ext.post == PostRaised
    ensures var o := Sequence(source, target, removeSource, host, ext, num, den);
      && o.status == Raised(RequestError)
      && o.host == Host(host.files[target := TranscodedFile], host.registry)
  {
  }

  /** The server's record changes only on confirmation, and then to the
      target. */
  lemma RegistryFollowsConfirmation(source: string, target: string, removeSource: bool, host: Host,
                                    ext: ExternalResults, num: nat, den: nat)
    requires den > 0
    ensures Sequence(source, target, removeSource, host, ext, num, den).host.registry
         == if Moved(ext) && Confirmed(target, ext) then target else host.registry
  {
  }

  /** The server's record never points at a missing file: if it named an
      existing file before, it names one after, whatever the external steps
      did, as long as the recording is removed only when it is not the
      target. */
  lemma RegistryStaysValid(source: string, target: string, removeSource: bool, host: Host,
                           ext: ExternalResults, num: nat, den: nat)
    requires den > 0 && host.registry in host.files && (removeSource ==> source != target)
    ensures var o := Sequence(source, target, removeSource, host, ext, num, den);
      o.host.registry in o.host.files
  {
  }

  /** After a successful run the transcoded file is at the target. */
  lemma SuccessLeavesTranscodedFile(source: string, target: string, removeSource: bool, host: Host,
                                    ext: ExternalResults, num: nat, den: nat)
    requires den > 0 && (removeSource ==> source != target)
    requires Sequence(source, target, removeSource, host, ext, num, den).status.Ok?
    ensures var o := Sequence(source, target, removeSource, host, ext, num, den);
      target in o.host.files && o.host.files[target] == TranscodedFile
  {
  }

  /** As written, a recording whose transcoded path is its own path (an
      .mp4 recording) is overwritten by the encoder's output and then
      removed once the server confirms: no file is left at the path the
      server now records, and the run still ends normally. */
  lemma AsWrittenLosesOwnTarget(source: string, host: Host, ext: ExternalResults, num: nat, den: nat)
    requires den > 0 && TranscodedPath(source) == source
    requires Moved(ext) && Confirmed(source, ext)
    ensures var o := TranscodeAsWritten(source, host, ext, num, den);
      o.status == Ok && o.host.registry == source && source !in o.host.files
  {
  }

  /** The corrected sequence keeps the transcoded file in that case. */
  lemma CorrectedKeepsOwnTarget(source: string, host: Host, ext: ExternalResults, num: nat, den: nat)
    requires den > 0 && TranscodedPath(source) == source
    requires Moved(ext) && Confirmed(source, ext)
    ensures var o := Transcode(source, host, ext, num, den);
      o.status == Ok && o.host.registry == source && source in o.host.files && o.host.files[source] == TranscodedFile
  {
    assert TranscodedName(source) == Basename(source);
  }

  /** "/rec/show.mp4" is such a recording. */
  lemma Mp4RecordingIsOwnTarget()
    ensures TranscodedPath("/rec/show.mp4") == "/rec/show.mp4"
  {
    RecordingPathParts();
    ShowName();
    JoinRecShow();
  }

  lemma ShowName()
    ensures TranscodedName("/rec/show.mp4") == "show.mp4"
  {
    RecordingPathParts();
    ShowMp4Splits();
    assert "show" + ".mp4" == "show.mp4";
  }

  lemma JoinRecShow()
    ensures Join("/rec", "show.mp4") == "/rec/show.mp4"
  {
    assert "show.mp4"[0] != '/' && "/rec"[3] != '/';
    assert "/rec" + "/" + "show.mp4" == "/rec/show.mp4";
  }

  lemma RecordingPathParts()
    ensures Basename("/rec/show.mp4") == "show.mp4"
    ensures Dirname("/rec/show.mp4") == "/rec"
  {
    var source := "/rec/show.mp4";
    RFindAt(source, '/', 4);
    var head := "/rec/";
    assert source[..5] == head;
    assert !AllSlashes(head) by {
      assert head[1] != '/';
    }
    RStripOne();
  }

  lemma RStripOne()
    ensures RStripSlashes("/rec/") == "/rec"
  {
  }

  lemma ShowMp4Splits()
    ensures Splitext("show.mp4") == ("show", ".mp4")
  {
    var base := "show.mp4";
    RFindAt(base, '/', -1);
    RFindAt(base, '.', 4);
    assert base[0..4][0] != '.';
    assert base[..4] == "show" && base[4..] == ".mp4";
  }

  // ---------------------------------------------------------------------------
  // The recording object

  class DvrRecording {
    var filename: string
    var ffmetadata: string
    var metadataFile: string
    var transcodedPath: string

    /** Construction ends by writing the header. */
    constructor (filename: string, title: Value, subtitle: Value, description: Value, date: string, network: string)
      ensures this.filename == filename
      ensures ffmetadata == MetadataHeader(title, subtitle, description, date, network)
      ensures metadataFile == "" && transcodedPath == ""
    {
      this.filename := filename;
      metadataFile := "";
      transcodedPath := "";
      ffmetadata := MetadataHeader(title, subtitle, description, date, network);
    }

    /** Runs the detector on the recording and appends a newline and its
        chapter records to the metadata. */
    method DetectCommercials(configfile: string, tempDir: string, comskipExit: int,
                             written: map<string, seq<string>>) returns (status: Status)
      modifies this`ffmetadata
      ensures var path := ReportPath(tempDir, filename);
        status == (if comskipExit != 0 then Raised(TranscodeError)
                   else if path !in written then Raised(OSError) else Ok)
      ensures ffmetadata == if status.Ok?
        then old(ffmetadata) + "\n" + ChapterMetadata(written[ReportPath(tempDir, filename)])
        else old(ffmetadata)
    {
      var com := new CommercialDetector(configfile);
      status := com.DetectCommercials(filename, tempDir, comskipExit, written);
      if status.Raised? {
        return;
      }
      ghost var report := written[ReportPath(tempDir, filename)];
      assert com.rawDetectionResult == report;
      com.GenerateMetadata();
      assert com.ffmetadata == ChapterMetadata(report) by {
        assert "" + ChapterMetadata(report) == ChapterMetadata(report);
      }
      ffmetadata := ffmetadata + "\n" + com.ffmetadata;
    }

    /** `update_file_location`: asks whether the target's directory exists,
        then notifies the server; True only on a 200 answer, and the
        request's own exception when it raises. */
    method UpdateFileLocation(host: Host, dirExists: bool, post: PostResult) returns (moved: Result<bool>, host': Host)
      ensures Dirname(transcodedPath) == "" || !dirExists ==> moved == Success(false)
      ensures Dirname(transcodedPath) != "" && dirExists ==>
        moved == if post == PostRaised then Failure(RequestError) else Success(post == PostAnswered(200))
      ensures host' == if moved == Success(true) then host.(registry := transcodedPath) else host
    {
      host' := host;
      var dir := Dirname(transcodedPath);
      if dir == "" || !dirExists {
        return Success(false), host';
      }
      if post == PostRaised {
        return Failure(RequestError), host';
      }
      if post.statusCode != 200 {
        return Success(false), host';
      }
      host' := host.(registry := transcodedPath);
      moved := Success(true);
    }

    /** `start_transcoding` with factor num/den: sets the paths, probes,
        encodes, moves, notifies, and removes the recording when the server
        confirmed and the new file has another name. */
    method StartTranscoding(host: Host, ext: ExternalResults, tempDir: string, num: nat, den: nat)
      returns (status: Status, host': Host, bitrate: Option<int>)
      requires den > 0
      modifies this`metadataFile, this`transcodedPath
      ensures metadataFile == Join(tempDir, "metadata.txt")
      ensures transcodedPath == TranscodedPath(filename)
      ensures Outcome(status, host', bitrate) == Transcode(filename, host, ext, num, den)
    {
      host' := host;
      bitrate := None;
      metadataFile := Join(tempDir, "metadata.txt");
      var transcodedFile := DerivedName(filename, ".mp4");
      transcodedPath := Join(Dirname(filename), transcodedFile);

      var target := ProbeTarget(ext.probe, num, den);
      if target.Failure? {
        return Raised(target.error), host', bitrate;
      }
      bitrate := Some(target.value);
      if ext.ffmpegExit != 0 {
        return Raised(TranscodeError), host', bitrate;
      }
      if !ext.moveSucceeds {
        return Raised(OSError), host', bitrate;
      }
      status, host' := MoveAndNotify(host', ext);
    }

    /** The move into place, `update_file_location`, and the removal of the
        recording when the server confirmed and the new file has another
        name. */
    method MoveAndNotify(host: Host, ext: ExternalResults) returns (status: Status, host': Host)
      requires transcodedPath == TranscodedPath(filename)
      ensures (status, host') == AfterMove(filename, transcodedPath, TranscodedName(filename) != Basename(filename), host, ext)
    {
      var transcodedFile := TranscodedName(filename);
      var files := host.files[transcodedPath := TranscodedFile];
      var moved;
      moved, host' := UpdateFileLocation(Host(files, host.registry), ext.dirExists, ext.post);
      if moved.Failure? {
        assert Posted(transcodedPath, ext) && ext.post == PostRaised;
        return Raised(moved.error), host';
      }
      status := Ok;
      if !moved.value {
        assert !Confirmed(transcodedPath, ext);
        return;
      }
      assert Confirmed(transcodedPath, ext);
      if transcodedFile != Basename(filename) {
        if filename in host'.files {
          host' := host'.(files := host'.files - {filename});
        } else {
          status := Raised(OSError);
        }
      }
    }
  }
}
