/** The script's entry point (`main`, transcode_recordings.py:309-342): the
    argument and status guards, then commercial detection and transcoding
    of the finished recording, with the exceptions of those two steps
    reported and swallowed. */
module Cli {
  import opened Strings
  import opened PosixPath
  import opened Bitrate
  import opened Failures
  import opened Params
  import opened Comskip
  import opened Dvr

  /** What the script is asked to do: the recording's UUID, the status the
      server reported for it, and comskip's configuration file ("" for
      none). */
  datatype Invocation = Invocation(recordUuid: string, status: string, configfile: string)

  /** The configuration file argument, "" when it is not given. */
  function ConfigArg(argv: seq<string>): string
    requires |argv| >= 3
  {
    if |argv| == 4 then argv[3] else ""
  }

  /** The argument check as written: exactly four entries (script, UUID,
      status, configuration file), so the `else` branch that defaults the
      configuration file is never taken. */
  function ParseArgsAsWritten(argv: seq<string>): (r: Option<Invocation>)
    ensures r.Some? <==> |argv| == 4
  {
    if |argv| != 4 then None
    else Some(Invocation(argv[1], argv[2], ConfigArg(argv)))
  }

  /** The argument check the usage text describes: the UUID and the status,
      optionally followed by the configuration file. */
  function ParseArgs(argv: seq<string>): (r: Option<Invocation>)
    ensures r.Some? <==> |argv| == 3 || |argv| == 4
  {
    if |argv| != 3 && |argv| != 4 then None
    else Some(Invocation(argv[1], argv[2], ConfigArg(argv)))
  }

  /** The documented server invocation `%U %e` passes two arguments; the
      check as written refuses it and nothing is post-processed. */
  lemma DocumentedInvocationRefused(script: string, uuid: string, status: string)
    ensures ParseArgsAsWritten([script, uuid, status]).None?
    ensures ParseArgs([script, uuid, status]) == Some(Invocation(uuid, status, ""))
  {
  }

  /** The corrected check reads the UUID and the status at positions 1 and
      2 and the configuration file, when present, at position 3, and agrees
      with the check as written wherever that one accepts. */
  lemma ParseArgsFields(argv: seq<string>)
    requires |argv| == 3 || |argv| == 4
    ensures ParseArgs(argv).value.recordUuid == argv[1] && ParseArgs(argv).value.status == argv[2]
    ensures ParseArgs(argv).value.configfile == if |argv| == 4 then argv[3] else ""
    ensures ParseArgsAsWritten(argv).Some? ==> ParseArgsAsWritten(argv) == ParseArgs(argv)
  {
  }

  /** The fields of the DVR entry and of its channel that the script reads:
      the recording's path, the display title, subtitle and description, the
      start date as `strftime("%Y-%m-%d")` formats it, and the channel's
      `name` parameter. */
  datatype DvrEntry = DvrEntry(filename: string, title: Value, subtitle: Value, description: Value,
                               date: string, channelName: Value)

  /** How a run of the script ends. */
  datatype RunEnd =
    | UsageMessage           // wrong number of arguments: the usage text is printed
    | NotRecorded            // the recording's status is not "OK": nothing is done
    | Crashed                // an exception outside the `try` ends the script
    | Finished(status: Status)  // Raised(e): e is printed and swallowed

  /** Everything before the `try` succeeds: the arguments are accepted, the
      recording is "OK", the server answered for the entry and its channel,
      and the channel's name renders as text. */
  predicate Proceeds(argv: seq<string>, entry: Option<DvrEntry>) {
    && ParseArgs(argv).Some? && ParseArgs(argv).value.status == "OK"
    && entry.Some? && ReprOf(entry.value.channelName).Text?
  }

  /** The metadata header of an entry whose channel name renders as text. */
  function EntryHeader(e: DvrEntry): string
    requires ReprOf(e.channelName).Text?
  {
    MetadataHeader(e.title, e.subtitle, e.description, e.date, ReprOf(e.channelName).s)
  }

  /** `main` with the corrected argument check and the corrected transcoding
      sequence. `entry` is the server's answer for the UUID (None when a
      lookup fails, which leaves the attributes unset and raises
      AttributeError); `comskipDir`, `comskipExit` and `written` stand for
      comskip's temporary directory, its exit status and the reports on
      disk; `workDir` is the transcoding's temporary directory. `metadata`
      is the record's metadata at the end ("" when no record was made). */
  method PostProcess(argv: seq<string>, entry: Option<DvrEntry>, comskipDir: string, comskipExit: int,
                     written: map<string, seq<string>>, workDir: string, ext: ExternalResults, host: Host)
    returns (end: RunEnd, host': Host, metadata: string)
    ensures ParseArgs(argv).None? ==> end == UsageMessage
    ensures ParseArgs(argv).Some? && ParseArgs(argv).value.status != "OK" ==> end == NotRecorded
    ensures end.Finished? <==> Proceeds(argv, entry)
    ensures !end.Finished? ==> host' == host && metadata == ""
    ensures end.Finished? ==>
      var e := entry.value;
      var report := ReportPath(comskipDir, e.filename);
      if comskipExit != 0 then end.status == Raised(TranscodeError) && host' == host && metadata == EntryHeader(e)
      else if report !in written then end.status == Raised(OSError) && host' == host && metadata == EntryHeader(e)
      else
        var o := Transcode(e.filename, host, ext, DefaultFactorNum, DefaultFactorDen);
        end.status == o.status && host' == o.host
        && metadata == EntryHeader(e) + "\n" + ChapterMetadata(written[report])
    ensures entry.Some? && entry.value.filename in host.files && entry.value.filename !in host'.files ==>
      Moved(ext) && Confirmed(TranscodedPath(entry.value.filename), ext)
    ensures host.registry in host.files ==> host'.registry in host'.files
  {
    host' := host;
    metadata := "";
    var args := ParseArgs(argv);
    if args.None? {
      return UsageMessage, host', metadata;
    }
    if args.value.status != "OK" {
      return NotRecorded, host', metadata;
    }
    if entry.None? {
      return Crashed, host', metadata;
    }
    var e := entry.value;
    var network := ReprOf(e.channelName);
    if network.ReprTypeError? {
      return Crashed, host', metadata;
    }
    var status;
    status, host', metadata := ProcessRecording(e, network.s, args.value.configfile, comskipDir, comskipExit,
                                                written, workDir, ext, host);
    var source := e.filename;
    if comskipExit == 0 && ReportPath(comskipDir, source) in written {
      var target := TranscodedPath(source);
      var removeSource := TranscodedName(source) != Basename(source);
      RemovalIsSafe(source);
      if source in host.files {
        RemovedOnlyAfterConfirmation(source, target, removeSource, host, ext, DefaultFactorNum, DefaultFactorDen);
      }
      if host.registry in host.files {
        RegistryStaysValid(source, target, removeSource, host, ext, DefaultFactorNum, DefaultFactorDen);
      }
    }
    end := Finished(status);
  }

  /** The body of the `try`: build the record (its header), detect
      commercials and append their chapters, then transcode. */
  method ProcessRecording(e: DvrEntry, network: string, configfile: string, comskipDir: string, comskipExit: int,
                          written: map<string, seq<string>>, workDir: string, ext: ExternalResults, host: Host)
    returns (status: Status, host': Host, metadata: string)
    ensures var header := MetadataHeader(e.title, e.subtitle, e.description, e.date, network);
      var report := ReportPath(comskipDir, e.filename);
      if comskipExit != 0 then status == Raised(TranscodeError) && host' == host && metadata == header
      else if report !in written then status == Raised(OSError) && host' == host && metadata == header
      else
        var o := Transcode(e.filename, host, ext, DefaultFactorNum, DefaultFactorDen);
        status == o.status && host' == o.host && metadata == header + "\n" + ChapterMetadata(written[report])
  {
    host' := host;
    var record;
    record, status := DetectRecord(e, network, configfile, comskipDir, comskipExit, written);
    metadata := record.ffmetadata;
    if status.Ok? {
      status, host' := TranscodeRecord(record, host, ext, workDir);
    }
  }

  /** The record's construction and `record.detect_commercials()`. */
  method DetectRecord(e: DvrEntry, network: string, configfile: string, comskipDir: string, comskipExit: int,
                      written: map<string, seq<string>>)
    returns (record: DvrRecording, status: Status)
    ensures fresh(record) && record.filename == e.filename
    ensures var report := ReportPath(comskipDir, e.filename);
      status == (if comskipExit != 0 then Raised(TranscodeError) else if report !in written then Raised(OSError) else Ok)
    ensures var header := MetadataHeader(e.title, e.subtitle, e.description, e.date, network);
      record.ffmetadata
      == if status.Ok? then header + "\n" + ChapterMetadata(written[ReportPath(comskipDir, e.filename)]) else header
  {
    record := new DvrRecording(e.filename, e.title, e.subtitle, e.description, e.date, network);
    status := record.DetectCommercials(configfile, comskipDir, comskipExit, written);
  }

  /** `record.start_transcoding()` with the default factor. */
  method TranscodeRecord(record: DvrRecording, host: Host, ext: ExternalResults, workDir: string)
    returns (status: Status, host': Host)
    modifies record`metadataFile, record`transcodedPath
    ensures record.metadataFile == Join(workDir, "metadata.txt")
    ensures record.transcodedPath == TranscodedPath(record.filename)
    ensures var o := Transcode(record.filename, host, ext, DefaultFactorNum, DefaultFactorDen);
      status == o.status && host' == o.host
  {
    var bitrate;
    status, host', bitrate := record.StartTranscoding(host, ext, workDir, DefaultFactorNum, DefaultFactorDen);
  }
}
