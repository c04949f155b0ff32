/** Commercial detection with comskip and the chapter metadata derived from its
    report (class CommercialDetector, transcode_recordings.py:40-128). */
module Comskip {
  import opened Strings
  import opened Segments
  import opened Chapters
  import opened PosixPath
  import opened Failures

  // ---------------------------------------------------------------------------
  // The report's two line formats, as the script's regular expressions read them

  const HeaderStart: string := "FILE PROCESSING COMPLETE"
  const FramesAt: string := " FRAMES AT"

  /** `\s+(\d+)` at the start of `s`: the digits after a non-empty run of
      whitespace, and what follows them. Both runs are greedy, and neither can
      give characters back to let a match go on, so one scan decides. */
  function SpacedNumeral(s: string): (r: Option<(string, string)>)
    ensures r.Some? ==> IsNumeral(r.value.0)
  {
    var w := SpaceRun(s);
    if w == 0 then None
    else
      var t := s[w..];
      var d := DigitRun(t);
      if d == 0 then None else Some((t[..d], t[d..]))
  }

  /** `re.match(r"FILE PROCESSING COMPLETE\s+(\d+) FRAMES AT\s+(\d+)", line)`:
      the two groups (frame count, frame rate) when the line starts that way. */
  function MatchHeader(line: string): (r: Option<(string, string)>)
    ensures r.Some? ==> IsNumeral(r.value.0) && IsNumeral(r.value.1)
  {
    if !HasPrefix(line, HeaderStart) then None
    else
      match SpacedNumeral(line[|HeaderStart|..])
      case None => None
      case Some((frames, afterFrames)) =>
        if !HasPrefix(afterFrames, FramesAt) then None
        else
          match SpacedNumeral(afterFrames[|FramesAt|..])
          case None => None
          case Some((rate, _)) => Some((frames, rate))
  }

  /** `re.match(r"(\d+)\s+(\d+)", line)`: the two groups when the line starts
      with two numbers separated by whitespace. */
  function MatchPair(line: string): (r: Option<(string, string)>)
    ensures r.Some? ==> IsNumeral(r.value.0) && IsNumeral(r.value.1)
  {
    var d := DigitRun(line);
    if d == 0 then None
    else
      match SpacedNumeral(line[d..])
      case None => None
      case Some((end, _)) => Some((line[..d], end))
  }

  predicate AllSpaces(s: string) {
    forall i :: 0 <= i < |s| ==> IsSpace(s[i])
  }

  /** What may follow a maximal run of digits. */
  predicate NotDigitStart(s: string) {
    s == [] || !IsDigit(s[0])
  }

  lemma {:induction false} DigitRunOf(d: string, rest: string)
    requires AllDigits(d) && NotDigitStart(rest)
    ensures DigitRun(d + rest) == |d|
  {
    if d == [] {
      assert d + rest == rest;
    } else {
      assert (d + rest)[0] == d[0];
      assert (d + rest)[1..] == d[1..] + rest;
      DigitRunOf(d[1..], rest);
    }
  }

  lemma SpaceRunOf(w: string, rest: string)
    requires AllSpaces(w) && rest != [] && IsDigit(rest[0])
    ensures SpaceRun(w + rest) == |w|
  {
    var s := w + rest;
    assert forall i :: 0 <= i < |w| ==> s[i] == w[i];
    assert s[|w|] == rest[0];
  }

  lemma SpacedNumeralOf(w: string, d: string, rest: string)
    requires |w| > 0 && AllSpaces(w) && IsNumeral(d) && NotDigitStart(rest)
    ensures SpacedNumeral(w + (d + rest)) == Some((d, rest))
  {
    SpaceRunOf(w, d + rest);
    assert (w + (d + rest))[|w|..] == d + rest;
    DigitRunOf(d, rest);
    assert (d + rest)[..|d|] == d && (d + rest)[|d|..] == rest;
  }

  /** Every line made of the header words, a run of whitespace, the frame
      count, " FRAMES AT", whitespace and the frame rate is matched with those
      two numbers as its groups. */
  lemma MatchHeaderComplete(w1: string, frames: string, w2: string, rate: string, rest: string)
    requires |w1| > 0 && AllSpaces(w1) && IsNumeral(frames)
    requires |w2| > 0 && AllSpaces(w2) && IsNumeral(rate) && NotDigitStart(rest)
    ensures MatchHeader(HeaderStart + (w1 + (frames + (FramesAt + (w2 + (rate + rest))))))
         == Some((frames, rate))
  {
    var tail := FramesAt + (w2 + (rate + rest));
    var line := HeaderStart + (w1 + (frames + tail));
    assert line[..|HeaderStart|] == HeaderStart;
    assert line[|HeaderStart|..] == w1 + (frames + tail);
    assert tail[0] == ' ';
    SpacedNumeralOf(w1, frames, tail);
    assert tail[..|FramesAt|] == FramesAt;
    assert tail[|FramesAt|..] == w2 + (rate + rest);
    SpacedNumeralOf(w2, rate, rest);
  }

  /** Every line that starts with a number, whitespace and a number is matched
      with those two numbers as its groups. */
  lemma MatchPairComplete(start: string, w: string, end: string, rest: string)
    requires IsNumeral(start) && |w| > 0 && AllSpaces(w) && IsNumeral(end) && NotDigitStart(rest)
    ensures MatchPair(start + (w + (end + rest))) == Some((start, end))
  {
    var after := w + (end + rest);
    var line := start + after;
    assert after[0] == w[0];
    DigitRunOf(start, after);
    assert line[..|start|] == start && line[|start|..] == after;
    SpacedNumeralOf(w, end, rest);
  }

  /** Conversely, a match of `\s+(\d+)` is a non-empty run of whitespace, the
      group's digits, and a rest that does not go on with a digit. */
  lemma SpacedNumeralForm(s: string)
    requires SpacedNumeral(s).Some?
    ensures var (d, rest) := SpacedNumeral(s).value;
      NotDigitStart(rest) && exists w :: |w| > 0 && AllSpaces(w) && s == w + (d + rest)
  {
    var (d, rest) := SpacedNumeral(s).value;
    var k := SpaceRun(s);
    var w := s[..k];
    var t := s[k..];
    assert d + rest == t;
    assert AllSpaces(w);
    assert s == w + (d + rest);
  }

  /** The steps by which a header match is made. */
  lemma MatchHeaderSteps(line: string)
    requires MatchHeader(line).Some?
    ensures HasPrefix(line, HeaderStart)
    ensures var m := SpacedNumeral(line[|HeaderStart|..]);
      && m.Some? && HasPrefix(m.value.1, FramesAt)
      && SpacedNumeral(m.value.1[|FramesAt|..]).Some?
      && MatchHeader(line).value == (m.value.0, SpacedNumeral(m.value.1[|FramesAt|..]).value.0)
  {
  }

  /** A string split after a prefix is that prefix and the rest. */
  lemma PrefixSplit(s: string, prefix: string)
    requires HasPrefix(s, prefix)
    ensures s == prefix + s[|prefix|..]
  {
    assert s == s[..|prefix|] + s[|prefix|..];
  }

  /** Conversely, a header match is the header words, whitespace, the frame
      count, " FRAMES AT", whitespace and the frame rate, in that order. */
  lemma MatchHeaderForm(line: string)
    requires MatchHeader(line).Some?
    ensures var (frames, rate) := MatchHeader(line).value;
      exists w1, w2, rest ::
        && |w1| > 0 && AllSpaces(w1) && |w2| > 0 && AllSpaces(w2) && NotDigitStart(rest)
        && line == HeaderStart + (w1 + (frames + (FramesAt + (w2 + (rate + rest)))))
  {
    MatchHeaderSteps(line);
    var afterHeader := line[|HeaderStart|..];
    var (frames, afterFrames) := SpacedNumeral(afterHeader).value;
    var afterWords := afterFrames[|FramesAt|..];
    var (rate, rest) := SpacedNumeral(afterWords).value;
    SpacedNumeralForm(afterHeader);
    SpacedNumeralForm(afterWords);
    var w1 :| |w1| > 0 && AllSpaces(w1) && afterHeader == w1 + (frames + afterFrames);
    var w2 :| |w2| > 0 && AllSpaces(w2) && afterWords == w2 + (rate + rest);
    PrefixSplit(afterFrames, FramesAt);
    PrefixSplit(line, HeaderStart);
  }

  /** Conversely, a pair match is the first group's digits, whitespace, the
      second group's digits, and a rest that does not go on with a digit. */
  lemma MatchPairForm(line: string)
    requires MatchPair(line).Some?
    ensures var (start, end) := MatchPair(line).value;
      exists w, rest :: |w| > 0 && AllSpaces(w) && NotDigitStart(rest) && line == start + (w + (end + rest))
  {
    var (start, end) := MatchPair(line).value;
    var k := DigitRun(line);
    SpacedNumeralForm(line[k..]);
    var rest := SpacedNumeral(line[k..]).value.1;
    var w :| |w| > 0 && AllSpaces(w) && line[k..] == w + (end + rest);
    assert line == line[..k] + line[k..];
  }

  // ---------------------------------------------------------------------------
  // Analysis of a whole report

  /** A line the script keeps as a commercial: two numbers whose difference,
      end minus start, is over 10 frames. The bounds keep the detector's own
      digits. */
  function KeepPair(line: string): (r: Option<Segment>)
    ensures r.Some? ==> WellFormed(r.value) && r.value.end.frame - r.value.start.frame > 10
  {
    match MatchPair(line)
    case None => None
    case Some((s, e)) =>
      if NumeralValue(e) - NumeralValue(s) > 10
      then Some(Segment(Bound(NumeralValue(s), s), Bound(NumeralValue(e), e)))
      else None
  }

  /** A line of pair form is kept exactly when its end is more than 10
      frames after its start, with its own digits as the bounds. */
  lemma KeepPairIff(start: string, w: string, end: string, rest: string)
    requires IsNumeral(start) && |w| > 0 && AllSpaces(w) && IsNumeral(end) && NotDigitStart(rest)
    ensures KeepPair(start + (w + (end + rest)))
         == if NumeralValue(end) - NumeralValue(start) > 10
            then Some(Segment(Bound(NumeralValue(start), start), Bound(NumeralValue(end), end)))
            else None
  {
    MatchPairComplete(start, w, end, rest);
  }

  /** Every kept line is of pair form, and its commercial has the line's own
      digits as bounds. */
  lemma KeepPairForm(line: string)
    requires KeepPair(line).Some?
    ensures var (start, end) := MatchPair(line).value;
      && KeepPair(line) == Some(Segment(Bound(NumeralValue(start), start), Bound(NumeralValue(end), end)))
      && exists w, rest :: |w| > 0 && AllSpaces(w) && NotDigitStart(rest) && line == start + (w + (end + rest))
  {
    MatchPairForm(line);
  }

  /** The values present in `xs`, in order. */
  function Somes<T>(xs: seq<Option<T>>): seq<T> {
    if xs == [] then []
    else Somes(xs[..|xs| - 1]) + (if xs[|xs| - 1].Some? then [xs[|xs| - 1].value] else [])
  }

  /** The positions in `xs` that hold a value, in order. */
  function SomeIndices<T>(xs: seq<Option<T>>): (idx: seq<nat>)
    ensures forall k :: 0 <= k < |idx| ==> idx[k] < |xs|
  {
    if xs == [] then []
    else SomeIndices(xs[..|xs| - 1]) + (if xs[|xs| - 1].Some? then [|xs| - 1] else [])
  }

  lemma SomesSnoc<T>(xs: seq<Option<T>>, x: Option<T>)
    ensures Somes(xs + [x]) == Somes(xs) + (if x.Some? then [x.value] else [])
  {
    assert (xs + [x])[..|xs|] == xs;
  }

  /** One position per value, in increasing order. */
  lemma {:induction false} SomeIndicesIncrease<T>(xs: seq<Option<T>>)
    ensures var idx := SomeIndices(xs);
      && |idx| == |Somes(xs)|
      && forall a, b :: 0 <= a < b < |idx| ==> idx[a] < idx[b]
  {
    if xs != [] {
      SomeIndicesIncrease(xs[..|xs| - 1]);
    }
  }

  /** A position is listed exactly when it holds a value. */
  lemma {:induction false} SomeIndicesMembers<T>(xs: seq<Option<T>>, j: nat)
    requires j < |xs|
    ensures j in SomeIndices(xs) <==> xs[j].Some?
  {
    var n := |xs| - 1;
    var init := xs[..n];
    if j < n {
      SomeIndicesMembers(init, j);
      assert init[j] == xs[j];
    } else {
      assert n !in SomeIndices(init);
    }
  }

  /** The k-th value is the one at the k-th listed position. */
  lemma {:induction false} SomeIndicesValues<T>(xs: seq<Option<T>>, k: nat)
    requires k < |SomeIndices(xs)|
    ensures |Somes(xs)| == |SomeIndices(xs)|
    ensures xs[SomeIndices(xs)[k]] == Some(Somes(xs)[k])
  {
    SomeIndicesIncrease(xs);
    var n := |xs| - 1;
    var init := xs[..n];
    SomeIndicesIncrease(init);
    if k < |SomeIndices(init)| {
      SomeIndicesValues(init, k);
      assert init[SomeIndices(init)[k]] == xs[SomeIndices(init)[k]];
    }
  }

  /** What each line of the report says, as `KeepPair` reads it. */
  function Outcomes(lines: seq<string>): (r: seq<Option<Segment>>)
    ensures |r| == |lines| && forall j :: 0 <= j < |lines| ==> r[j] == KeepPair(lines[j])
  {
    seq(|lines|, j requires 0 <= j < |lines| => KeepPair(lines[j]))
  }

  /** `KeepPair` spelled out as the script's loop body tests it. */
  lemma KeepPairCases(line: string)
    ensures var m := MatchPair(line);
      KeepPair(line)
      == if m.Some? && NumeralValue(m.value.1) - NumeralValue(m.value.0) > 10
         then Some(Segment(Bound(NumeralValue(m.value.0), m.value.0), Bound(NumeralValue(m.value.1), m.value.1)))
         else None
  {
  }

  /** The commercials kept from `lines`, in line order. */
  function Kept(lines: seq<string>): seq<Segment> {
    Somes(Outcomes(lines))
  }

  /** The indices of the lines whose commercials are kept. */
  function KeptLines(lines: seq<string>): seq<nat> {
    SomeIndices(Outcomes(lines))
  }

  /** Reading one more line adds that line's commercial, if it has one. */
  lemma KeptSnoc(lines: seq<string>, line: string)
    ensures Kept(lines + [line]) == Kept(lines) + (if KeepPair(line).Some? then [KeepPair(line).value] else [])
  {
    assert Outcomes(lines + [line]) == Outcomes(lines) + [KeepPair(line)];
    SomesSnoc(Outcomes(lines), KeepPair(line));
  }

  /** The kept commercials are exactly the keepable lines, each once, in line
      order: their line indices increase, an index is among them exactly when
      its line is a pair more than 10 frames long, and the k-th commercial is
      what the k-th such line says (so it is well formed and over 10 frames). */
  lemma KeptIsOrderedFilter(lines: seq<string>)
    ensures var idx := KeptLines(lines);
      && |idx| == |Kept(lines)|
      && (forall a, b :: 0 <= a < b < |idx| ==> idx[a] < idx[b])
      && (forall j :: 0 <= j < |lines| ==> (j in idx <==> KeepPair(lines[j]).Some?))
      && (forall k :: 0 <= k < |idx| ==> idx[k] < |lines| && KeepPair(lines[idx[k]]) == Some(Kept(lines)[k]))
  {
    var xs := Outcomes(lines);
    SomeIndicesIncrease(xs);
    forall j | 0 <= j < |lines| ensures j in SomeIndices(xs) <==> KeepPair(lines[j]).Some? {
      SomeIndicesMembers(xs, j);
    }
    forall k | 0 <= k < |SomeIndices(xs)| ensures KeepPair(lines[SomeIndices(xs)[k]]) == Some(Somes(xs)[k]) {
      SomeIndicesValues(xs, k);
    }
  }

  /** Every kept commercial is well formed and longer than 10 frames. */
  lemma KeptWellFormed(lines: seq<string>)
    ensures AllWellFormed(Kept(lines))
    ensures forall k :: 0 <= k < |Kept(lines)| ==> Kept(lines)[k].end.frame - Kept(lines)[k].start.frame > 10
  {
    KeptIsOrderedFilter(lines);
  }

  /** What the script derives from a report that has a valid header. */
  datatype Analysis = Analysis(lastFrame: nat, frameRate: string, commercials: seq<Segment>, content: seq<Segment>)

  /** The analysis of a report: nothing when it has fewer than three lines or
      its first line is not the header; otherwise the commercials kept from
      line 2 on (line 1 is never read) and the content derived from them. */
  function Analyze(report: seq<string>): (r: Option<Analysis>)
    ensures r.Some? <==> |report| >= 3 && MatchHeader(report[0]).Some?
    ensures r.Some? ==>
      && IsNumeral(r.value.frameRate) && AllWellFormed(r.value.commercials) && AllWellFormed(r.value.content)
      && r.value.frameRate == MatchHeader(report[0]).value.1
      && r.value.lastFrame == NumeralValue(MatchHeader(report[0]).value.0)
  {
    if |report| < 3 then None
    else
      match MatchHeader(report[0])
      case None => None
      case Some((frames, rate)) =>
        var lastFrame := NumeralValue(frames);
        var commercials := Kept(report[2..]);
        KeptWellFormed(report[2..]);
        Some(Analysis(lastFrame, rate, commercials, Content(commercials, lastFrame)))
  }

  /** What `generate_metadata` appends: the content chapters, then the
      commercial chapters. It is empty exactly when the report is too short,
      its header does not match, or no pair in it is longer than 10 frames. */
  function ChapterMetadata(report: seq<string>): (r: string)
    ensures r == "" <==> (Analyze(report).None? || Analyze(report).value.commercials == [])
  {
    match Analyze(report)
    case None => ""
    case Some(a) => AnalysisText(a)
  }

  function AnalysisText(a: Analysis): string {
    ChapterText(a.frameRate, "content", a.content) + ChapterText(a.frameRate, "commercial", a.commercials)
  }

  lemma NumeralPlain(s: string)
    requires IsNumeral(s)
    ensures NoNewline(s)
  {
    assert forall i :: 0 <= i < |s| ==> IsDigit(s[i]);
  }

  lemma WellFormedPlain(segs: seq<Segment>, labelText: string, rate: string)
    requires AllWellFormed(segs) && IsNumeral(rate) && NoNewline(labelText)
    ensures PlainFields(rate, labelText, segs)
  {
    NumeralPlain(rate);
    forall i | 0 <= i < |segs| ensures NoNewline(segs[i].start.text) && NoNewline(segs[i].end.text) {
      NumeralPlain(segs[i].start.text);
      NumeralPlain(segs[i].end.text);
    }
  }

  lemma LabelsPlain()
    ensures NoNewline("content") && NoNewline("commercial")
  {
    assert forall i :: 0 <= i < |"content"| ==> "content"[i] != '\n';
    assert forall i :: 0 <= i < |"commercial"| ==> "commercial"[i] != '\n';
  }

  /** The metadata of a report whose header gives `frames` and `rate`. */
  lemma ChapterMetadataOfHeader(report: seq<string>, frames: string, rate: string)
    requires |report| >= 3 && MatchHeader(report[0]) == Some((frames, rate))
    ensures var coms := Kept(report[2..]);
      ChapterMetadata(report)
      == ChapterText(rate, "content", Content(coms, NumeralValue(frames))) + ChapterText(rate, "commercial", coms)
  {
  }

  /** The chapter text of a report with a valid header reads back as one
      "content i" record per content interval, then one "commercial i" record
      per kept commercial, all with time base 100/<frame rate>. */
  lemma ChapterMetadataRecords(report: seq<string>, a: Analysis)
    requires Analyze(report) == Some(a)
    ensures var r := DecodeChapters(SplitLines(ChapterMetadata(report)));
      && r.Some? && |r.value| == |a.content| + |a.commercials|
      && (forall i :: 0 <= i < |a.content| ==> r.value[i] == Expected(a.frameRate, "content", i + 1, a.content[i]))
      && (forall i :: 0 <= i < |a.commercials| ==>
            r.value[|a.content| + i] == Expected(a.frameRate, "commercial", i + 1, a.commercials[i]))
  {
    AnalysisRecords(a);
  }

  lemma AnalysisRecords(a: Analysis)
    requires IsNumeral(a.frameRate) && AllWellFormed(a.content) && AllWellFormed(a.commercials)
    ensures var r := DecodeChapters(SplitLines(AnalysisText(a)));
      && r.Some? && |r.value| == |a.content| + |a.commercials|
      && (forall i :: 0 <= i < |a.content| ==> r.value[i] == Expected(a.frameRate, "content", i + 1, a.content[i]))
      && (forall i :: 0 <= i < |a.commercials| ==>
            r.value[|a.content| + i] == Expected(a.frameRate, "commercial", i + 1, a.commercials[i]))
  {
    LabelsPlain();
    WellFormedPlain(a.content, "content", a.frameRate);
    WellFormedPlain(a.commercials, "commercial", a.frameRate);
    ChapterTextPairRoundTrip(a.frameRate, "content", a.content, "commercial", a.commercials, AnalysisText(a));
  }

  /** The name comskip gives its report: the video's base name with its
      extension replaced by ".txt", inside comskip's output directory. */
  function ReportPath(outputDir: string, videoFilename: string): (r: string)
    ensures Basename(r) == DerivedName(videoFilename, ".txt")
  {
    assert NoSlash(".txt") by {
      assert forall i :: 0 <= i < |".txt"| ==> ".txt"[i] != '/';
    }
    JoinDerived(outputDir, videoFilename, ".txt");
    Join(outputDir, DerivedName(videoFilename, ".txt"))
  }

  /** The walk's invariant after one more commercial: what has been found,
      extended by the gap before commercial `k` and, after the last one, the
      trailing gap, followed by the walk from its end, is still the whole. */
  lemma ContentWalkStep(coms: seq<Segment>, k: nat, cursor: nat, lastFrame: nat, found: seq<Segment>,
                        whole: seq<Segment>)
    requires k < |coms| && found + ContentFrom(coms[k..], cursor, lastFrame) == whole
    ensures var c := coms[k];
      var gap := if c.start.frame > cursor then [Segment(IntBound(cursor), c.start)] else [];
      var trailing := if k == |coms| - 1 && c.end.frame < lastFrame
        then [Segment(IntBound(c.end.frame), IntBound(lastFrame))] else [];
      found + gap + trailing + ContentFrom(coms[k + 1..], c.end.frame, lastFrame) == whole
  {
    var c := coms[k];
    var gap := if c.start.frame > cursor then [Segment(IntBound(cursor), c.start)] else [];
    var trailing := if k == |coms| - 1 && c.end.frame < lastFrame
      then [Segment(IntBound(c.end.frame), IntBound(lastFrame))] else [];
    var rest := ContentFrom(coms[k + 1..], c.end.frame, lastFrame);
    ContentStep(coms, k, cursor, lastFrame);
    ConcatAssoc(found, gap + trailing, rest);
    ConcatAssoc(found, gap, trailing);
  }

  /** The first loop of `generate_metadata`: every line from index 2 on that
      is a pair over 10 frames long becomes a commercial, in line order. */
  method KeptCommercials(raw: seq<string>) returns (commercials: seq<Segment>)
    requires |raw| >= 2
    ensures commercials == Kept(raw[2..])
  {
    commercials := [];
    var i := 2;
    while i < |raw|
      invariant 2 <= i <= |raw|
      invariant commercials == Kept(raw[2..i])
    {
      assert raw[2..i + 1] == raw[2..i] + [raw[i]];
      KeptSnoc(raw[2..i], raw[i]);
      KeepPairCases(raw[i]);
      var chapter := MatchPair(raw[i]);
      if chapter.Some? {
        var (start, end) := chapter.value;
        if NumeralValue(end) - NumeralValue(start) > 10 {
          commercials := commercials + [Segment(Bound(NumeralValue(start), start), Bound(NumeralValue(end), end))];
        }
      }
      i := i + 1;
    }
    assert raw[2..i] == raw[2..];
  }

  /** The second loop of `generate_metadata`: the content gaps, walking a
      cursor from frame 1 over the commercials. */
  method ContentIntervals(commercials: seq<Segment>, lastFrame: nat) returns (content: seq<Segment>)
    ensures content == Content(commercials, lastFrame)
  {
    content := [];
    var lastPos: nat := 1;
    var contIdx := 0;
    ghost var whole := Content(commercials, lastFrame);
    assert commercials[0..] == commercials;
    while contIdx < |commercials|
      invariant 0 <= contIdx <= |commercials|
      invariant content + ContentFrom(commercials[contIdx..], lastPos, lastFrame) == whole
    {
      var com := commercials[contIdx];
      ContentWalkStep(commercials, contIdx, lastPos, lastFrame, content, whole);
      ghost var found := content;
      ghost var gap := if com.start.frame > lastPos then [Segment(IntBound(lastPos), com.start)] else [];
      ghost var trailing := if contIdx == |commercials| - 1 && com.end.frame < lastFrame
        then [Segment(IntBound(com.end.frame), IntBound(lastFrame))] else [];
      if com.start.frame > lastPos {
        content := content + [Segment(IntBound(lastPos), com.start)];
      }
      assert content == found + gap;
      lastPos := com.end.frame;
      if contIdx == |commercials| - 1 && lastPos < lastFrame {
        content := content + [Segment(IntBound(lastPos), IntBound(lastFrame))];
      }
      assert content == found + gap + trailing;
      contIdx := contIdx + 1;
    }
  }

  // ---------------------------------------------------------------------------
  // The detector object

  class CommercialDetector {
    var config: string
    var rawDetectionResult: seq<string>
    var ffmetadata: string

    constructor (config: string)
      ensures this.config == config && rawDetectionResult == [] && ffmetadata == ""
    {
      this.config := config;
      rawDetectionResult := [];
      ffmetadata := "";
    }

    /** Runs comskip on the video into `tempDir` and reads its report. The exit
        status of comskip and the files it wrote (path to lines, each line
        with its newline) are given; a non-zero status raises TranscodeError,
        a report missing under its expected name raises OSError. */
    method DetectCommercials(videoFilename: string, tempDir: string, comskipExit: int,
                             written: map<string, seq<string>>) returns (status: Status)
      modifies this`rawDetectionResult
      ensures var path := ReportPath(tempDir, videoFilename);
        status == (if comskipExit != 0 then Raised(TranscodeError)
                   else if path !in written then Raised(OSError) else Ok)
      ensures rawDetectionResult == if status == Ok then written[ReportPath(tempDir, videoFilename)] else old(rawDetectionResult)
    {
      var commercialFile := DerivedName(videoFilename, ".txt");
      var commercialFilePath := Join(tempDir, commercialFile);
      if comskipExit != 0 {
        return Raised(TranscodeError);
      }
      if commercialFilePath !in written {
        return Raised(OSError);
      }
      rawDetectionResult := written[commercialFilePath];
      status := Ok;
    }

    /** Appends the chapter records of the report read by DetectCommercials. */
    method GenerateMetadata()
      modifies this`ffmetadata
      ensures ffmetadata == old(ffmetadata) + ChapterMetadata(rawDetectionResult)
    {
      var raw := rawDetectionResult;
      if |raw| < 3 {
        return;
      }
      var header := MatchHeader(raw[0]);
      if header.None? {
        return;
      }
      var lastFrame := NumeralValue(header.value.0);
      var frameRate := header.value.1;
      ChapterMetadataOfHeader(raw, header.value.0, frameRate);

      var commercials := KeptCommercials(raw);
      var content := ContentIntervals(commercials, lastFrame);

      ghost var before := ffmetadata;
      var contentChapters := ChapterAsString(frameRate, "content", content);
      ffmetadata := ffmetadata + contentChapters;
      var commercialChapters := ChapterAsString(frameRate, "commercial", commercials);
      ffmetadata := ffmetadata + commercialChapters;
      ConcatAssoc(before, contentChapters, commercialChapters);
    }

    /** One chapter record per segment, numbered from 1 in list order. */
    method ChapterAsString(frameRate: string, labelText: string, segments: seq<Segment>) returns (chapterList: string)
      ensures chapterList == ChapterText(frameRate, labelText, segments)
    {
      var idx := 0;
      chapterList := "";
      while idx < |segments|
        invariant 0 <= idx <= |segments|
        invariant chapterList == ChapterText(frameRate, labelText, segments[..idx])
      {
        var seg := segments[idx];
        ChaptersFromSnoc(frameRate, labelText, segments[..idx], 1, seg);
        assert segments[..idx + 1] == segments[..idx] + [seg];
        idx := idx + 1;
        chapterList := chapterList + ChapterBlock(frameRate, labelText, idx, seg);
      }
      assert segments[..idx] == segments;
    }
  }
}
