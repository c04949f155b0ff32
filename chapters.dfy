/** The FFmetadata chapter records the script writes for a list of segments
    (transcode_recordings.py:114-128), and a reader for them that shows what
    the text contains: one record per segment, in list order, numbered from 1. */
module Chapters {
  import opened Strings
  import opened Segments

  /** One `[CHAPTER]` record: five lines, each ended by a newline; the time
      base is 100/<frame rate>, the bounds are written as the segment holds
      them, the title is "<label> <index>". */
  function BlockLines(frameRate: string, labelText: string, index: nat, seg: Segment): seq<string> {
    ["[CHAPTER]",
     "TIMEBASE=100/" + frameRate,
     "START=" + seg.start.text,
     "END=" + seg.end.text,
     "title=" + labelText + " " + NatToString(index)]
  }

  function ChapterBlock(frameRate: string, labelText: string, index: nat, seg: Segment): string {
    Unlines(BlockLines(frameRate, labelText, index, seg))
  }

  /** The records of `segs`, numbered from `first`. */
  function ChaptersFrom(frameRate: string, labelText: string, segs: seq<Segment>, first: nat): string {
    if segs == [] then ""
    else ChapterBlock(frameRate, labelText, first, segs[0]) + ChaptersFrom(frameRate, labelText, segs[1..], first + 1)
  }

  /** The text `_chapter_as_string` returns: records numbered from 1. */
  function ChapterText(frameRate: string, labelText: string, segs: seq<Segment>): (r: string)
    ensures r == "" <==> segs == []
  {
    assert segs != [] ==> |ChaptersFrom(frameRate, labelText, segs, 1)| > 0 by {
      if segs != [] {
        assert ChaptersFrom(frameRate, labelText, segs, 1)
            == Unlines(BlockLines(frameRate, labelText, 1, segs[0])) + ChaptersFrom(frameRate, labelText, segs[1..], 2);
      }
    }
    ChaptersFrom(frameRate, labelText, segs, 1)
  }

  /** Adding a segment at the end adds its record, numbered next, at the end. */
  lemma {:induction false} ChaptersFromSnoc(frameRate: string, labelText: string, segs: seq<Segment>, first: nat, s: Segment)
    ensures ChaptersFrom(frameRate, labelText, segs + [s], first)
         == ChaptersFrom(frameRate, labelText, segs, first) + ChapterBlock(frameRate, labelText, first + |segs|, s)
  {
    if segs == [] {
      assert segs + [s] == [s];
      assert ([s])[1..] == [];
    } else {
      assert (segs + [s])[1..] == segs[1..] + [s];
      ChaptersFromSnoc(frameRate, labelText, segs[1..], first + 1, s);
    }
  }

  /** What a reader of the metadata file sees in one chapter record. */
  datatype ChapterRecord = ChapterRecord(timebase: string, start: string, end: string, title: string)

  /** Reads consecutive five-line chapter records; None when the lines are
      not such records. */
  function DecodeChapters(lines: seq<string>): Option<seq<ChapterRecord>>
    decreases |lines|
  {
    if lines == [] then Some([])
    else if |lines| < 5 || lines[0] != "[CHAPTER]" || !HasPrefix(lines[1], "TIMEBASE=")
            || !HasPrefix(lines[2], "START=") || !HasPrefix(lines[3], "END=")
            || !HasPrefix(lines[4], "title=") then None
    else
      match DecodeChapters(lines[5..])
      case None => None
      case Some(rest) =>
        Some([ChapterRecord(lines[1][9..], lines[2][6..], lines[3][4..], lines[4][6..])] + rest)
  }

  /** The record a reader should find for the segment numbered `index`. */
  function Expected(frameRate: string, labelText: string, index: nat, seg: Segment): ChapterRecord {
    ChapterRecord("100/" + frameRate, seg.start.text, seg.end.text, labelText + " " + NatToString(index))
  }

  function LinesFrom(frameRate: string, labelText: string, segs: seq<Segment>, first: nat): seq<string> {
    if segs == [] then [] else BlockLines(frameRate, labelText, first, segs[0]) + LinesFrom(frameRate, labelText, segs[1..], first + 1)
  }

  predicate PlainFields(frameRate: string, labelText: string, segs: seq<Segment>) {
    && NoNewline(frameRate) && NoNewline(labelText)
    && forall i :: 0 <= i < |segs| ==> NoNewline(segs[i].start.text) && NoNewline(segs[i].end.text)
  }

  lemma NoNewlineConcat(a: string, b: string)
    requires NoNewline(a) && NoNewline(b)
    ensures NoNewline(a + b)
  {
    assert forall i :: |a| <= i < |a + b| ==> (a + b)[i] == b[i - |a|];
  }

  lemma {:induction false} LinesFromProps(frameRate: string, labelText: string, segs: seq<Segment>, first: nat)
    requires PlainFields(frameRate, labelText, segs)
    ensures Unlines(LinesFrom(frameRate, labelText, segs, first)) == ChaptersFrom(frameRate, labelText, segs, first)
    ensures var ls := LinesFrom(frameRate, labelText, segs, first);
      forall i :: 0 <= i < |ls| ==> NoNewline(ls[i])
    ensures |LinesFrom(frameRate, labelText, segs, first)| == 5 * |segs|
  {
    if segs != [] {
      var block := BlockLines(frameRate, labelText, first, segs[0]);
      var rest := LinesFrom(frameRate, labelText, segs[1..], first + 1);
      LinesFromProps(frameRate, labelText, segs[1..], first + 1);
      UnlinesAppend(block, rest);
      NoNewlineConcat("TIMEBASE=100/", frameRate);
      NoNewlineConcat("START=", segs[0].start.text);
      NoNewlineConcat("END=", segs[0].end.text);
      NoNewlineConcat("title=", labelText);
      NoNewlineConcat("title=" + labelText, " ");
      NoNewlineConcat("title=" + labelText + " ", NatToString(first));
    }
  }

  lemma DecodeOneBlock(frameRate: string, labelText: string, index: nat, seg: Segment, tail: seq<string>)
    requires DecodeChapters(tail).Some?
    ensures DecodeChapters(BlockLines(frameRate, labelText, index, seg) + tail)
         == Some([Expected(frameRate, labelText, index, seg)] + DecodeChapters(tail).value)
  {
    var all := BlockLines(frameRate, labelText, index, seg) + tail;
    assert all[5..] == tail;
    assert all[1] == "TIMEBASE=" + ("100/" + frameRate);
    assert all[2] == "START=" + seg.start.text;
    assert all[3] == "END=" + seg.end.text;
    assert all[4] == "title=" + (labelText + " " + NatToString(index));
    assert all[1][9..] == "100/" + frameRate;
    assert all[4][6..] == labelText + " " + NatToString(index);
  }

  lemma {:induction false} DecodeLinesFrom(frameRate: string, labelText: string, segs: seq<Segment>, first: nat, tail: seq<string>)
    requires DecodeChapters(tail).Some?
    ensures var r := DecodeChapters(LinesFrom(frameRate, labelText, segs, first) + tail);
      && r.Some? && |r.value| == |segs| + |DecodeChapters(tail).value|
      && (forall i :: 0 <= i < |segs| ==> r.value[i] == Expected(frameRate, labelText, first + i, segs[i]))
      && r.value[|segs|..] == DecodeChapters(tail).value
  {
    if segs == [] {
      assert LinesFrom(frameRate, labelText, segs, first) + tail == tail;
    } else {
      var rest := LinesFrom(frameRate, labelText, segs[1..], first + 1);
      DecodeLinesFrom(frameRate, labelText, segs[1..], first + 1, tail);
      var r' := DecodeChapters(rest + tail).value;
      var r := [Expected(frameRate, labelText, first, segs[0])] + r';
      assert DecodeChapters(LinesFrom(frameRate, labelText, segs, first) + tail) == Some(r) by {
        DecodeOneBlock(frameRate, labelText, first, segs[0], rest + tail);
        ConcatAssoc(BlockLines(frameRate, labelText, first, segs[0]), rest, tail);
      }
      PrependRecord(frameRate, labelText, segs, first, r', DecodeChapters(tail).value);
    }
  }

  /** The records of `segs[1..]` numbered from `first + 1`, with the record of
      `segs[0]` numbered `first` put in front, are the records of `segs`. */
  lemma PrependRecord(frameRate: string, labelText: string, segs: seq<Segment>, first: nat,
                      later: seq<ChapterRecord>, tailRecords: seq<ChapterRecord>)
    requires |segs| > 0 && |later| == |segs| - 1 + |tailRecords|
    requires forall i :: 0 <= i < |segs| - 1 ==> later[i] == Expected(frameRate, labelText, first + 1 + i, segs[1..][i])
    requires later[|segs| - 1..] == tailRecords
    ensures var r := [Expected(frameRate, labelText, first, segs[0])] + later;
      && |r| == |segs| + |tailRecords|
      && (forall i :: 0 <= i < |segs| ==> r[i] == Expected(frameRate, labelText, first + i, segs[i]))
      && r[|segs|..] == tailRecords
  {
    var r := [Expected(frameRate, labelText, first, segs[0])] + later;
    forall i | 0 < i < |segs| ensures r[i] == Expected(frameRate, labelText, first + i, segs[i]) {
      assert r[i] == later[i - 1];
      assert segs[i] == segs[1..][i - 1];
    }
    assert r[|segs|..] == later[|segs| - 1..];
  }

  /** Reading the chapter text back finds exactly one record per segment, in
      list order, each with time base 100/<frame rate>, the segment's bounds,
      and the title "<label> <i>" for i = 1, 2, ... */
  lemma ChapterTextRoundTrip(frameRate: string, labelText: string, segs: seq<Segment>)
    requires PlainFields(frameRate, labelText, segs)
    ensures var r := DecodeChapters(SplitLines(ChapterText(frameRate, labelText, segs)));
      && r.Some? && |r.value| == |segs|
      && forall i :: 0 <= i < |segs| ==> r.value[i] == Expected(frameRate, labelText, i + 1, segs[i])
  {
    var ls := LinesFrom(frameRate, labelText, segs, 1);
    LinesFromProps(frameRate, labelText, segs, 1);
    SplitUnlines(ls);
    DecodeLinesFrom(frameRate, labelText, segs, 1, []);
    assert ls + [] == ls;
  }

  /** Two chapter lists written one after the other (`text`) read back as the
      records of the first list followed by those of the second, each
      numbered from 1. */
  lemma ChapterTextPairRoundTrip(frameRate: string, labelText1: string, segs1: seq<Segment>,
                                 labelText2: string, segs2: seq<Segment>, text: string)
    requires PlainFields(frameRate, labelText1, segs1) && PlainFields(frameRate, labelText2, segs2)
    requires text == ChapterText(frameRate, labelText1, segs1) + ChapterText(frameRate, labelText2, segs2)
    ensures var r := DecodeChapters(SplitLines(text));
      && r.Some? && |r.value| == |segs1| + |segs2|
      && (forall i :: 0 <= i < |segs1| ==> r.value[i] == Expected(frameRate, labelText1, i + 1, segs1[i]))
      && (forall i :: 0 <= i < |segs2| ==> r.value[|segs1| + i] == Expected(frameRate, labelText2, i + 1, segs2[i]))
  {
    PairLines(frameRate, labelText1, segs1, labelText2, segs2, text);
    PairDecode(frameRate, labelText1, segs1, labelText2, segs2);
  }

  lemma PairLines(frameRate: string, labelText1: string, segs1: seq<Segment>,
                  labelText2: string, segs2: seq<Segment>, text: string)
    requires PlainFields(frameRate, labelText1, segs1) && PlainFields(frameRate, labelText2, segs2)
    requires text == ChapterText(frameRate, labelText1, segs1) + ChapterText(frameRate, labelText2, segs2)
    ensures SplitLines(text) == LinesFrom(frameRate, labelText1, segs1, 1) + LinesFrom(frameRate, labelText2, segs2, 1)
  {
    var ls1 := LinesFrom(frameRate, labelText1, segs1, 1);
    var ls2 := LinesFrom(frameRate, labelText2, segs2, 1);
    LinesFromProps(frameRate, labelText1, segs1, 1);
    LinesFromProps(frameRate, labelText2, segs2, 1);
    UnlinesAppend(ls1, ls2);
    var both := ls1 + ls2;
    forall i | 0 <= i < |both| ensures NoNewline(both[i]) {
      if i >= |ls1| {
        assert both[i] == ls2[i - |ls1|];
      }
    }
    SplitUnlines(both);
  }

  lemma PairDecode(frameRate: string, labelText1: string, segs1: seq<Segment>,
                   labelText2: string, segs2: seq<Segment>)
    ensures var r := DecodeChapters(LinesFrom(frameRate, labelText1, segs1, 1) + LinesFrom(frameRate, labelText2, segs2, 1));
      && r.Some? && |r.value| == |segs1| + |segs2|
      && (forall i :: 0 <= i < |segs1| ==> r.value[i] == Expected(frameRate, labelText1, i + 1, segs1[i]))
      && (forall i :: 0 <= i < |segs2| ==> r.value[|segs1| + i] == Expected(frameRate, labelText2, i + 1, segs2[i]))
  {
    var ls2 := LinesFrom(frameRate, labelText2, segs2, 1);
    DecodeLinesFrom(frameRate, labelText2, segs2, 1, []);
    assert ls2 + [] == ls2;
    DecodeLinesFrom(frameRate, labelText1, segs1, 1, ls2);
    var r := DecodeChapters(LinesFrom(frameRate, labelText1, segs1, 1) + ls2).value;
    forall i | 0 <= i < |segs2| ensures r[|segs1| + i] == Expected(frameRate, labelText2, i + 1, segs2[i]) {
      assert r[|segs1| + i] == r[|segs1|..][i];
    }
  }
}
