/** Frame intervals of a recording and the "content" gaps the script derives
    between the detected commercials (transcode_recordings.py:100-108). */
module Segments {
  import opened Strings

  /** A frame number as the script holds it: its value, and the text it is
      written with in the chapter file. The script keeps commercial bounds as
      the digit strings the detector wrote, and renders its own cursor and the
      last frame with `str(int)`. */
  datatype Bound = Bound(frame: nat, text: string)

  datatype Segment = Segment(start: Bound, end: Bound)

  /** The text of a bound is a decimal numeral denoting its frame. */
  predicate WellFormedBound(b: Bound) {
    IsNumeral(b.text) && NumeralValue(b.text) == b.frame
  }

  predicate WellFormed(s: Segment) {
    WellFormedBound(s.start) && WellFormedBound(s.end)
  }

  predicate AllWellFormed(segs: seq<Segment>) {
    forall i :: 0 <= i < |segs| ==> WellFormed(segs[i])
  }

  /** A bound the script computes as an int and writes with `str`. */
  function IntBound(n: nat): (b: Bound)
    ensures WellFormedBound(b) && b.frame == n
  {
    NatToStringRoundTrip(n);
    Bound(n, NatToString(n))
  }

  /** The content intervals derived by walking a cursor over the commercials:
      before each commercial that starts after the cursor, the gap from the
      cursor to that start; the cursor then jumps to the commercial's end;
      after the LAST commercial only, the gap from the cursor to `lastFrame`
      if the cursor is still before it. With no commercials the walk never
      runs and there is no content at all. */
  function ContentFrom(coms: seq<Segment>, cursor: nat, lastFrame: nat): (r: seq<Segment>)
    ensures coms == [] ==> r == []
    ensures |r| <= |coms| + 1
    ensures forall i :: 0 <= i < |r| ==> r[i].start.frame < r[i].end.frame
    ensures AllWellFormed(coms) ==> AllWellFormed(r)
  {
    if coms == [] then []
    else
      var c := coms[0];
      var gap := if c.start.frame > cursor then [Segment(IntBound(cursor), c.start)] else [];
      var rest :=
        if |coms| == 1 then
          (if c.end.frame < lastFrame then [Segment(IntBound(c.end.frame), IntBound(lastFrame))] else [])
        else ContentFrom(coms[1..], c.end.frame, lastFrame);
      gap + rest
  }

  /** One step of the walk at commercial `k`: the gap before it and, if it is
      the last one, the trailing gap, followed by the walk from its end. */
  lemma ContentStep(coms: seq<Segment>, k: nat, cursor: nat, lastFrame: nat)
    requires k < |coms|
    ensures var c := coms[k];
      var gap := if c.start.frame > cursor then [Segment(IntBound(cursor), c.start)] else [];
      var trailing := if k == |coms| - 1 && c.end.frame < lastFrame
        then [Segment(IntBound(c.end.frame), IntBound(lastFrame))] else [];
      ContentFrom(coms[k..], cursor, lastFrame) == gap + trailing + ContentFrom(coms[k + 1..], c.end.frame, lastFrame)
  {
    var tail := coms[k..];
    var c := coms[k];
    assert tail[0] == c;
    var gap := if c.start.frame > cursor then [Segment(IntBound(cursor), c.start)] else [];
    if k == |coms| - 1 {
      assert |tail| == 1;
      assert coms[k + 1..] == [];
      var trailing := if c.end.frame < lastFrame then [Segment(IntBound(c.end.frame), IntBound(lastFrame))] else [];
      assert ContentFrom(tail, cursor, lastFrame) == gap + trailing;
      assert gap + trailing + [] == gap + trailing;
    } else {
      assert tail[1..] == coms[k + 1..];
      var rest := ContentFrom(coms[k + 1..], c.end.frame, lastFrame);
      assert ContentFrom(tail, cursor, lastFrame) == gap + rest;
      assert gap + [] + rest == gap + rest;
    }
  }

  /** The content of a recording: the walk starts at frame 1. A recording
      without commercials has no content intervals; every interval is
      non-empty and well formed when the commercials are. */
  function Content(coms: seq<Segment>, lastFrame: nat): (r: seq<Segment>)
    ensures coms == [] ==> r == []
    ensures |r| <= |coms| + 1
    ensures forall i :: 0 <= i < |r| ==> r[i].start.frame < r[i].end.frame
    ensures AllWellFormed(coms) ==> AllWellFormed(r)
  {
    ContentFrom(coms, 1, lastFrame)
  }

  datatype Kind = ContentKind | CommercialKind
  datatype Tagged = Tagged(kind: Kind, seg: Segment)

  /** The commercials and the content interleaved in the order the walk meets
      them: each gap just before the commercial that closes it, the trailing
      gap last. */
  function Merged(coms: seq<Segment>, cursor: nat, lastFrame: nat): seq<Tagged> {
    if coms == [] then []
    else
      var c := coms[0];
      var gap := if c.start.frame > cursor then [Tagged(ContentKind, Segment(IntBound(cursor), c.start))] else [];
      var rest :=
        if |coms| == 1 then
          (if c.end.frame < lastFrame
           then [Tagged(ContentKind, Segment(IntBound(c.end.frame), IntBound(lastFrame)))] else [])
        else Merged(coms[1..], c.end.frame, lastFrame);
      gap + [Tagged(CommercialKind, c)] + rest
  }

  /** The segments of one kind, in order. */
  function OfKind(ts: seq<Tagged>, k: Kind): seq<Segment> {
    if ts == [] then []
    else (if ts[0].kind == k then [ts[0].seg] else []) + OfKind(ts[1..], k)
  }

  function Untag(ts: seq<Tagged>): (r: seq<Segment>)
    ensures |r| == |ts| && forall i :: 0 <= i < |ts| ==> r[i] == ts[i].seg
  {
    if ts == [] then [] else [ts[0].seg] + Untag(ts[1..])
  }

  lemma {:induction false} OfKindAppend(a: seq<Tagged>, b: seq<Tagged>, k: Kind)
    ensures OfKind(a + b, k) == OfKind(a, k) + OfKind(b, k)
  {
    if a == [] {
      assert a + b == b;
    } else {
      assert (a + b)[1..] == a[1..] + b;
      OfKindAppend(a[1..], b, k);
    }
  }

  /** The merged timeline is an interleaving of exactly the content and
      exactly the commercials, each in its own order. */
  lemma {:induction false} MergedProjections(coms: seq<Segment>, cursor: nat, lastFrame: nat)
    ensures OfKind(Merged(coms, cursor, lastFrame), ContentKind) == ContentFrom(coms, cursor, lastFrame)
    ensures OfKind(Merged(coms, cursor, lastFrame), CommercialKind) == coms
  {
    if coms != [] {
      var c := coms[0];
      var gap := if c.start.frame > cursor then [Tagged(ContentKind, Segment(IntBound(cursor), c.start))] else [];
      var rest :=
        if |coms| == 1 then
          (if c.end.frame < lastFrame
           then [Tagged(ContentKind, Segment(IntBound(c.end.frame), IntBound(lastFrame)))] else [])
        else Merged(coms[1..], c.end.frame, lastFrame);
      var com := [Tagged(CommercialKind, c)];
      assert Merged(coms, cursor, lastFrame) == gap + com + rest;
      OfKindAppend(gap + com, rest, ContentKind);
      OfKindAppend(gap, com, ContentKind);
      OfKindAppend(gap + com, rest, CommercialKind);
      OfKindAppend(gap, com, CommercialKind);
      if |coms| > 1 {
        MergedProjections(coms[1..], c.end.frame, lastFrame);
      } else {
        assert coms == [c];
      }
      assert coms == [c] + coms[1..];
    }
  }

  /** Segments laid end to end: the first starts at `from`, each is non-empty
      and ends where the next starts, and the last ends at `to`. */
  predicate Chain(segs: seq<Segment>, from: nat, to: nat)
    decreases |segs|
  {
    if segs == [] then from == to
    else segs[0].start.frame == from && from < segs[0].end.frame && Chain(segs[1..], segs[0].end.frame, to)
  }

  /** Commercials in time order between `first` and `lastFrame`: none starts
      before `first`, each is non-empty, none overlaps a later one, and none
      ends after `lastFrame`. */
  predicate TimeOrdered(coms: seq<Segment>, first: nat, lastFrame: nat) {
    && (forall i :: 0 <= i < |coms| ==> first <= coms[i].start.frame < coms[i].end.frame <= lastFrame)
    && (forall i, j :: 0 <= i < j < |coms| ==> coms[i].end.frame <= coms[j].start.frame)
  }

  /** For time-ordered commercials the merged timeline runs without gap or
      overlap from the cursor to the last frame. */
  lemma {:induction false} MergedIsChain(coms: seq<Segment>, cursor: nat, lastFrame: nat)
    requires coms != [] && TimeOrdered(coms, cursor, lastFrame)
    ensures Chain(Untag(Merged(coms, cursor, lastFrame)), cursor, lastFrame)
  {
    var c := coms[0];
    var tail: seq<Segment>;
    if |coms| == 1 {
      tail := if c.end.frame < lastFrame then [Segment(IntBound(c.end.frame), IntBound(lastFrame))] else [];
      assert Chain(tail, c.end.frame, lastFrame);
    } else {
      var more := coms[1..];
      assert TimeOrdered(more, c.end.frame, lastFrame) by {
        forall i | 0 <= i < |more| ensures c.end.frame <= more[i].start.frame {
          assert more[i] == coms[i + 1];
        }
      }
      MergedIsChain(more, c.end.frame, lastFrame);
      tail := Untag(Merged(more, c.end.frame, lastFrame));
    }
    var withCom := [c] + tail;
    assert Chain(withCom, c.start.frame, lastFrame) by {
      assert withCom[1..] == tail;
    }
    var m := Merged(coms, cursor, lastFrame);
    if c.start.frame > cursor {
      var gap := Segment(IntBound(cursor), c.start);
      assert Untag(m) == [gap] + withCom;
      assert ([gap] + withCom)[1..] == withCom;
    } else {
      assert Untag(m) == withCom;
    }
  }

  predicate Covers(s: Segment, f: int) {
    s.start.frame <= f < s.end.frame
  }

  /** Segments of a chain lie within its range, in increasing order, without
      overlap. */
  lemma {:induction false} ChainOrdered(segs: seq<Segment>, from: nat, to: nat)
    requires Chain(segs, from, to)
    ensures from <= to
    ensures forall i :: 0 <= i < |segs| ==> from <= segs[i].start.frame < segs[i].end.frame <= to
    ensures forall i, j :: 0 <= i < j < |segs| ==> segs[i].end.frame <= segs[j].start.frame
  {
    if segs != [] {
      var rest := segs[1..];
      ChainOrdered(rest, segs[0].end.frame, to);
      assert forall i :: 0 < i < |segs| ==> segs[i] == rest[i - 1];
    }
  }

  /** A chain from `from` to `to` partitions the frames [from, to): each one
      lies in exactly one of its segments. */
  lemma {:induction false} ChainPartitions(segs: seq<Segment>, from: nat, to: nat, f: int)
    requires Chain(segs, from, to) && from <= f < to
    ensures exists i :: 0 <= i < |segs| && Covers(segs[i], f)
    ensures forall i, j :: 0 <= i < |segs| && 0 <= j < |segs| && Covers(segs[i], f) && Covers(segs[j], f) ==> i == j
  {
    ChainOrdered(segs, from, to);
    if f < segs[0].end.frame {
      assert Covers(segs[0], f);
    } else {
      var rest := segs[1..];
      ChainPartitions(rest, segs[0].end.frame, to, f);
      var k :| 0 <= k < |rest| && Covers(rest[k], f);
      assert Covers(segs[k + 1], f);
    }
  }

  /** Content and commercials tile the recording: for time-ordered
      commercials inside [1, lastFrame], content and commercials merged in time order
      partition the frames [1, lastFrame), content filling exactly what the
      commercials leave. */
  lemma ContentAndCommercialsTile(coms: seq<Segment>, lastFrame: nat, f: int)
    requires coms != [] && TimeOrdered(coms, 1, lastFrame)
    requires 1 <= f < lastFrame
    ensures var m := Merged(coms, 1, lastFrame);
      && OfKind(m, ContentKind) == Content(coms, lastFrame)
      && OfKind(m, CommercialKind) == coms
      && Chain(Untag(m), 1, lastFrame)
      && (exists i :: 0 <= i < |m| && Covers(m[i].seg, f))
      && (forall i, j :: 0 <= i < |m| && 0 <= j < |m| && Covers(m[i].seg, f) && Covers(m[j].seg, f) ==> i == j)
  {
    var m := Merged(coms, 1, lastFrame);
    MergedProjections(coms, 1, lastFrame);
    MergedIsChain(coms, 1, lastFrame);
    ChainPartitions(Untag(m), 1, lastFrame, f);
    var k :| 0 <= k < |m| && Covers(Untag(m)[k], f);
    assert Covers(m[k].seg, f);
  }
}
