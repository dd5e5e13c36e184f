/** The chunker of the document store: services/rag/app/chunker.py. */
module Chunker {
  import opened Options
  import opened Text

  // ---- Overlapping text chunks --------------------------------------------------------------

  /** The end of a chunk after the last paragraph break, else line break, else sentence end in
      the search window; None is the source's -1. */
  function SentenceBoundary(text: string, from: nat, end: nat): (r: Option<nat>)
    requires from <= end <= |text|
    ensures r.Some? ==> from < r.value <= end
  {
    var para := RFind(text, "\n\n", from, end);
    var line := RFind(text, "\n", from, end);
    var stop := RFind(text, ". ", from, end);
    if para.Some? then Some(para.value + 2)
    else if line.Some? then Some(line.value + 1)
    else if stop.Some? then Some(stop.value + 2)
    else None
  }

  /** The pattern occurs inside the window, last at i. */
  ghost predicate LastAt(text: string, pattern: string, from: nat, end: nat, i: int) {
    && from <= i && i + |pattern| <= end && FoundAt(text, pattern, i)
    && (forall j :: i < j && j + |pattern| <= end ==> !FoundAt(text, pattern, j))
  }

  ghost predicate Absent(text: string, pattern: string, from: nat, end: nat) {
    forall i :: from <= i && i + |pattern| <= end ==> !FoundAt(text, pattern, i)
  }

  /** The boundary stands right after the last paragraph break of the window; without one, after
      the last line break; without either, after the last sentence end; without any there is none. */
  lemma BoundaryIsLastBreak(text: string, from: nat, end: nat)
    requires from <= end <= |text|
    ensures match SentenceBoundary(text, from, end)
            case None => Absent(text, "\n", from, end) && Absent(text, "\n\n", from, end) && Absent(text, ". ", from, end)
            case Some(b) =>
              || LastAt(text, "\n\n", from, end, b - 2)
              || (Absent(text, "\n\n", from, end) && LastAt(text, "\n", from, end, b - 1))
              || (Absent(text, "\n\n", from, end) && Absent(text, "\n", from, end) && LastAt(text, ". ", from, end, b - 2))
  {
    hide FoundAt, RFind;
  }

  datatype Range = Range(from: nat, end: nat)

  /** Where the chunk that starts at `start` ends when text remains after it. */
  function ChunkEnd(text: string, start: nat, chunkSize: nat): (r: nat)
    requires chunkSize >= 1 && start + chunkSize <= |text|
    ensures start < r <= start + chunkSize
  {
    var searchStart := if chunkSize > 200 then start + chunkSize - 200 else start;
    match SentenceBoundary(text, searchStart, start + chunkSize)
    case None => start + chunkSize
    case Some(b) => b
  }

  /** A chunk ends right after the last break of the last 200 characters of its window (of the whole
      window when chunkSize is at most 200), and at the window's end when there is none. */
  lemma ChunkEndMeaning(text: string, start: nat, chunkSize: nat)
    requires chunkSize >= 1 && start + chunkSize <= |text|
    ensures EndsAtBreak(text, if chunkSize > 200 then start + chunkSize - 200 else start, start + chunkSize, ChunkEnd(text, start, chunkSize))
  {
    hide SentenceBoundary, EndsAtBreak;
    BoundaryEnds(text, if chunkSize > 200 then start + chunkSize - 200 else start, start + chunkSize);
  }

  lemma BoundaryEnds(text: string, from: nat, end: nat)
    requires from <= end <= |text|
    ensures var b := SentenceBoundary(text, from, end); EndsAtBreak(text, from, end, if b.Some? then b.value else end)
  {
    BoundaryIsLastBreak(text, from, end);
    hide SentenceBoundary, LastAt, Absent;
  }

  /** r is right after the last paragraph break between from and end, else after the last line
      break, else after the last sentence end, else at end. */
  ghost predicate EndsAtBreak(text: string, from: nat, end: nat, r: nat) {
    || LastAt(text, "\n\n", from, end, r - 2)
    || (Absent(text, "\n\n", from, end) && LastAt(text, "\n", from, end, r - 1))
    || (Absent(text, "\n\n", from, end) && Absent(text, "\n", from, end)
        && (LastAt(text, ". ", from, end, r - 2) || (Absent(text, ". ", from, end) && r == end)))
  }

  function NextStart(r: Range, overlap: nat): int {
    if r.end - overlap > r.from + 1 then r.end - overlap else r.from + 1
  }

  /** Ranges that start at 0, end at the chunk boundary, and step back by the overlap. */
  ghost predicate Steps(text: string, ranges: seq<Range>, chunkSize: nat, overlap: nat)
    requires chunkSize >= 1
  {
    && (forall k :: 0 <= k < |ranges| ==>
          ranges[k].from + chunkSize < |text| && ranges[k].end == ChunkEnd(text, ranges[k].from, chunkSize))
    && (|ranges| > 0 ==> ranges[0].from == 0)
    && (forall k :: 0 <= k < |ranges| - 1 ==> ranges[k + 1].from == NextStart(ranges[k], overlap))
  }

  /** All ranges of a text: steps, and a last range of at most a chunk up to the end. */
  ghost predicate Covers(text: string, ranges: seq<Range>, chunkSize: nat, overlap: nat)
    requires chunkSize >= 1
  {
    && |ranges| > 0
    && var n := |ranges| - 1;
    && Steps(text, ranges[..n], chunkSize, overlap)
    && ranges[n].end == |text| && ranges[n].from < |text| <= ranges[n].from + chunkSize
    && ranges[n].from == if n == 0 then 0 else NextStart(ranges[n - 1], overlap)
  }

  /** The non-blank stripped slices of a list of ranges, in order. */
  function Pieces(text: string, ranges: seq<Range>, white: White): seq<string>
    requires forall k :: 0 <= k < |ranges| ==> ranges[k].from <= ranges[k].end <= |text|
  {
    if ranges == [] then []
    else
      var n := |ranges| - 1;
      var piece := Strip(text[ranges[n].from..ranges[n].end], white);
      Pieces(text, ranges[..n], white) + if piece == [] then [] else [piece]
  }

  lemma StepsInside(text: string, ranges: seq<Range>, chunkSize: nat, overlap: nat)
    requires chunkSize >= 1 && Steps(text, ranges, chunkSize, overlap)
    ensures forall k :: 0 <= k < |ranges| ==> ranges[k].from < ranges[k].end < |text| && ranges[k].end - ranges[k].from <= chunkSize
  {
  }

  lemma CoversInside(text: string, ranges: seq<Range>, chunkSize: nat, overlap: nat)
    requires chunkSize >= 1 && Covers(text, ranges, chunkSize, overlap)
    ensures forall k :: 0 <= k < |ranges| ==> ranges[k].from < ranges[k].end <= |text| && ranges[k].end - ranges[k].from <= chunkSize
  {
    hide ChunkEnd, Steps;
    var n := |ranges| - 1;
    StepsInside(text, ranges[..n], chunkSize, overlap);
    forall k | 0 <= k < n ensures ranges[k].from < ranges[k].end <= |text| && ranges[k].end - ranges[k].from <= chunkSize {
      assert ranges[..n][k] == ranges[k];
    }
  }

  /** Neighbouring ranges leave no gap and share `overlap` characters, or all but one of a range
      that has no more than that. */
  lemma NeighboursOverlap(text: string, ranges: seq<Range>, chunkSize: nat, overlap: nat, k: nat)
    requires chunkSize >= 1 && Covers(text, ranges, chunkSize, overlap) && k + 1 < |ranges|
    ensures ranges[k].from < ranges[k + 1].from <= ranges[k].end
    ensures var length := ranges[k].end - ranges[k].from;
            ranges[k].end - ranges[k + 1].from == if overlap < length then overlap else length - 1
  {
    hide ChunkEnd;
    var n := |ranges| - 1;
    CoversInside(text, ranges, chunkSize, overlap);
    assert ranges[..n][k] == ranges[k];
    if k + 1 < n {
      assert ranges[..n][k + 1] == ranges[k + 1];
    }
  }

  /** Nothing is lost: every index of the text lies in some range. */
  lemma {:induction false} EveryIndexIsCovered(text: string, ranges: seq<Range>, chunkSize: nat, overlap: nat, p: nat, k: nat)
    requires chunkSize >= 1 && Covers(text, ranges, chunkSize, overlap)
    requires p < |text| && k < |ranges| && ranges[k].from <= p
    ensures exists j :: k <= j < |ranges| && ranges[j].from <= p < ranges[j].end
    decreases |ranges| - k
  {
    hide Covers;
    if p < ranges[k].end {
    } else {
      LastRangeEnds(text, ranges, chunkSize, overlap);
      NeighboursOverlap(text, ranges, chunkSize, overlap, k);
      EveryIndexIsCovered(text, ranges, chunkSize, overlap, p, k + 1);
    }
  }

  lemma LastRangeEnds(text: string, ranges: seq<Range>, chunkSize: nat, overlap: nat)
    requires chunkSize >= 1 && Covers(text, ranges, chunkSize, overlap)
    ensures |ranges| > 0 && ranges[|ranges| - 1].end == |text| && ranges[0].from == 0
  {
    if |ranges| > 1 {
      assert ranges[..|ranges| - 1][0] == ranges[0];
    }
  }

  /** The loop's state: what has been cut, and where the next chunk starts. */
  ghost predicate ChunkLoop(text: string, ranges: seq<Range>, start: nat, chunkSize: nat, overlap: nat)
    requires chunkSize >= 1
  {
    && start < |text|
    && Steps(text, ranges, chunkSize, overlap)
    && start == if ranges == [] then 0 else NextStart(ranges[|ranges| - 1], overlap)
  }

  lemma ChunkLoopStep(text: string, ranges: seq<Range>, start: nat, chunkSize: nat, overlap: nat)
    requires chunkSize >= 1 && ChunkLoop(text, ranges, start, chunkSize, overlap) && start + chunkSize < |text|
    ensures var r := Range(start, ChunkEnd(text, start, chunkSize));
            0 <= NextStart(r, overlap) && ChunkLoop(text, ranges + [r], NextStart(r, overlap), chunkSize, overlap)
  {
    hide ChunkEnd;
  }

  lemma ChunkLoopEnd(text: string, ranges: seq<Range>, start: nat, chunkSize: nat, overlap: nat)
    requires chunkSize >= 1 && ChunkLoop(text, ranges, start, chunkSize, overlap) && start + chunkSize >= |text|
    ensures Covers(text, ranges + [Range(start, |text|)], chunkSize, overlap)
  {
  }

  lemma PiecesAppend(text: string, ranges: seq<Range>, r: Range, white: White)
    requires r.from <= r.end <= |text|
    requires forall k :: 0 <= k < |ranges| ==> ranges[k].from <= ranges[k].end <= |text|
    ensures var piece := Strip(text[r.from..r.end], white);
            Pieces(text, ranges + [r], white) == Pieces(text, ranges, white) + if piece == [] then [] else [piece]
  {
  }

  lemma StrippedIsFixed(text: string, white: White)
    ensures Strip(Strip(text, white), white) == Strip(text, white)
  {
  }

  /** The non-blank stripped slices of ranges that cover the text. */
  ghost predicate AreChunks(chunks: seq<string>, ranges: seq<Range>, text: string, chunkSize: nat, overlap: nat, white: White)
    requires chunkSize >= 1
  {
    && Covers(text, ranges, chunkSize, overlap)
    && (forall k :: 0 <= k < |ranges| ==> ranges[k].from <= ranges[k].end <= |text|)
    && chunks == Pieces(text, ranges, white)
  }

  /** Chunks of the stripped text. */
  method SplitTextBlock(block: string, chunkSize: nat, overlap: nat, white: White) returns (chunks: seq<string>)
    requires chunkSize >= 1
    ensures Strip(block, white) == [] ==> chunks == []
    ensures Strip(block, white) != [] ==>
              exists ranges :: AreChunks(chunks, ranges, Strip(block, white), chunkSize, overlap, white)
  {
    hide Strip, Pieces, ChunkLoop, ChunkEnd, AreChunks;
    var text := Strip(block, white);
    chunks := [];
    ghost var ranges: seq<Range> := [];
    if text == [] {
      return;
    }
    ChunkLoopStart(text, chunkSize, overlap);
    PiecesNone(text, white);
    StrippedIsFixed(block, white);
    if |text| <= chunkSize {
      assert text[0..] == text && [] + [text] == [text];
      ChunksEnd(text, ranges, chunks, 0, chunkSize, overlap, white, [text]);
      return [text];
    }
    var start := 0;
    while start < |text|
      invariant 0 <= start < |text| && ChunkLoop(text, ranges, start, chunkSize, overlap)
      invariant forall k :: 0 <= k < |ranges| ==> ranges[k].from <= ranges[k].end <= |text|
      invariant chunks == Pieces(text, ranges, white)
      decreases |text| - start
    {
      var end := start + chunkSize;
      if end >= |text| {
        var tail := Strip(text[start..], white);
        ChunksEnd(text, ranges, chunks, start, chunkSize, overlap, white, if tail == [] then chunks else chunks + [tail]);
        if tail != [] { chunks := chunks + [tail]; }
        return;
      }
      var boundary := ChunkEnd(text, start, chunkSize);
      var chunk := Strip(text[start..boundary], white);
      ghost var r := Range(start, boundary);
      ChunkLoopStep(text, ranges, start, chunkSize, overlap);
      PiecesAppend(text, ranges, r, white);
      ranges := ranges + [r];
      if chunk != [] { chunks := chunks + [chunk]; }
      start := if boundary - overlap > start + 1 then boundary - overlap else start + 1;
      ChunkLoopInside(text, ranges, start, chunkSize, overlap);
    }
  }

  /** The last range closes the cover. */
  lemma ChunksEnd(text: string, ranges: seq<Range>, chunks: seq<string>, start: nat, chunkSize: nat, overlap: nat, white: White,
                  result: seq<string>)
    requires chunkSize >= 1 && ChunkLoop(text, ranges, start, chunkSize, overlap) && start + chunkSize >= |text|
    requires start <= |text| && forall k :: 0 <= k < |ranges| ==> ranges[k].from <= ranges[k].end <= |text|
    requires chunks == Pieces(text, ranges, white)
    requires var tail := Strip(text[start..], white); result == if tail == [] then chunks else chunks + [tail]
    ensures exists all :: AreChunks(result, all, text, chunkSize, overlap, white)
  {
    hide Strip, Pieces, Covers, ChunkLoop;
    var all := ranges + [Range(start, |text|)];
    assert text[start..] == text[start..|text|];
    ChunkLoopEnd(text, ranges, start, chunkSize, overlap);
    PiecesAppend(text, ranges, Range(start, |text|), white);
    assert AreChunks(result, all, text, chunkSize, overlap, white);
  }

  lemma ChunkLoopStart(text: string, chunkSize: nat, overlap: nat)
    requires chunkSize >= 1 && text != []
    ensures ChunkLoop(text, [], 0, chunkSize, overlap)
  {
  }

  lemma ChunkLoopInside(text: string, ranges: seq<Range>, start: nat, chunkSize: nat, overlap: nat)
    requires chunkSize >= 1 && ChunkLoop(text, ranges, start, chunkSize, overlap)
    ensures start < |text|
  {
  }

  lemma PiecesNone(text: string, white: White)
    ensures Pieces(text, [], white) == []
  {
  }

  lemma {:induction false} PiecesAreShort(text: string, ranges: seq<Range>, white: White, chunkSize: nat)
    requires forall k :: 0 <= k < |ranges| ==> ranges[k].from <= ranges[k].end <= |text| && ranges[k].end - ranges[k].from <= chunkSize
    ensures forall k :: 0 <= k < |Pieces(text, ranges, white)| ==> 0 < |Pieces(text, ranges, white)[k]| <= chunkSize
  {
    hide Strip;
    if ranges != [] { PiecesAreShort(text, ranges[..|ranges| - 1], white, chunkSize); }
  }

  lemma {:induction false} PieceOfRange(text: string, ranges: seq<Range>, white: White, k: nat)
    requires k < |ranges| && forall k :: 0 <= k < |ranges| ==> ranges[k].from <= ranges[k].end <= |text|
    ensures var piece := Strip(text[ranges[k].from..ranges[k].end], white);
            piece == [] || piece in Pieces(text, ranges, white)
  {
    hide Strip;
    if k < |ranges| - 1 { PieceOfRange(text, ranges[..|ranges| - 1], white, k); }
  }

  /** piece is part of the text and holds index p. */
  ghost predicate Shows(text: string, piece: string, p: nat) {
    exists i :: FoundAt(text, piece, i) && i <= p < i + |piece|
  }

  lemma SliceOfSlice(text: string, a: nat, b: nat, i: nat, j: nat)
    requires a <= b <= |text| && i <= j <= b - a
    ensures text[a..b][i..j] == text[a + i..a + j]
  {
    var x, y := text[a..b][i..j], text[a + i..a + j];
    assert |x| == |y|;
    assert forall k :: 0 <= k < |x| ==> x[k] == y[k];
  }

  lemma StripShows(text: string, r: Range, white: White, p: nat)
    requires r.from <= p < r.end <= |text| && !white(text[p])
    ensures Shows(text, Strip(text[r.from..r.end], white), p)
  {
    hide Strip;
    var slice, q := text[r.from..r.end], p - r.from;
    var i, j := StripKeepsMiddle(slice, white);
    assert slice[q] == text[p];
    assert i <= q < j;
    SliceOfSlice(text, r.from, r.end, i, j);
    assert FoundAt(text, slice[i..j], r.from + i);
  }

  /** Only white space is lost: every other character of the text stands in some chunk. */
  lemma VisibleTextIsChunked(text: string, ranges: seq<Range>, white: White, chunkSize: nat, overlap: nat, p: nat)
    requires chunkSize >= 1 && Covers(text, ranges, chunkSize, overlap)
    requires forall k :: 0 <= k < |ranges| ==> ranges[k].from <= ranges[k].end <= |text|
    requires p < |text| && !white(text[p])
    ensures exists piece :: piece in Pieces(text, ranges, white) && Shows(text, piece, p)
  {
    hide Covers, Strip, Pieces, Shows;
    LastRangeEnds(text, ranges, chunkSize, overlap);
    EveryIndexIsCovered(text, ranges, chunkSize, overlap, p, 0);
    var k :| 0 <= k < |ranges| && ranges[k].from <= p < ranges[k].end;
    StripShows(text, ranges[k], white, p);
    PieceOfRange(text, ranges, white, k);
    ShowsSomething(text, Strip(text[ranges[k].from..ranges[k].end], white), p);
  }

  lemma ShowsSomething(text: string, piece: string, p: nat)
    requires Shows(text, piece, p)
    ensures piece != []
  {
  }
}
