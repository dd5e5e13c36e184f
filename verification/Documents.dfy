/** Tables, pages and the merge of small chunks: the other passes of
    services/rag/app/chunker.py. */
module Documents {
  import opened Options
  import opened Text

  // ---- Page of an offset -----------------------------------------------------------------------

  datatype PageMark = PageMark(offset: nat, page: int)

  /** Mark k is the last one at or before the offset. */
  ghost predicate IsLastMark(k: nat, index: seq<PageMark>, offset: nat) {
    k < |index| && forall i :: 0 <= i < |index| ==> (index[i].offset <= offset <==> i <= k)
  }

  /** Binary search: the page of the last mark at or before the offset. */
  method OffsetToPage(index: seq<PageMark>, offset: nat) returns (page: int)
    requires index != [] && index[0].offset == 0
    requires forall i, j :: 0 <= i < j < |index| ==> index[i].offset <= index[j].offset
    ensures exists k: nat :: IsLastMark(k, index, offset) && page == index[k].page
  {
    var lo, hi := 0, |index| - 1;
    while lo < hi
      invariant 0 <= lo <= hi < |index|
      invariant index[lo].offset <= offset
      invariant forall i :: hi < i < |index| ==> index[i].offset > offset
    {
      var mid := (lo + hi + 1) / 2;
      if index[mid].offset <= offset {
        lo := mid;
      } else {
        hi := mid - 1;
      }
    }
    assert IsLastMark(lo, index, offset);
    return index[lo].page;
  }

  // ---- Table blocks -------------------------------------------------------------------------------

  predicate IsTableLine(line: string, white: White) {
    var s := Strip(line, white);
    s != [] && s[0] == '|'
  }

  predicate IsBlank(line: string, white: White) {
    Strip(line, white) == []
  }

  /** A table line starts with a bar after white space at most; a blank line is white space only. */
  lemma LineMeaning(line: string, white: White)
    requires !white('|')
    ensures IsTableLine(line, white) <==> exists i :: 0 <= i < |line| && line[i] == '|' && AllWhite(line, 0, i, white)
    ensures IsBlank(line, white) <==> AllWhite(line, 0, |line|, white)
  {
    hide Strip;
    var i, j := StripKeepsMiddle(line, white);
    var s := Strip(line, white);
    assert s == line[i..j];
    if s != [] { assert s[0] == line[i]; }
  }

  /** Lines start to end - 1. */
  datatype Block = Block(start: nat, end: nat)

  /** A maximal run of table and blank lines that begins with a table line. */
  ghost predicate IsTableBlock(b: Block, lines: seq<string>, white: White) {
    && b.start < b.end <= |lines|
    && IsTableLine(lines[b.start], white)
    && (forall i :: b.start <= i < b.end ==> IsTableLine(lines[i], white) || IsBlank(lines[i], white))
    && (b.end < |lines| ==> !IsTableLine(lines[b.end], white) && !IsBlank(lines[b.end], white))
  }

  predicate InBlock(i: int, blocks: seq<Block>) {
    exists k :: 0 <= k < |blocks| && blocks[k].start <= i < blocks[k].end
  }

  ghost predicate Ordered(blocks: seq<Block>) {
    forall j, k :: 0 <= j < k < |blocks| ==> blocks[j].end <= blocks[k].start
  }

  /** Disjoint maximal table blocks in order, which together hold every table line before n. */
  ghost predicate AreTableBlocks(blocks: seq<Block>, lines: seq<string>, n: nat, white: White) {
    && n <= |lines| && Ordered(blocks)
    && (forall k :: 0 <= k < |blocks| ==> blocks[k].end <= n && IsTableBlock(blocks[k], lines, white))
    && (forall i :: 0 <= i < n && IsTableLine(lines[i], white) ==> InBlock(i, blocks))
  }

  lemma BlockAppend(blocks: seq<Block>, b: Block, lines: seq<string>, white: White)
    requires AreTableBlocks(blocks, lines, b.start, white) && IsTableBlock(b, lines, white)
    ensures AreTableBlocks(blocks + [b], lines, b.end, white)
  {
    hide IsTableLine, IsBlank;
    var all := blocks + [b];
    forall i | 0 <= i < b.end && IsTableLine(lines[i], white) ensures InBlock(i, all) {
      if i < b.start {
        var k :| 0 <= k < |blocks| && blocks[k].start <= i < blocks[k].end;
        assert all[k] == blocks[k];
      } else {
        assert all[|blocks|] == b;
      }
    }
  }

  lemma LineAppend(blocks: seq<Block>, lines: seq<string>, n: nat, white: White)
    requires AreTableBlocks(blocks, lines, n, white) && n < |lines| && !IsTableLine(lines[n], white)
    ensures AreTableBlocks(blocks, lines, n + 1, white)
  {
  }

  method ExtractTableBlocks(lines: seq<string>, white: White) returns (blocks: seq<Block>)
    ensures AreTableBlocks(blocks, lines, |lines|, white)
  {
    hide IsTableLine, IsBlank, AreTableBlocks;
    blocks := [];
    NoBlocks(lines, white);
    var i := 0;
    while i < |lines|
      invariant i <= |lines| && AreTableBlocks(blocks, lines, i, white)
    {
      if IsTableLine(lines[i], white) {
        var j := i;
        while j < |lines| && (IsTableLine(lines[j], white) || IsBlank(lines[j], white))
          invariant i <= j <= |lines|
          invariant forall k :: i <= k < j ==> IsTableLine(lines[k], white) || IsBlank(lines[k], white)
        {
          j := j + 1;
        }
        BlockAppend(blocks, Block(i, j), lines, white);
        blocks := blocks + [Block(i, j)];
        i := j;
      } else {
        LineAppend(blocks, lines, i, white);
        i := i + 1;
      }
    }
  }

  lemma NoBlocks(lines: seq<string>, white: White)
    ensures AreTableBlocks([], lines, 0, white)
  {
  }

  /** Blocks that a and b share lie before the k-th block of a. */
  lemma SharedBlocksLieBefore(a: seq<Block>, b: seq<Block>, k: nat, j: nat)
    requires Ordered(a) && j < k < |a| && k <= |b| && a[..k] == b[..k]
    ensures b[j].end <= a[k].start
  {
  }

  /** The k-th block of a starts inside a later block of b. */
  lemma BlockStartsInside(a: seq<Block>, b: seq<Block>, lines: seq<string>, white: White, k: nat) returns (j: nat)
    requires AreTableBlocks(a, lines, |lines|, white) && AreTableBlocks(b, lines, |lines|, white)
    requires k < |a| && k <= |b| && a[..k] == b[..k]
    ensures k <= j < |b| && b[j].start <= a[k].start < b[j].end
  {
    hide IsTableLine, IsBlank;
    assert IsTableBlock(a[k], lines, white);
    forall i | 0 <= i < k ensures b[i].end <= a[k].start { SharedBlocksLieBefore(a, b, k, i); }
    assert InBlock(a[k].start, b);
    j :| 0 <= j < |b| && b[j].start <= a[k].start < b[j].end;
  }

  lemma StartsAscend(blocks: seq<Block>, k: nat, j: nat)
    requires Ordered(blocks) && k <= j < |blocks| && blocks[k].start < blocks[k].end
    ensures blocks[k].start <= blocks[j].start
  {
  }

  lemma BlocksAgreeAt(a: seq<Block>, b: seq<Block>, lines: seq<string>, white: White, k: nat)
    requires AreTableBlocks(a, lines, |lines|, white) && AreTableBlocks(b, lines, |lines|, white)
    requires k < |a| && k < |b| && a[..k] == b[..k]
    ensures a[k] == b[k]
  {
    hide IsTableLine, IsBlank;
    var i := BlockStartsInside(a, b, lines, white, k);
    var j := BlockStartsInside(b, a, lines, white, k);
    assert IsTableBlock(a[k], lines, white) && IsTableBlock(b[k], lines, white);
    StartsAscend(b, k, i);
    StartsAscend(a, k, j);
    assert a[k].start == b[k].start;
  }

  lemma {:induction false} BlocksAgree(a: seq<Block>, b: seq<Block>, lines: seq<string>, white: White, k: nat)
    requires AreTableBlocks(a, lines, |lines|, white) && AreTableBlocks(b, lines, |lines|, white)
    requires k <= |a| && k <= |b|
    ensures a[..k] == b[..k]
  {
    hide AreTableBlocks;
    if k > 0 {
      BlocksAgree(a, b, lines, white, k - 1);
      BlocksAgreeAt(a, b, lines, white, k - 1);
      assert a[..k] == a[..k - 1] + [a[k - 1]] && b[..k] == b[..k - 1] + [b[k - 1]];
    }
  }

  lemma NoFewerBlocks(a: seq<Block>, b: seq<Block>, lines: seq<string>, white: White)
    requires AreTableBlocks(a, lines, |lines|, white) && AreTableBlocks(b, lines, |lines|, white)
    ensures |a| <= |b|
  {
    hide AreTableBlocks;
    if |b| < |a| {
      BlocksAgree(a, b, lines, white, |b|);
      var j := BlockStartsInside(a, b, lines, white, |b|);
    }
  }

  /** There is only one way to choose the blocks. */
  lemma TableBlocksUnique(a: seq<Block>, b: seq<Block>, lines: seq<string>, white: White)
    requires AreTableBlocks(a, lines, |lines|, white) && AreTableBlocks(b, lines, |lines|, white)
    ensures a == b
  {
    hide AreTableBlocks;
    NoFewerBlocks(a, b, lines, white);
    NoFewerBlocks(b, a, lines, white);
    BlocksAgree(a, b, lines, white, |a|);
    assert a[..|a|] == a && b[..|b|] == b;
  }

  /** The lines outside all blocks, in order. */
  function BodyLines(lines: seq<string>, blocks: seq<Block>, n: nat): seq<string>
    requires n <= |lines|
  {
    if n == 0 then []
    else BodyLines(lines, blocks, n - 1) + if InBlock(n - 1, blocks) then [] else [lines[n - 1]]
  }

  /** No table line is left in the body. */
  lemma {:induction false} BodyHasNoTableLine(lines: seq<string>, blocks: seq<Block>, n: nat, white: White)
    requires n <= |lines| && AreTableBlocks(blocks, lines, |lines|, white)
    ensures forall line :: line in BodyLines(lines, blocks, n) ==> line in lines && !IsTableLine(line, white)
  {
    hide IsTableLine, InBlock, IsTableBlock;
    if n > 0 { BodyHasNoTableLine(lines, blocks, n - 1, white); }
  }

  /** The lines of all blocks, in order. */
  function BlockLines(lines: seq<string>, blocks: seq<Block>): seq<string>
    requires forall k :: 0 <= k < |blocks| ==> blocks[k].start <= blocks[k].end <= |lines|
  {
    if blocks == [] then []
    else
      var last := blocks[|blocks| - 1];
      BlockLines(lines, blocks[..|blocks| - 1]) + lines[last.start..last.end]
  }

  ghost predicate Inside(blocks: seq<Block>, n: nat) {
    forall k :: 0 <= k < |blocks| ==> blocks[k].start < blocks[k].end <= n
  }

  lemma {:induction false} BodyAndBlocks(lines: seq<string>, blocks: seq<Block>, n: nat)
    requires n <= |lines| && Ordered(blocks) && Inside(blocks, n)
    ensures multiset(BodyLines(lines, blocks, n)) + multiset(BlockLines(lines, blocks)) == multiset(lines[..n])
    decreases n, |blocks|
  {
    hide InBlock, Ordered;
    if blocks != [] { InsideIsPositive(blocks, n); }
    if n > 0 {
      hide BodyLines, BlockLines;
      if blocks != [] && blocks[|blocks| - 1].end == n {
        BlockEndsHere(lines, blocks, n);
      } else {
        LineEndsHere(lines, blocks, n);
      }
    }
  }

  lemma InsideIsPositive(blocks: seq<Block>, n: nat)
    requires Inside(blocks, n) && blocks != []
    ensures n > 0
  {
    assert blocks[0].start < blocks[0].end;
  }

  lemma {:induction false} LineEndsHere(lines: seq<string>, blocks: seq<Block>, n: nat)
    requires 0 < n <= |lines| && Ordered(blocks) && Inside(blocks, n)
    requires blocks != [] ==> blocks[|blocks| - 1].end != n
    ensures multiset(BodyLines(lines, blocks, n)) + multiset(BlockLines(lines, blocks)) == multiset(lines[..n])
    decreases n, |blocks|, 0
  {
    hide InBlock, BlockLines;
    LastLineInBody(blocks, n);
    BodyAndBlocks(lines, blocks, n - 1);
    AddSlice(lines, BodyLines(lines, blocks, n - 1), BlockLines(lines, blocks), n - 1, n);
  }

  lemma {:induction false} BlockEndsHere(lines: seq<string>, blocks: seq<Block>, n: nat)
    requires 0 < n <= |lines| && Ordered(blocks) && Inside(blocks, n) && blocks != [] && blocks[|blocks| - 1].end == n
    ensures multiset(BodyLines(lines, blocks, n)) + multiset(BlockLines(lines, blocks)) == multiset(lines[..n])
    decreases n, |blocks|, 0
  {
    hide InBlock, BodyLines;
    var m := |blocks| - 1;
    var start, init := blocks[m].start, blocks[..m];
    BodyOfBlock(lines, blocks, start, n);
    InitInside(blocks);
    BodyAndBlocks(lines, init, start);
    SameBody(lines, init, blocks, start);
    AddSlice(lines, BodyLines(lines, init, start), BlockLines(lines, init), start, n);
  }

  lemma AddSlice(lines: seq<string>, body: seq<string>, tables: seq<string>, start: nat, n: nat)
    requires start <= n <= |lines| && multiset(body) + multiset(tables) == multiset(lines[..start])
    ensures multiset(body) + multiset(tables + lines[start..n]) == multiset(lines[..n])
    ensures multiset(body + lines[start..n]) + multiset(tables) == multiset(lines[..n])
    ensures start + 1 == n ==> lines[start..n] == [lines[start]]
  {
    assert lines[..n] == lines[..start] + lines[start..n];
  }

  lemma InitInside(blocks: seq<Block>)
    requires blocks != [] && Ordered(blocks) && forall k :: 0 <= k < |blocks| ==> blocks[k].start < blocks[k].end
    ensures Ordered(blocks[..|blocks| - 1]) && Inside(blocks[..|blocks| - 1], blocks[|blocks| - 1].start)
  {
  }

  lemma LastLineInBody(blocks: seq<Block>, n: nat)
    requires n > 0 && Ordered(blocks) && Inside(blocks, n) && (blocks != [] ==> blocks[|blocks| - 1].end != n)
    ensures Inside(blocks, n - 1) && !InBlock(n - 1, blocks)
  {
    var m := |blocks| - 1;
    forall k | 0 <= k < |blocks| ensures blocks[k].end <= n - 1 {
      if k < m { assert blocks[k].end <= blocks[m].start; }
    }
  }

  lemma {:induction false} BodyOfBlock(lines: seq<string>, blocks: seq<Block>, s: nat, n: nat)
    requires s <= n <= |lines| && blocks != [] && blocks[|blocks| - 1] == Block(s, blocks[|blocks| - 1].end)
    requires n <= blocks[|blocks| - 1].end
    ensures BodyLines(lines, blocks, n) == BodyLines(lines, blocks, s)
  {
    if n > s {
      BodyOfBlock(lines, blocks, s, n - 1);
      assert blocks[|blocks| - 1].start <= n - 1 < blocks[|blocks| - 1].end;
      assert InBlock(n - 1, blocks);
    }
  }

  lemma InEarlierBlock(i: nat, init: seq<Block>, blocks: seq<Block>)
    requires blocks != [] && init == blocks[..|blocks| - 1] && i < blocks[|blocks| - 1].start
    ensures InBlock(i, init) <==> InBlock(i, blocks)
  {
  }

  /** A last block that starts at or after n does not touch the lines before n. */
  lemma {:induction false} SameBody(lines: seq<string>, init: seq<Block>, blocks: seq<Block>, n: nat)
    requires n <= |lines| && blocks != [] && init == blocks[..|blocks| - 1] && n <= blocks[|blocks| - 1].start
    ensures BodyLines(lines, init, n) == BodyLines(lines, blocks, n)
  {
    hide InBlock;
    if n > 0 {
      SameBody(lines, init, blocks, n - 1);
      InEarlierBlock(n - 1, init, blocks);
    }
  }

  /** Tables and body partition the lines: together they hold every line as often as the section. */
  lemma TablesAndBodyPartition(lines: seq<string>, blocks: seq<Block>, white: White)
    requires AreTableBlocks(blocks, lines, |lines|, white)
    ensures forall k :: 0 <= k < |blocks| ==> blocks[k].start <= blocks[k].end <= |lines|
    ensures multiset(BodyLines(lines, blocks, |lines|)) + multiset(BlockLines(lines, blocks)) == multiset(lines)
  {
    hide IsTableLine, IsBlank;
    BodyAndBlocks(lines, blocks, |lines|);
    assert lines[..|lines|] == lines;
  }

  method CollectBody(lines: seq<string>, blocks: seq<Block>) returns (body: seq<string>)
    ensures body == BodyLines(lines, blocks, |lines|)
  {
    body := [];
    for i := 0 to |lines|
      invariant body == BodyLines(lines, blocks, i)
    {
      if !InBlock(i, blocks) {
        body := body + [lines[i]];
      }
    }
  }

  // ---- Merging small chunks -----------------------------------------------------------------------

  const MIN_CHUNK_CHARS := 120

  datatype RawChunk = RawChunk(text: string, pageStart: int, pageEnd: int, isTable: bool)

  datatype Chunk = Chunk(text: string, pageStart: int, pageEnd: int, isTable: bool, chunkIndex: nat)

  /** Removing the page markers and stripping; which markers there are is a parameter. */
  type Clean = string -> string

  /** The chunks that still hold text once cleaned, with that text. */
  function Cleaned(raw: seq<RawChunk>, clean: Clean): seq<RawChunk> {
    if raw == [] then []
    else
      var last := raw[|raw| - 1];
      Cleaned(raw[..|raw| - 1], clean)
      + if clean(last.text) == [] then [] else [RawChunk(clean(last.text), last.pageStart, last.pageEnd, last.isTable)]
  }

  /** A piece too small to stand alone; tables always stand alone. */
  predicate IsFragment(piece: RawChunk) {
    !piece.isTable && |piece.text| < MIN_CHUNK_CHARS
  }

  type Group = g: seq<RawChunk> | g != [] witness [RawChunk([], 0, 0, false)]

  /** The pieces in consecutive groups: a fragment joins the group before it. */
  function Groups(pieces: seq<RawChunk>): (groups: seq<Group>)
    ensures groups == [] <==> pieces == []
  {
    if pieces == [] then []
    else
      var n := |pieces| - 1;
      var groups := Groups(pieces[..n]);
      if groups != [] && IsFragment(pieces[n]) then groups[..|groups| - 1] + [groups[|groups| - 1] + [pieces[n]]]
      else groups + [[pieces[n]]]
  }

  function Flatten(groups: seq<Group>): seq<RawChunk> {
    if groups == [] then [] else Flatten(groups[..|groups| - 1]) + groups[|groups| - 1]
  }

  /** The groups hold every piece once and in order. */
  lemma {:induction false} GroupsPartition(pieces: seq<RawChunk>)
    ensures Flatten(Groups(pieces)) == pieces
  {
    hide Flatten, IsFragment;
    if pieces == [] {
      assert Flatten([]) == [] by { FlattenNothing(); }
    } else {
      var n := |pieces| - 1;
      GroupsPartition(pieces[..n]);
      var groups := Groups(pieces[..n]);
      assert pieces == pieces[..n] + [pieces[n]];
      FlattenAppend(groups, [pieces[n]]);
      if groups != [] { FlattenGrow(groups, pieces[n]); }
    }
  }

  lemma FlattenNothing()
    ensures Flatten([]) == []
  {
  }

  lemma FlattenGrow(groups: seq<Group>, piece: RawChunk)
    requires groups != []
    ensures Flatten(groups[..|groups| - 1] + [groups[|groups| - 1] + [piece]]) == Flatten(groups) + [piece]
  {
    var m := |groups| - 1;
    var grown: Group := groups[m] + [piece];
    FlattenAppend(groups[..m], grown);
    assert Flatten(groups[..m]) + (groups[m] + [piece]) == (Flatten(groups[..m]) + groups[m]) + [piece];
  }

  lemma FlattenAppend(groups: seq<Group>, g: Group)
    ensures Flatten(groups + [g]) == Flatten(groups) + g
  {
  }

  /** Every group after the first opens with a table or with at least 120 characters, and only
      fragments follow the opening piece. */
  lemma {:induction false} OnlyFirstGroupIsSmall(pieces: seq<RawChunk>)
    ensures forall k :: 0 < k < |Groups(pieces)| ==> !IsFragment(Groups(pieces)[k][0])
    ensures forall k, i :: 0 <= k < |Groups(pieces)| && 0 < i < |Groups(pieces)[k]| ==> IsFragment(Groups(pieces)[k][i])
  {
    hide IsFragment;
    if pieces != [] { OnlyFirstGroupIsSmall(pieces[..|pieces| - 1]); }
  }

  /** The texts of a group joined by single spaces. */
  function Joined(group: Group): string {
    if |group| == 1 then group[0].text else Joined(group[..|group| - 1]) + " " + group[|group| - 1].text
  }

  function ChunkOf(group: Group, clean: Clean, index: nat): Chunk {
    Chunk(clean(Joined(group)), group[0].pageStart, group[|group| - 1].pageEnd, group[0].isTable, index)
  }

  /** The stored chunks: one per group that still holds text, numbered in order. */
  function Stored(groups: seq<Group>, clean: Clean): (chunks: seq<Chunk>)
    ensures forall k :: 0 <= k < |chunks| ==> chunks[k].chunkIndex == k
  {
    if groups == [] then []
    else
      var init, g := Stored(groups[..|groups| - 1], clean), groups[|groups| - 1];
      if clean(Joined(g)) == [] then init else init + [ChunkOf(g, clean, |init|)]
  }

  /** What the loop's variables say about the pieces seen: the last group is pending. */
  ghost predicate MergeLoop(pieces: seq<RawChunk>, result: seq<Chunk>, pending: Option<RawChunk>, clean: Clean) {
    var groups := Groups(pieces);
    if pieces == [] then pending == None && result == []
    else
      var g := groups[|groups| - 1];
      && pending == Some(RawChunk(Joined(g), g[0].pageStart, g[|g| - 1].pageEnd, g[0].isTable))
      && result == Stored(groups[..|groups| - 1], clean)
  }

  lemma MergeFragment(pieces: seq<RawChunk>, result: seq<Chunk>, pending: RawChunk, clean: Clean, piece: RawChunk)
    requires MergeLoop(pieces, result, Some(pending), clean) && IsFragment(piece)
    ensures MergeLoop(pieces + [piece], result,
                      Some(RawChunk(pending.text + " " + piece.text, pending.pageStart, piece.pageEnd, pending.isTable)), clean)
  {
    hide IsFragment, Stored;
    assert (pieces + [piece])[..|pieces|] == pieces;
    var groups := Groups(pieces);
    var m := |groups| - 1;
    var grown: Group := groups[m] + [piece];
    assert Groups(pieces + [piece]) == groups[..m] + [grown];
    assert (groups[..m] + [grown])[..m] == groups[..m];
    assert grown[..|grown| - 1] == groups[m];
  }

  lemma MergeStart(clean: Clean, piece: RawChunk)
    requires MergeLoop([], [], None, clean)
    ensures MergeLoop([] + [piece], [], Some(piece), clean)
  {
  }

  lemma MergeFlush(pieces: seq<RawChunk>, result: seq<Chunk>, pending: RawChunk, clean: Clean, piece: RawChunk)
    requires MergeLoop(pieces, result, Some(pending), clean) && !IsFragment(piece)
    ensures MergeLoop(pieces + [piece], Flush(result, pending, clean), Some(piece), clean)
  {
    hide IsFragment, Stored;
    assert (pieces + [piece])[..|pieces|] == pieces;
    var groups := Groups(pieces);
    FlushIsStored(groups, result, pending, clean);
    var single: Group := [piece];
    assert Groups(pieces + [piece]) == groups + [single];
    assert (groups + [single])[..|groups|] == groups;
    assert Joined(single) == piece.text;
  }

  /** Appending the pending chunk, unless cleaning leaves nothing of it. */
  function Flush(result: seq<Chunk>, pending: RawChunk, clean: Clean): seq<Chunk> {
    var text := clean(pending.text);
    if text == [] then result
    else result + [Chunk(text, pending.pageStart, pending.pageEnd, pending.isTable, |result|)]
  }

  lemma FlushIsStored(groups: seq<Group>, result: seq<Chunk>, pending: RawChunk, clean: Clean)
    requires groups != [] && result == Stored(groups[..|groups| - 1], clean)
    requires var g := groups[|groups| - 1];
             pending == RawChunk(Joined(g), g[0].pageStart, g[|g| - 1].pageEnd, g[0].isTable)
    ensures Flush(result, pending, clean) == Stored(groups, clean)
  {
  }

  lemma CleanedAppend(raw: seq<RawChunk>, r: RawChunk, clean: Clean)
    ensures Cleaned(raw + [r], clean)
            == Cleaned(raw, clean)
               + if clean(r.text) == [] then [] else [RawChunk(clean(r.text), r.pageStart, r.pageEnd, r.isTable)]
  {
  }

  /** The last loop of prepare_chunks: fragments are appended to the chunk before them. */
  method MergeSmall(raw: seq<RawChunk>, clean: Clean) returns (result: seq<Chunk>)
    ensures result == Stored(Groups(Cleaned(raw, clean)), clean)
  {
    hide MergeLoop, Cleaned, Groups, Stored;
    result := [];
    var pending: Option<RawChunk> := None;
    MergeNothing(clean);
    for i := 0 to |raw|
      invariant MergeLoop(Cleaned(raw[..i], clean), result, pending, clean)
    {
      ghost var seen := Cleaned(raw[..i], clean);
      CleanedAppend(raw[..i], raw[i], clean);
      assert raw[..i + 1] == raw[..i] + [raw[i]];
      var text := clean(raw[i].text);
      if text == [] {
        assert seen + [] == seen;
        continue;
      }
      var piece := RawChunk(text, raw[i].pageStart, raw[i].pageEnd, raw[i].isTable);
      if IsFragment(piece) && pending.Some? {
        MergeFragment(seen, result, pending.value, clean, piece);
        var p := pending.value;
        pending := Some(RawChunk(p.text + " " + text, p.pageStart, piece.pageEnd, p.isTable));
        continue;
      }
      if pending.Some? {
        MergeFlush(seen, result, pending.value, clean, piece);
        result := Flush(result, pending.value, clean);
      } else {
        PendingNone(seen, result, clean);
        MergeStart(clean, piece);
      }
      pending := Some(piece);
    }
    assert raw[..|raw|] == raw;
    MergeEnd(Cleaned(raw, clean), result, pending, clean);
    if pending.Some? {
      result := Flush(result, pending.value, clean);
    }
  }

  lemma MergeNothing(clean: Clean)
    ensures MergeLoop(Cleaned([], clean), [], None, clean)
    ensures MergeLoop([], [], None, clean)
  {
  }

  lemma PendingNone(seen: seq<RawChunk>, result: seq<Chunk>, clean: Clean)
    requires MergeLoop(seen, result, None, clean)
    ensures seen == [] && result == []
  {
  }

  lemma MergeEnd(seen: seq<RawChunk>, result: seq<Chunk>, pending: Option<RawChunk>, clean: Clean)
    requires MergeLoop(seen, result, pending, clean)
    ensures Stored(Groups(seen), clean) == if pending.Some? then Flush(result, pending.value, clean) else result
  {
  }

  // ---- Which pieces share a chunk --------------------------------------------------------------

  /** The group that piece k is in. */
  function GroupOf(pieces: seq<RawChunk>, k: nat): int
    requires k < |pieces|
  {
    |Groups(pieces[..k + 1])| - 1
  }

  /** g is opened by piece k, and is alone in its group exactly when no fragment follows. */
  ghost predicate OpenedBy(pieces: seq<RawChunk>, k: nat)
    requires k < |pieces|
  {
    var i, groups := GroupOf(pieces, k), Groups(pieces);
    var alone := k + 1 == |pieces| || !IsFragment(pieces[k + 1]);
    && 0 <= i < |groups| && groups[i][0] == pieces[k]
    && (|groups[i]| == 1 <==> alone)
    && (alone && k + 1 < |pieces| ==> i < |groups| - 1)
    && (k + 1 == |pieces| ==> i == |groups| - 1)
  }

  lemma OpenedLast(pieces: seq<RawChunk>)
    requires pieces != [] && !IsFragment(pieces[|pieces| - 1])
    ensures OpenedBy(pieces, |pieces| - 1)
  {
    hide IsFragment;
    assert pieces[..|pieces|] == pieces;
  }

  lemma OpenedStep(pieces: seq<RawChunk>, k: nat)
    requires k < |pieces| - 1 && OpenedBy(pieces[..|pieces| - 1], k)
    ensures OpenedBy(pieces, k)
  {
    hide IsFragment;
    var init := pieces[..|pieces| - 1];
    assert init[..k + 1] == pieces[..k + 1];
    assert k + 1 < |init| ==> init[k + 1] == pieces[k + 1];
  }

  lemma {:induction false} OpensItsGroup(pieces: seq<RawChunk>, k: nat)
    requires k < |pieces| && !IsFragment(pieces[k])
    ensures OpenedBy(pieces, k)
    decreases |pieces|
  {
    hide IsFragment, OpenedBy;
    if k == |pieces| - 1 {
      OpenedLast(pieces);
    } else {
      OpensItsGroup(pieces[..|pieces| - 1], k);
      OpenedStep(pieces, k);
    }
  }

  lemma {:induction false} JoinedLength(group: Group)
    ensures |Joined(group)| >= |group[0].text|
    ensures |group| > 1 ==> |Joined(group)| > |group[0].text|
    ensures |group| == 1 ==> Joined(group) == group[0].text
  {
    if |group| > 1 {
      var init: Group := group[..|group| - 1];
      JoinedLength(init);
    }
  }

  /** The chunk of table piece k is that table alone exactly when no fragment follows it; otherwise
      the fragment is appended to the table's chunk, which keeps its table flag. */
  lemma TableAbsorbsIff(pieces: seq<RawChunk>, k: nat, clean: Clean, index: nat)
    requires k < |pieces| && pieces[k].isTable
    requires var i := GroupOf(pieces, k);
             0 <= i < |Groups(pieces)| ==> clean(Joined(Groups(pieces)[i])) == Joined(Groups(pieces)[i])
    ensures var i := GroupOf(pieces, k);
            && 0 <= i < |Groups(pieces)|
            && var chunk := ChunkOf(Groups(pieces)[i], clean, index);
            && chunk.isTable
            && (chunk.text == pieces[k].text <==> k + 1 == |pieces| || !IsFragment(pieces[k + 1]))
  {
    hide Groups, Joined;
    OpensItsGroup(pieces, k);
    JoinedLength(Groups(pieces)[GroupOf(pieces, k)]);
  }

  /** The pieces are the raw chunks at the kept indices, in order and once each, with cleaned text,
      and exactly the chunks that still hold text are kept. */
  ghost predicate KeptFrom(raw: seq<RawChunk>, clean: Clean, pieces: seq<RawChunk>, kept: seq<nat>) {
    && |kept| == |pieces| && (forall j, k :: 0 <= j < k < |kept| ==> kept[j] < kept[k])
    && (forall k :: 0 <= k < |kept| ==> IsCleaned(raw, clean, pieces[k], kept[k]))
    && forall i: nat :: i < |raw| ==> (i in kept <==> clean(raw[i].text) != [])
  }

  ghost predicate IsCleaned(raw: seq<RawChunk>, clean: Clean, piece: RawChunk, i: nat) {
    && i < |raw| && piece.text == clean(raw[i].text) != []
    && piece.pageStart == raw[i].pageStart && piece.pageEnd == raw[i].pageEnd && piece.isTable == raw[i].isTable
  }

  lemma KeptGrows(raw: seq<RawChunk>, r: RawChunk, clean: Clean, pieces: seq<RawChunk>, kept: seq<nat>)
    requires KeptFrom(raw, clean, pieces, kept)
    ensures clean(r.text) == [] ==> KeptFrom(raw + [r], clean, pieces, kept)
    ensures clean(r.text) != [] ==>
              KeptFrom(raw + [r], clean, pieces + [RawChunk(clean(r.text), r.pageStart, r.pageEnd, r.isTable)], kept + [|raw|])
  {
    assert forall k :: 0 <= k < |kept| ==> IsCleaned(raw, clean, pieces[k], kept[k]) && IsCleaned(raw + [r], clean, pieces[k], kept[k]);
    assert |raw| !in kept;
  }

  /** Cleaning keeps every chunk that still holds text, its pages and its table flag. */
  lemma {:induction false} CleanedKeepsText(raw: seq<RawChunk>, clean: Clean) returns (kept: seq<nat>)
    ensures KeptFrom(raw, clean, Cleaned(raw, clean), kept)
  {
    kept := [];
    if raw != [] {
      var init, r := raw[..|raw| - 1], raw[|raw| - 1];
      kept := CleanedKeepsText(init, clean);
      KeptGrows(init, r, clean, Cleaned(init, clean), kept);
      hide KeptFrom;
      assert init + [r] == raw;
      if clean(r.text) != [] { kept := kept + [|init|]; }
    }
  }

  /** Pages never decrease along the pieces. */
  ghost predicate PagesAscend(pieces: seq<RawChunk>) {
    && (forall i :: 0 <= i < |pieces| ==> pieces[i].pageStart <= pieces[i].pageEnd)
    && forall i, j :: 0 <= i < j < |pieces| ==> pieces[i].pageStart <= pieces[j].pageStart && pieces[i].pageEnd <= pieces[j].pageEnd
  }

  /** A stored chunk spans exactly the pages of its pieces: all of them lie in its range, and both
      ends are a piece's. */
  lemma ChunkSpansItsPages(group: Group, clean: Clean, index: nat)
    requires PagesAscend(group)
    ensures var chunk := ChunkOf(group, clean, index);
            && (forall i :: 0 <= i < |group| ==> chunk.pageStart <= group[i].pageStart && group[i].pageEnd <= chunk.pageEnd)
            && (exists i :: 0 <= i < |group| && group[i].pageStart == chunk.pageStart)
            && (exists i :: 0 <= i < |group| && group[i].pageEnd == chunk.pageEnd)
  {
    hide Joined;
    assert group[0].pageStart == ChunkOf(group, clean, index).pageStart;
    assert group[|group| - 1].pageEnd == ChunkOf(group, clean, index).pageEnd;
  }

  /** Every piece of a group stands in the joined text, one space after the piece before it. */
  lemma {:induction false} JoinedHoldsPieces(group: Group, k: nat) returns (p: nat)
    requires k < |group|
    ensures FoundAt(Joined(group), group[k].text, p)
    ensures k == 0 ==> p == 0
    ensures k > 0 ==> p > 0 && Joined(group)[p - 1] == ' '
    ensures k == |group| - 1 ==> p + |group[k].text| == |Joined(group)|
    decreases |group|
  {
    var n := |group| - 1;
    if k < n {
      var init: Group := group[..n];
      p := JoinedHoldsPieces(init, k);
      assert Joined(group)[p..p + |group[k].text|] == Joined(init)[p..p + |group[k].text|];
    } else if n == 0 {
      p := 0;
    } else {
      var init: Group := group[..n];
      p := |Joined(init)| + 1;
      assert Joined(group)[p..] == group[n].text;
    }
  }

  // ---- Short chunks ----------------------------------------------------------------------------

  /** The final cleaning leaves every joined group as it is. */
  ghost predicate JoinsAreClean(groups: seq<Group>, clean: Clean) {
    forall k :: 0 <= k < |groups| ==> clean(Joined(groups[k])) == Joined(groups[k])
  }

  ghost predicate NoneEmpty(groups: seq<Group>) {
    forall k :: 0 <= k < |groups| ==> groups[k][0].text != []
  }

  lemma {:induction false} CleanedNotEmpty(raw: seq<RawChunk>, clean: Clean)
    ensures forall k :: 0 <= k < |Cleaned(raw, clean)| ==> Cleaned(raw, clean)[k].text != []
  {
    if raw != [] { CleanedNotEmpty(raw[..|raw| - 1], clean); }
  }

  lemma {:induction false} GroupHeadsArePieces(pieces: seq<RawChunk>)
    requires forall k :: 0 <= k < |pieces| ==> pieces[k].text != []
    ensures NoneEmpty(Groups(pieces))
  {
    hide IsFragment;
    if pieces != [] { GroupHeadsArePieces(pieces[..|pieces| - 1]); }
  }

  /** Then every group is stored, at its own index. */
  lemma {:induction false} EveryGroupIsStored(groups: seq<Group>, clean: Clean)
    requires JoinsAreClean(groups, clean) && NoneEmpty(groups)
    ensures |Stored(groups, clean)| == |groups|
    ensures forall k :: 0 <= k < |groups| ==> Stored(groups, clean)[k] == ChunkOf(groups[k], clean, k)
  {
    if groups != [] {
      var n := |groups| - 1;
      EveryGroupIsStored(groups[..n], clean);
      JoinedLength(groups[n]);
      hide Joined;
      assert Stored(groups, clean) == Stored(groups[..n], clean) + [ChunkOf(groups[n], clean, n)];
    }
  }

  /** Only the first stored chunk can be a short non-table chunk, as long as joining pieces forms
      nothing that the final cleaning removes. */
  lemma OnlyFirstChunkIsShort(raw: seq<RawChunk>, clean: Clean, k: nat)
    requires JoinsAreClean(Groups(Cleaned(raw, clean)), clean)
    requires 0 < k < |Stored(Groups(Cleaned(raw, clean)), clean)|
    ensures var chunk := Stored(Groups(Cleaned(raw, clean)), clean)[k];
            chunk.isTable || |chunk.text| >= MIN_CHUNK_CHARS
  {
    hide Cleaned, Groups, Stored, Joined;
    var pieces := Cleaned(raw, clean);
    CleanedNotEmpty(raw, clean);
    GroupHeadsArePieces(pieces);
    EveryGroupIsStored(Groups(pieces), clean);
    OnlyFirstGroupIsSmall(pieces);
    JoinedLength(Groups(pieces)[k]);
  }

  // ---- Page markers -----------------------------------------------------------------------------

  predicate StartsWith(text: string, prefix: string) {
    |prefix| <= |text| && text[..|prefix|] == prefix
  }

  /** How many leading characters satisfy a predicate. */
  function Run(text: string, p: char -> bool): (n: nat)
    ensures n <= |text|
  {
    if text != [] && p(text[0]) then 1 + Run(text[1..], p) else 0
  }

  predicate IsDigit(c: char) {
    '0' <= c <= '9'
  }

  /** The end of a page marker that starts here: ---, PAGE and a number, --- up to the line's end. */
  function MarkerEnd(text: string, white: White): (end: Option<nat>)
    ensures end.Some? ==> 0 < end.value <= |text|
  {
    if !StartsWith(text, "---") then None
    else
      var i := 3 + Run(text[3..], white);
      if !StartsWith(text[i..], "PAGE") then None
      else
        var j := i + 4;
        var k := j + Run(text[j..], white);
        var l := k + Run(text[k..], IsDigit);
        var m := l + Run(text[l..], white);
        if k == j || l == k || !StartsWith(text[m..], "---") || (m + 3 < |text| && text[m + 3] != '\n') then None
        else Some(m + 3)
  }

  /** All markers at line starts deleted; `lineStart` says whether the text begins a line. */
  function RemoveMarkers(text: string, lineStart: bool, white: White): string
    decreases |text|
  {
    if text == [] then []
    else
      var end := MarkerEnd(text, white);
      if lineStart && end.Some? then RemoveMarkers(text[end.value..], false, white)
      else [text[0]] + RemoveMarkers(text[1..], text[0] == '\n', white)
  }

  function CleanText(white: White): Clean {
    text => Strip(RemoveMarkers(text, true, white), white)
  }

  /** Blanks and line ends are white space; letters, digits and dashes are not. */
  ghost predicate UsualWhite(white: White) {
    white(' ') && white('\n') && !white('-') && !white('a') && !white('E') && !white('P') && !white('3')
  }

  /** n times the letter a. */
  function Letters(n: nat): (text: string)
    ensures |text| == n && forall i :: 0 <= i < n ==> text[i] == 'a'
  {
    if n == 0 then "" else "a" + Letters(n - 1)
  }

  /** Away from a line start nothing is deleted. */
  lemma {:induction false} OneLineStays(text: string, white: White)
    requires forall i :: 0 <= i < |text| ==> text[i] != '\n'
    ensures RemoveMarkers(text, false, white) == text
  {
    if text != [] {
      OneLineStays(text[1..], white);
      assert text == [text[0]] + text[1..];
    }
  }

  lemma {:induction false} LettersStay(n: nat, rest: string, lineStart: bool, white: White)
    requires n > 0
    ensures RemoveMarkers(Letters(n) + rest, lineStart, white) == Letters(n) + RemoveMarkers(rest, false, white)
  {
    var text := Letters(n) + rest;
    assert text[0] == 'a' && text[1..] == Letters(n - 1) + rest;
    assert MarkerEnd(text, white).None? by { NoMarkerOnOther(text, white); }
    hide MarkerEnd;
    assert RemoveMarkers(text, lineStart, white) == [text[0]] + RemoveMarkers(text[1..], false, white);
    if n == 1 {
      assert text[1..] == rest;
    } else {
      LettersStay(n - 1, rest, false, white);
    }
  }

  lemma NoMarkerOnOther(text: string, white: White)
    requires text != [] && text[0] != '-'
    ensures MarkerEnd(text, white).None?
  {
  }

  lemma BreakStays(line: string, white: White)
    ensures RemoveMarkers("\n" + line, false, white) == "\n" + RemoveMarkers(line, true, white)
  {
    hide MarkerEnd;
    assert ("\n" + line)[1..] == line;
  }

  lemma PlainLineStays(line: string, white: White)
    requires line != [] && MarkerEnd(line, white).None? && forall i :: 0 <= i < |line| ==> line[i] != '\n'
    ensures RemoveMarkers(line, true, white) == line
  {
    hide MarkerEnd;
    OneLineStays(line[1..], white);
    assert line == [line[0]] + line[1..];
  }

  lemma MarkerGoes(line: string, white: White)
    requires line != [] && MarkerEnd(line, white) == Some(|line|)
    ensures RemoveMarkers(line, true, white) == ""
  {
    hide MarkerEnd;
    assert line[|line|..] == "";
  }

  const HALF_MARKER := "--- PAGE"
  const OTHER_HALF := "3 ---"
  const MARKER := "--- PAGE 3 ---"

  lemma RunStops(text: string, p: char -> bool)
    ensures text != [] && !p(text[0]) ==> Run(text, p) == 0
    ensures |text| > 1 && p(text[0]) && !p(text[1]) ==> Run(text, p) == 1
    ensures |text| == 0 ==> Run(text, p) == 0
  {
    if |text| > 1 { assert text[1..][0] == text[1]; }
  }

  /** The scan of a marker, part by part. */
  lemma MarkerParts(text: string, white: White, i: nat, k: nat, l: nat, m: nat)
    requires StartsWith(text, "---") && i == 3 + Run(text[3..], white) <= i + 4 < k < l <= m && m + 3 == |text|
    requires StartsWith(text[i..], "PAGE") && k == i + 4 + Run(text[i + 4..], white)
    requires l == k + Run(text[k..], IsDigit) && m == l + Run(text[l..], white) && StartsWith(text[m..], "---")
    ensures MarkerEnd(text, white) == Some(|text|)
  {
    hide Run;
  }

  lemma NoPageNumber(text: string, white: White, i: nat)
    requires StartsWith(text, "---") && i == 3 + Run(text[3..], white) && i + 4 <= |text|
    requires Run(text[i + 4..], white) == 0
    ensures MarkerEnd(text, white).None?
  {
    hide Run;
  }

  lemma HalfIsNoMarker(white: White)
    requires UsualWhite(white)
    ensures MarkerEnd(HALF_MARKER, white).None? && MarkerEnd(OTHER_HALF, white).None?
  {
    hide Run, MarkerEnd;
    var h := HALF_MARKER;
    assert h[3..] == " PAGE" && h[8..] == "";
    RunStops(h[3..], white);
    RunStops(h[8..], white);
    NoPageNumber(h, white, 4);
    NoMarkerOnOther(OTHER_HALF, white);
  }

  lemma MarkerIsMarker(white: White)
    requires UsualWhite(white)
    ensures MarkerEnd(MARKER, white) == Some(|MARKER|)
  {
    hide Run, MarkerEnd;
    var m := MARKER;
    assert m[3..] == " PAGE 3 ---" && m[4..] == "PAGE 3 ---" && m[8..] == " 3 ---" && m[9..] == "3 ---";
    assert m[10..] == " ---" && m[11..] == "---";
    RunStops(m[3..], white);
    RunStops(m[8..], white);
    RunStops(m[9..], IsDigit);
    RunStops(m[10..], white);
    MarkerParts(m, white, 4, 9, 10, 11);
  }

  lemma CleanLine(text: string, white: White)
    requires UsualWhite(white) && text != [] && !white(text[0]) && !white(text[|text| - 1])
    requires RemoveMarkers(text, true, white) == text
    ensures CleanText(white)(text) == text
  {
  }

  lemma StripBreak(text: string, white: White)
    requires UsualWhite(white) && text != [] && !white(text[0]) && !white(text[|text| - 1])
    ensures Strip(text + "\n", white) == text
  {
    assert (text + "\n")[..|text|] == text;
  }

  lemma CleanLetters(n: nat, white: White)
    requires n > 0 && UsualWhite(white)
    ensures CleanText(white)(Letters(n)) == Letters(n)
  {
    hide MarkerEnd, Strip, RemoveMarkers;
    LettersStay(n, "", true, white);
    NothingStays(white);
    assert Letters(n) + "" == Letters(n);
    CleanLine(Letters(n), white);
  }

  lemma CleanHalf(n: nat, white: White)
    requires n > 0 && UsualWhite(white)
    ensures CleanText(white)(Letters(n) + ("\n" + HALF_MARKER)) == Letters(n) + ("\n" + HALF_MARKER)
  {
    hide MarkerEnd, Strip, RemoveMarkers, CleanText;
    HalfIsNoMarker(white);
    PlainLineStays(HALF_MARKER, white);
    BreakStays(HALF_MARKER, white);
    LettersStay(n, "\n" + HALF_MARKER, true, white);
    CleanLine(Letters(n) + ("\n" + HALF_MARKER), white);
  }

  lemma CleanOther(white: White)
    requires UsualWhite(white)
    ensures CleanText(white)(OTHER_HALF) == OTHER_HALF
  {
    hide MarkerEnd, Strip, RemoveMarkers, CleanText;
    HalfIsNoMarker(white);
    PlainLineStays(OTHER_HALF, white);
    CleanLine(OTHER_HALF, white);
  }

  lemma CleanMarker(n: nat, white: White)
    requires n > 0 && UsualWhite(white)
    ensures CleanText(white)(Letters(n) + ("\n" + MARKER)) == Letters(n)
  {
    hide MarkerEnd, Strip, RemoveMarkers;
    MarkerIsMarker(white);
    MarkerGoes(MARKER, white);
    BreakStays(MARKER, white);
    LettersStay(n, "\n" + MARKER, true, white);
    assert "\n" + "" == "\n";
    StripBreak(Letters(n), white);
  }

  lemma NothingStays(white: White)
    ensures RemoveMarkers("", false, white) == ""
  {
  }

  /** The hypothesis matters: a chunk of 120 or more characters that ends in half a marker is
      joined to a fragment with the other half; the marker is removed, and what is stored as the
      second chunk is shorter than 120. */
  lemma JoinCanShortenChunk(n: nat, white: White)
    requires 111 <= n < 120 && UsualWhite(white)
    ensures var raw := [RawChunk(Letters(120), 1, 1, false), RawChunk(Letters(n) + ("\n" + HALF_MARKER), 1, 1, false),
                        RawChunk(OTHER_HALF, 1, 1, false)];
            Stored(Groups(Cleaned(raw, CleanText(white))), CleanText(white))
            == [Chunk(Letters(120), 1, 1, false, 0), Chunk(Letters(n), 1, 1, false, 1)]
  {
    CleanLetters(120, white);
    CleanHalf(n, white);
    CleanOther(white);
    CleanMarker(n, white);
    HalvesJoin(Letters(n));
    hide CleanText, Letters, MarkerEnd, Cleaned, Groups, Stored, Joined, UsualWhite;
    ShortSecond(Letters(120), Letters(n) + ("\n" + HALF_MARKER), OTHER_HALF, Letters(n), CleanText(white));
  }

  lemma HalvesJoin(text: string)
    ensures text + ("\n" + HALF_MARKER) + " " + OTHER_HALF == text + ("\n" + MARKER)
  {
    assert HALF_MARKER + " " + OTHER_HALF == MARKER;
  }

  lemma ShortSecond(a: string, b: string, c: string, left: string, clean: Clean)
    requires clean(a) == a && clean(b) == b && clean(c) == c && clean(b + " " + c) == left
    requires |b| >= MIN_CHUNK_CHARS && 0 < |c| < MIN_CHUNK_CHARS && a != [] && left != []
    ensures Stored(Groups(Cleaned([RawChunk(a, 1, 1, false), RawChunk(b, 1, 1, false), RawChunk(c, 1, 1, false)], clean)), clean)
            == [Chunk(a, 1, 1, false, 0), Chunk(left, 1, 1, false, 1)]
  {
    var p, q, r := RawChunk(a, 1, 1, false), RawChunk(b, 1, 1, false), RawChunk(c, 1, 1, false);
    hide Cleaned, Groups, Stored;
    CleanedThree(p, q, r, clean);
    GroupsOfThree(p, q, r);
    var g, h: Group := [p], [q, r];
    JoinedTwo(q, r);
    assert Joined(g) == a;
    StoredTwo(g, h, clean);
  }

  lemma JoinedTwo(q: RawChunk, r: RawChunk)
    ensures Joined([q, r]) == q.text + " " + r.text
  {
    assert [q, r][..1] == [q];
  }

  lemma CleanedThree(p: RawChunk, q: RawChunk, r: RawChunk, clean: Clean)
    requires clean(p.text) == p.text != [] && clean(q.text) == q.text != [] && clean(r.text) == r.text != []
    ensures Cleaned([p, q, r], clean) == [p, q, r]
  {
    assert [p, q, r][..2] == [p, q] && [p, q][..1] == [p] && [p][..0] == [];
    assert Cleaned([p], clean) == [p] && Cleaned([p, q], clean) == [p, q];
  }

  lemma GroupsOfThree(p: RawChunk, q: RawChunk, r: RawChunk)
    requires !IsFragment(q) && IsFragment(r)
    ensures Groups([p, q, r]) == [[p], [q, r]]
  {
    hide IsFragment;
    assert [p, q, r][..2] == [p, q] && [p, q][..1] == [p] && [p][..0] == [];
    assert Groups([p]) == [[p]] && Groups([p, q]) == [[p], [q]];
    assert [q] + [r] == [q, r];
  }

  lemma StoredTwo(g: Group, h: Group, clean: Clean)
    requires clean(Joined(g)) != [] && clean(Joined(h)) != []
    ensures Stored([g, h], clean) == [ChunkOf(g, clean, 0), ChunkOf(h, clean, 1)]
  {
    hide Joined;
    assert [g, h][..1] == [g] && [g][..0] == [];
    assert Stored([g], clean) == [ChunkOf(g, clean, 0)];
  }
}
