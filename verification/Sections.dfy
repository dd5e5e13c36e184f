/** The section loop of analyse_document in services/rag/app/analyser.py. */
module Sections {
  import opened Options
  import opened Text

  const PARAGRAPH := "\n\n"

  function Concat(sections: seq<string>): string {
    if sections == [] then [] else Concat(sections[..|sections| - 1]) + sections[|sections| - 1]
  }

  /** A section that is not the last ends at the last paragraph break in the second half of its
      window, and at the end of the window if there is none. */
  ghost predicate IsCut(text: string, pos: int, end: int, size: int) {
    if end < pos + size then
      && end > pos + size / 2
      && FoundAt(text, PARAGRAPH, end)
      && end + 2 <= pos + size
      && forall i :: end < i && i + 2 <= pos + size ==> !FoundAt(text, PARAGRAPH, i)
    else
      && end == pos + size
      && forall i :: pos + size / 2 < i && i + 2 <= pos + size ==> !FoundAt(text, PARAGRAPH, i)
  }

  /** Where section k starts. */
  function Offset(sections: seq<string>, k: nat): nat
    requires k <= |sections|
  {
    |Concat(sections[..k])|
  }

  /** Cuts of a text: in order, nothing lost, nothing repeated. */
  ghost predicate Cuts(sections: seq<string>, text: string, size: int) {
    && Concat(sections) == text
    && (forall k :: 0 <= k < |sections| ==> 0 < |sections[k]| <= size)
    && (forall k :: 0 <= k < |sections| - 1 ==> IsCut(text, Offset(sections, k), Offset(sections, k + 1), size))
  }

  lemma ConcatAppend(sections: seq<string>, s: string)
    ensures Concat(sections + [s]) == Concat(sections) + s
  {
  }

  lemma OffsetAppend(sections: seq<string>, s: string, k: nat)
    requires k <= |sections|
    ensures Offset(sections + [s], k) == Offset(sections, k)
  {
    assert (sections + [s])[..k] == sections[..k];
  }

  /** The loop's state: everything before pos is cut. */
  ghost predicate CutSoFar(sections: seq<string>, text: string, pos: nat, size: int) {
    && pos < |text| && Concat(sections) == text[..pos]
    && (forall k :: 0 <= k < |sections| ==> 0 < |sections[k]| <= size)
    && (forall k :: 0 <= k < |sections| ==> IsCut(text, Offset(sections, k), Offset(sections, k + 1), size))
  }

  lemma CutMore(sections: seq<string>, text: string, pos: nat, end: nat, size: int)
    requires CutSoFar(sections, text, pos, size) && pos < end < |text| && end - pos <= size && IsCut(text, pos, end, size)
    ensures CutSoFar(sections + [text[pos..end]], text, end, size)
  {
    hide IsCut;
    var s := text[pos..end];
    var all := sections + [s];
    ConcatAppend(sections, s);
    assert text[..pos] + s == text[..end];
    forall k | 0 <= k < |all| ensures IsCut(text, Offset(all, k), Offset(all, k + 1), size) {
      OffsetAppend(sections, s, k);
      if k < |sections| {
        OffsetAppend(sections, s, k + 1);
      } else {
        assert sections[..k] == sections && all[..k + 1] == all;
      }
    }
  }

  lemma CutEnd(sections: seq<string>, text: string, pos: nat, size: int)
    requires CutSoFar(sections, text, pos, size) && |text| - pos <= size
    ensures Cuts(sections + [text[pos..]], text, size)
  {
    hide IsCut;
    var all := sections + [text[pos..]];
    ConcatAppend(sections, text[pos..]);
    assert text[..pos] + text[pos..] == text;
    forall k | 0 <= k < |all| - 1 ensures IsCut(text, Offset(all, k), Offset(all, k + 1), size) {
      OffsetAppend(sections, text[pos..], k);
      OffsetAppend(sections, text[pos..], k + 1);
    }
  }

  lemma CutNothing(text: string, size: int)
    requires text != []
    ensures CutSoFar([], text, 0, size)
  {
  }

  /** A blank document has no sections. */
  method SplitDocument(text: string, size: int, white: White) returns (sections: seq<string>)
    requires size >= 1
    ensures Strip(text, white) == [] ==> sections == []
    ensures Strip(text, white) != [] ==> Cuts(sections, text, size)
  {
    hide CutSoFar, Cuts, Strip;
    if Strip(text, white) == [] {
      return [];
    }
    sections := [];
    CutNothing(text, size);
    assert [] + [text] == [text] && text[0..] == text;
    if |text| <= size {
      CutEnd([], text, 0, size);
      return [text];
    }
    var pos := 0;
    while pos < |text|
      invariant 0 <= pos < |text| && CutSoFar(sections, text, pos, size)
      decreases |text| - pos
    {
      var end := pos + size;
      if end >= |text| {
        CutEnd(sections, text, pos, size);
        sections := sections + [text[pos..]];
        return;
      }
      var paraBreak := RFind(text, PARAGRAPH, pos, end);
      if paraBreak.Some? && paraBreak.value > pos + size / 2 {
        end := paraBreak.value;
      }
      CutMore(sections, text, pos, end, size);
      sections := sections + [text[pos..end]];
      pos := end;
    }
  }

  /** All sections but the last are longer than half the section size. */
  lemma SectionsFillHalf(sections: seq<string>, text: string, size: int, k: nat)
    requires size >= 1 && Cuts(sections, text, size) && k < |sections| - 1
    ensures 2 * |sections[k]| > size
  {
    hide Strip;
    assert IsCut(text, Offset(sections, k), Offset(sections, k + 1), size);
    assert sections[..k + 1] == sections[..k] + [sections[k]];
    ConcatAppend(sections[..k], sections[k]);
  }

  lemma OneMoreTimes(k: int, size: int)
    ensures (k + 1) * size == k * size + size
  {
  }

  /** Hence at most 2 * length / size + 1 sections. */
  lemma {:induction false} SectionCount(sections: seq<string>, text: string, size: int, k: nat)
    requires size >= 1 && Cuts(sections, text, size) && k < |sections|
    ensures k * size <= 2 * Offset(sections, k)
  {
    hide Cuts;
    if k > 0 {
      SectionCount(sections, text, size, k - 1);
      SectionsFillHalf(sections, text, size, k - 1);
      assert sections[..k] == sections[..k - 1] + [sections[k - 1]];
      ConcatAppend(sections[..k - 1], sections[k - 1]);
      OneMoreTimes(k - 1, size);
    }
  }
}
