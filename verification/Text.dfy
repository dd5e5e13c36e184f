/** Stripping and searching text.  What counts as white space is a parameter. */
module Text {
  import opened Options

  type White = char -> bool

  /** str.strip() */
  function Strip(text: string, white: White): (r: string)
    ensures |r| <= |text|
    ensures r == [] || (!white(r[0]) && !white(r[|r| - 1]))
  {
    if text == [] then []
    else if white(text[0]) then Strip(text[1..], white)
    else if white(text[|text| - 1]) then Strip(text[..|text| - 1], white)
    else text
  }

  ghost predicate AllWhite(text: string, lo: nat, hi: nat, white: White)
    requires lo <= hi <= |text|
  {
    forall i :: lo <= i < hi ==> white(text[i])
  }

  /** r is the text between i and j, and everything around it is white space. */
  ghost predicate IsMiddle(r: string, text: string, i: nat, j: nat, white: White) {
    i <= j <= |text| && r == text[i..j] && AllWhite(text, 0, i, white) && AllWhite(text, j, |text|, white)
  }

  lemma MiddleOfTail(r: string, text: string, i: nat, j: nat, white: White)
    requires text != [] && white(text[0]) && IsMiddle(r, text[1..], i, j, white)
    ensures IsMiddle(r, text, i + 1, j + 1, white)
  {
  }

  lemma MiddleOfInit(r: string, text: string, i: nat, j: nat, white: White)
    requires text != [] && white(text[|text| - 1]) && IsMiddle(r, text[..|text| - 1], i, j, white)
    ensures IsMiddle(r, text, i, j, white)
  {
  }

  /** Stripping removes white space at the two ends and nothing else. */
  lemma {:induction false} StripKeepsMiddle(text: string, white: White) returns (i: nat, j: nat)
    ensures IsMiddle(Strip(text, white), text, i, j, white)
  {
    hide IsMiddle;
    if text == [] {
      i, j := 0, 0;
      WholeMiddle(text, white);
    } else if white(text[0]) {
      i, j := StripKeepsMiddle(text[1..], white);
      MiddleOfTail(Strip(text[1..], white), text, i, j, white);
      i, j := i + 1, j + 1;
    } else if white(text[|text| - 1]) {
      i, j := StripKeepsMiddle(text[..|text| - 1], white);
      MiddleOfInit(Strip(text[..|text| - 1], white), text, i, j, white);
    } else {
      i, j := 0, |text|;
      WholeMiddle(text, white);
    }
  }

  lemma MiddleMeaning(r: string, text: string, i: nat, j: nat, white: White)
    requires IsMiddle(r, text, i, j, white)
    ensures i <= j <= |text| && r == text[i..j]
  {
  }

  /** A middle that starts and ends visibly is what stripping leaves. */
  lemma {:induction false} MiddleIsStripped(r: string, text: string, i: nat, j: nat, white: White)
    requires IsMiddle(r, text, i, j, white) && r != "" && !white(r[0]) && !white(r[|r| - 1])
    ensures Strip(text, white) == r
    decreases |text|
  {
    assert text[i] == r[0] && text[j - 1] == r[|r| - 1];
    if white(text[0]) {
      assert text[1..][i - 1..j - 1] == text[i..j];
      MiddleIsStripped(r, text[1..], i - 1, j - 1, white);
    } else if white(text[|text| - 1]) {
      assert text[..|text| - 1][i..j] == text[i..j];
      MiddleIsStripped(r, text[..|text| - 1], i, j, white);
    } else {
      assert i == 0 && j == |text|;
    }
  }

  lemma WholeMiddle(text: string, white: White)
    ensures IsMiddle(text, text, 0, |text|, white)
  {
  }

  /** pattern stands at index i. */
  predicate FoundAt(text: string, pattern: string, i: int) {
    0 <= i && i + |pattern| <= |text| && text[i..i + |pattern|] == pattern
  }

  /** text.rfind(pattern, from, end): the last occurrence inside the range. */
  function RFind(text: string, pattern: string, from: nat, end: nat): (r: Option<nat>)
    requires end <= |text|
    ensures r.Some? ==> from <= r.value && r.value + |pattern| <= end && FoundAt(text, pattern, r.value)
    ensures (forall i :: (if r.Some? then r.value < i else from <= i) && i + |pattern| <= end ==> !FoundAt(text, pattern, i))
  {
    if end < from + |pattern| then None
    else if FoundAt(text, pattern, end - |pattern|) then Some(end - |pattern|)
    else if end == 0 then None
    else RFind(text, pattern, from, end - 1)
  }

  /** The characters that str.isspace accepts. */
  predicate IsSpace(c: char) {
    || '\t' <= c <= '\r' || '\U{1c}' <= c <= ' ' || c == '\U{85}' || c == '\U{a0}' || c == '\U{1680}'
    || '\U{2000}' <= c <= '\U{200a}' || c == '\U{2028}' || c == '\U{2029}' || c == '\U{202f}' || c == '\U{205f}' || c == '\U{3000}'
  }

  function LowerChar(c: char): char {
    if 'A' <= c <= 'Z' then (c as int + 32) as char else c
  }

  const UPPER := "ABCDEFGHIJKLMNOPQRSTUVWXYZ"
  const LOWER := "abcdefghijklmnopqrstuvwxyz"

  /** Each capital goes to its small letter and everything else stays. */
  lemma LowerCharMeaning(c: char, i: nat)
    requires i < 26
    ensures LowerChar(UPPER[i]) == LOWER[i]
    ensures c !in UPPER ==> LowerChar(c) == c
  {
    assert forall k :: 0 <= k < 26 ==> UPPER[k] as int == 'A' as int + k;
    assert 'A' <= c <= 'Z' ==> UPPER[(c as int - 'A' as int)] == c;
  }

  /** str.lower() on ASCII letters. */
  function Lower(text: string): (r: string)
    ensures |r| == |text| && forall i :: 0 <= i < |text| ==> r[i] == LowerChar(text[i])
  {
    seq(|text|, i requires 0 <= i < |text| => LowerChar(text[i]))
  }
}
