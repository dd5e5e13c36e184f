/** Decimal rounding as Python's `round` performs it: to the nearest multiple of
    a power of ten, ties to the even multiple.  Stored money columns keep eight
    decimals, the executor's Redis statistics keep four. */
module Decimals {

  function Abs(x: real): real {
    if x < 0.0 then -x else x
  }

  function Max(x: real, y: real): real {
    if x < y then y else x
  }

  function Min(x: real, y: real): real {
    if x < y then x else y
  }

  /** The integer nearest to y, ties to even. */
  function RoundHalfEven(y: real): (n: int)
    ensures n as real - 0.5 <= y <= n as real + 0.5
    ensures y == n as real + 0.5 || y == n as real - 0.5 ==> n % 2 == 0
  {
    var n := y.Floor;
    var frac := y - n as real;
    if frac < 0.5 then n
    else if frac > 0.5 then n + 1
    else if n % 2 == 0 then n
    else n + 1
  }

  /** The two clauses of the contract determine the result. */
  lemma RoundHalfEvenUnique(y: real, n: int)
    requires n as real - 0.5 <= y <= n as real + 0.5
    requires y == n as real + 0.5 || y == n as real - 0.5 ==> n % 2 == 0
    ensures RoundHalfEven(y) == n
  {
  }

  /** Exactly half way between two integers. */
  predicate IsTie(y: real) {
    y - y.Floor as real == 0.5
  }

  /** Rounding commutes with adding n exactly when the shift does not turn a tie
      onto the other parity. */
  lemma RoundShift(y: real, n: int)
    ensures RoundHalfEven(y + n as real) == RoundHalfEven(y) + n <==> !(IsTie(y) && n % 2 != 0)
    ensures -1 <= RoundHalfEven(y + n as real) - (RoundHalfEven(y) + n) <= 1
  {
  }

  const SCALE8 := 100000000.0
  const SCALE6 := 1000000.0
  const SCALE4 := 10000.0
  const SCALE2 := 100.0

  /** x is a whole number of 1e-8 units, the resolution of a Numeric(20,8) column. */
  predicate OnGrid8(x: real) {
    (x * SCALE8).Floor as real == x * SCALE8
  }

  predicate OnGrid6(x: real) {
    (x * SCALE6).Floor as real == x * SCALE6
  }

  predicate OnGrid4(x: real) {
    (x * SCALE4).Floor as real == x * SCALE4
  }

  /** round(x, 8) */
  function Round8(x: real): (r: real)
    ensures OnGrid8(r)
    ensures Abs(r - x) <= 0.000000005
    ensures OnGrid8(x) ==> r == x
  {
    RoundHalfEven(x * SCALE8) as real / SCALE8
  }

  /** round(x, 6) */
  function Round6(x: real): (r: real)
    ensures OnGrid6(r)
    ensures Abs(r - x) <= 0.0000005
    ensures OnGrid6(x) ==> r == x
  {
    RoundHalfEven(x * SCALE6) as real / SCALE6
  }

  /** round(x, 2) */
  function Round2(x: real): (r: real)
    ensures Abs(r - x) <= 0.005
  {
    RoundHalfEven(x * SCALE2) as real / SCALE2
  }

  /** round(x, 4) */
  function Round4(x: real): (r: real)
    ensures OnGrid4(r)
    ensures Abs(r - x) <= 0.00005
    ensures OnGrid4(x) ==> r == x
  {
    RoundHalfEven(x * SCALE4) as real / SCALE4
  }

  lemma Round4Monotone(x: real, y: real)
    requires x <= y
    ensures Round4(x) <= Round4(y)
  {
    assert RoundHalfEven(x * SCALE4) <= RoundHalfEven(y * SCALE4);
  }

  /** Sums, differences and negations stay on the grid. */
  lemma GridClosed(x: real, y: real)
    requires OnGrid8(x) && OnGrid8(y)
    ensures OnGrid8(x + y) && OnGrid8(x - y) && OnGrid8(-x)
  {
    var a, b := (x * SCALE8).Floor, (y * SCALE8).Floor;
    assert (x + y) * SCALE8 == (a + b) as real;
    assert (x - y) * SCALE8 == (a - b) as real;
    assert (-x) * SCALE8 == (-a) as real;
  }

  /** A grid value below the 1e-9 threshold of the position code is zero. */
  lemma GridSmallIsZero(x: real)
    requires OnGrid8(x) && Abs(x) <= 0.000000001
    ensures x == 0.0
  {
  }
}
