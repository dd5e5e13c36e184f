/** Running-peak drawdown: services/backtest/app/engine.py, services/journal/app/queries.py,
    and the per-strategy recorder of services/executor/app/consumer.py. */
module Drawdown {
  import opened Decimals
  import opened Sums

  // ---- The equity curve -------------------------------------------------------------------

  /** The starting value, then the running sum. */
  function Curve(start: real, pnls: seq<real>): (curve: seq<real>)
    ensures |curve| == |pnls| + 1
  {
    if pnls == [] then [start]
    else
      var init := Curve(start, pnls[..|pnls| - 1]);
      init + [init[|init| - 1] + pnls[|pnls| - 1]]
  }

  lemma TotalAppend(pnls: seq<real>, x: real)
    ensures Total(pnls + [x]) == Total(pnls) + x
  {
    SumEqual(|pnls|, Vec(pnls + [x]), Vec(pnls));
  }

  lemma CurveAppend(start: real, pnls: seq<real>, x: real)
    ensures Curve(start, pnls + [x]) == Curve(start, pnls) + [Curve(start, pnls)[|pnls|] + x]
  {
  }

  /** Every point of the curve is the start plus everything earned up to there. */
  lemma {:induction false} CurvePoint(start: real, pnls: seq<real>, k: nat)
    requires k <= |pnls|
    ensures Curve(start, pnls)[k] == start + Total(pnls[..k])
    decreases |pnls|
  {
    if k < |pnls| {
      var n := |pnls| - 1;
      CurvePoint(start, pnls[..n], k);
      assert pnls[..n][..k] == pnls[..k];
    } else if pnls == [] {
      assert Total([]) == 0.0;
    } else {
      var n := |pnls| - 1;
      CurvePoint(start, pnls[..n], n);
      assert pnls[..n][..n] == pnls[..n];
      assert pnls[..n] + [pnls[n]] == pnls[..k] == pnls;
      TotalAppend(pnls[..n], pnls[n]);
    }
  }

  // ---- Drawdown -----------------------------------------------------------------------------

  function Peak(curve: seq<real>): real
    requires curve != []
  {
    if |curve| == 1 then curve[0] else Max(Peak(curve[..|curve| - 1]), curve[|curve| - 1])
  }

  /** The fall from a peak as a fraction of it, when the peak is positive. */
  function Drop(peak: real, value: real): real {
    if peak > 0.0 then (peak - value) / peak else 0.0
  }

  /** The worst drop of a point below the running peak. */
  function Worst(curve: seq<real>): (worst: real)
    ensures worst >= 0.0
  {
    if curve == [] then 0.0 else Max(Worst(curve[..|curve| - 1]), Drop(Peak(curve), curve[|curve| - 1]))
  }

  lemma {:induction false} PeakIsMaximum(curve: seq<real>)
    requires curve != []
    ensures forall i :: 0 <= i < |curve| ==> curve[i] <= Peak(curve)
    ensures exists i :: 0 <= i < |curve| && curve[i] == Peak(curve)
  {
    var n := |curve| - 1;
    if n == 0 {
      assert curve[0] == Peak(curve);
    } else {
      PeakIsMaximum(curve[..n]);
      var i :| 0 <= i < n && curve[..n][i] == Peak(curve[..n]);
      if curve[n] <= Peak(curve[..n]) { assert curve[i] == Peak(curve); } else { assert curve[n] == Peak(curve); }
      forall j | 0 <= j < |curve| ensures curve[j] <= Peak(curve) {
        if j < n { assert curve[j] == curve[..n][j]; }
      }
    }
  }

  /** For every curve: no point lies deeper below its running peak, and some point lies as deep. */
  lemma {:induction false} WorstIsPeakDrop(curve: seq<real>)
    ensures forall j :: 0 <= j < |curve| ==> Drop(Peak(curve[..j + 1]), curve[j]) <= Worst(curve)
    ensures Worst(curve) == 0.0 || exists j :: 0 <= j < |curve| && Drop(Peak(curve[..j + 1]), curve[j]) == Worst(curve)
  {
    hide Drop, Peak;
    if curve != [] {
      var n := |curve| - 1;
      var init := curve[..n];
      WorstIsPeakDrop(init);
      assert curve[..n + 1] == curve;
      forall j | 0 <= j < |curve| ensures Drop(Peak(curve[..j + 1]), curve[j]) <= Worst(curve) {
        if j < n { assert init[..j + 1] == curve[..j + 1] && init[j] == curve[j]; }
      }
      if Worst(curve) != Worst(init) {
        assert Drop(Peak(curve[..n + 1]), curve[n]) == Worst(curve);
      } else if Worst(init) != 0.0 {
        var j :| 0 <= j < n && Drop(Peak(init[..j + 1]), init[j]) == Worst(init);
        assert init[..j + 1] == curve[..j + 1] && init[j] == curve[j];
        assert Drop(Peak(curve[..j + 1]), curve[j]) == Worst(curve);
      }
    }
  }

  /** A fall to a non-negative value is relatively deeper from a higher peak. */
  lemma DropGrows(a: real, b: real, e: real)
    requires 0.0 < a <= b && e >= 0.0
    ensures Drop(a, e) <= Drop(b, e)
  {
  }

  /** On a curve that never falls below zero the one-pass figure is the largest relative fall
      over all pairs of an earlier positive point and a later point. */
  lemma WorstIsBruteForce(curve: seq<real>)
    requires forall i :: 0 <= i < |curve| ==> curve[i] >= 0.0
    ensures forall i, j :: 0 <= i <= j < |curve| && curve[i] > 0.0 ==> (curve[i] - curve[j]) / curve[i] <= Worst(curve)
    ensures Worst(curve) == 0.0
            || exists i, j :: 0 <= i <= j < |curve| && curve[i] > 0.0 && (curve[i] - curve[j]) / curve[i] == Worst(curve)
  {
    hide Peak, Worst;
    WorstIsPeakDrop(curve);
    forall i, j | 0 <= i <= j < |curve| && curve[i] > 0.0
      ensures (curve[i] - curve[j]) / curve[i] <= Worst(curve)
    {
      PairBelowPeak(curve, i, j);
      assert Drop(Peak(curve[..j + 1]), curve[j]) <= Worst(curve);
    }
    if Worst(curve) != 0.0 {
      var j :| 0 <= j < |curve| && Drop(Peak(curve[..j + 1]), curve[j]) == Worst(curve);
      PeakIsMaximum(curve[..j + 1]);
      var i :| 0 <= i < j + 1 && curve[..j + 1][i] == Peak(curve[..j + 1]);
      assert curve[i] == Peak(curve[..j + 1]);
      assert curve[i] > 0.0 && (curve[i] - curve[j]) / curve[i] == Worst(curve);
    }
  }

  lemma PairBelowPeak(curve: seq<real>, i: nat, j: nat)
    requires i <= j < |curve| && curve[i] > 0.0 && curve[j] >= 0.0
    ensures (curve[i] - curve[j]) / curve[i] <= Drop(Peak(curve[..j + 1]), curve[j])
  {
    hide Peak;
    PeakIsMaximum(curve[..j + 1]);
    assert curve[..j + 1][i] == curve[i];
    DropGrows(curve[i], Peak(curve[..j + 1]), curve[j]);
  }

  // ---- Curves that go below zero ----------------------------------------------------------------

  /** The smallest positive point; 0 when there is none. */
  function LowestPositive(curve: seq<real>): (low: real)
    ensures low >= 0.0
  {
    if curve == [] then 0.0
    else
      var low, last := LowestPositive(curve[..|curve| - 1]), curve[|curve| - 1];
      if last > 0.0 && (low == 0.0 || last < low) then last else low
  }

  lemma {:induction false} LowestPositiveIsMinimum(curve: seq<real>)
    ensures forall i :: 0 <= i < |curve| && curve[i] > 0.0 ==> 0.0 < LowestPositive(curve) <= curve[i]
    ensures LowestPositive(curve) > 0.0 ==> exists i :: 0 <= i < |curve| && curve[i] == LowestPositive(curve)
  {
    if curve != [] {
      var n := |curve| - 1;
      LowestPositiveIsMinimum(curve[..n]);
      assert forall i :: 0 <= i < n ==> curve[i] == curve[..n][i];
      if LowestPositive(curve) > 0.0 {
        if LowestPositive(curve) == LowestPositive(curve[..n]) {
          var i :| 0 <= i < n && curve[..n][i] == LowestPositive(curve[..n]);
          assert curve[i] == LowestPositive(curve);
        } else {
          assert curve[n] == LowestPositive(curve);
        }
      }
    }
  }

  /** The relative fall of the last point from the earlier point where it is greatest: the highest
      for a point at or above zero, the lowest positive one for a point below. */
  function Fall(curve: seq<real>): real
    requires curve != []
  {
    var last := curve[|curve| - 1];
    Drop(if last >= 0.0 then Peak(curve) else LowestPositive(curve), last)
  }

  /** The fall of point j. */
  function FallAt(curve: seq<real>, j: nat): real
    requires j < |curve|
  {
    Fall(curve[..j + 1])
  }

  function Deepest(curve: seq<real>): (deepest: real)
    ensures deepest >= 0.0
  {
    if curve == [] then 0.0 else Max(Deepest(curve[..|curve| - 1]), Fall(curve))
  }

  lemma {:induction false} DeepestIsLargestFall(curve: seq<real>)
    ensures forall j :: 0 <= j < |curve| ==> FallAt(curve, j) <= Deepest(curve)
    ensures Deepest(curve) == 0.0 || exists j :: 0 <= j < |curve| && FallAt(curve, j) == Deepest(curve)
  {
    hide Fall;
    if curve != [] {
      var n := |curve| - 1;
      var init := curve[..n];
      DeepestIsLargestFall(init);
      assert curve[..n + 1] == curve;
      forall j | 0 <= j < |curve| ensures FallAt(curve, j) <= Deepest(curve) {
        if j < n {
          assert init[..j + 1] == curve[..j + 1];
          assert FallAt(init, j) == FallAt(curve, j);
        }
      }
      if Deepest(curve) != Deepest(init) {
        assert FallAt(curve, n) == Deepest(curve);
      } else if Deepest(init) != 0.0 {
        var j :| 0 <= j < n && FallAt(init, j) == Deepest(init);
        assert init[..j + 1] == curve[..j + 1];
        assert FallAt(curve, j) == Deepest(curve);
      }
    }
  }

  /** A fall to a negative value is relatively deeper from a lower point, and strictly so. */
  lemma DropShrinks(a: real, b: real, e: real)
    requires 0.0 < a <= b && e < 0.0
    ensures Drop(b, e) <= Drop(a, e)
    ensures a < b ==> Drop(b, e) < Drop(a, e)
  {
    var x, y := Drop(a, e), Drop(b, e);
    assert x * a == a - e && y * b == b - e;
    Loss(x - 1.0, y - 1.0, a, b, -e);
  }

  lemma Loss(x: real, y: real, a: real, b: real, d: real)
    requires 0.0 < a <= b && d > 0.0 && x * a == d && y * b == d
    ensures y <= x && (a < b ==> y < x)
  {
  }

  /** The last point's fall is the largest from any earlier positive point. */
  lemma FallIsLargest(curve: seq<real>, i: nat)
    requires i < |curve| && curve[i] > 0.0
    ensures (curve[i] - curve[|curve| - 1]) / curve[i] <= Fall(curve)
  {
    hide Peak, LowestPositive;
    var e := curve[|curve| - 1];
    PeakIsMaximum(curve);
    LowestPositiveIsMinimum(curve);
    if e >= 0.0 {
      DropGrows(curve[i], Peak(curve), e);
    } else {
      DropShrinks(LowestPositive(curve), curve[i], e);
    }
  }

  lemma FallIsAttained(curve: seq<real>)
    requires curve != [] && Fall(curve) != 0.0
    ensures exists i :: 0 <= i < |curve| && curve[i] > 0.0 && (curve[i] - curve[|curve| - 1]) / curve[i] == Fall(curve)
  {
    hide Peak, LowestPositive;
    PeakIsMaximum(curve);
    LowestPositiveIsMinimum(curve);
    if curve[|curve| - 1] >= 0.0 {
      var i :| 0 <= i < |curve| && curve[i] == Peak(curve);
      assert curve[i] > 0.0;
    } else {
      var i :| 0 <= i < |curve| && curve[i] == LowestPositive(curve);
      assert curve[i] > 0.0;
    }
  }

  /** For every curve, below zero or not, Deepest is the largest relative fall over all pairs of an
      earlier positive point and a later point. */
  lemma DeepestIsBruteForce(curve: seq<real>)
    ensures forall i, j :: 0 <= i <= j < |curve| && curve[i] > 0.0 ==> (curve[i] - curve[j]) / curve[i] <= Deepest(curve)
    ensures Deepest(curve) == 0.0
            || exists i, j :: 0 <= i <= j < |curve| && curve[i] > 0.0 && (curve[i] - curve[j]) / curve[i] == Deepest(curve)
  {
    hide FallAt, Deepest;
    DeepestIsLargestFall(curve);
    forall i, j | 0 <= i <= j < |curve| && curve[i] > 0.0
      ensures (curve[i] - curve[j]) / curve[i] <= Deepest(curve)
    {
      PairFall(curve, i, j);
      assert FallAt(curve, j) <= Deepest(curve);
    }
    if Deepest(curve) != 0.0 {
      var j :| 0 <= j < |curve| && FallAt(curve, j) == Deepest(curve);
      FallHasPair(curve, j);
    }
  }

  lemma FallHasPair(curve: seq<real>, j: nat)
    requires j < |curve| && FallAt(curve, j) != 0.0
    ensures exists i :: 0 <= i <= j && curve[i] > 0.0 && (curve[i] - curve[j]) / curve[i] == FallAt(curve, j)
  {
    hide Fall;
    var prefix := curve[..j + 1];
    FallIsAttained(prefix);
    var i :| 0 <= i < |prefix| && prefix[i] > 0.0 && (prefix[i] - prefix[|prefix| - 1]) / prefix[i] == Fall(prefix);
    assert prefix[i] == curve[i] && prefix[|prefix| - 1] == curve[j];
  }

  lemma PairFall(curve: seq<real>, i: nat, j: nat)
    requires i <= j < |curve| && curve[i] > 0.0
    ensures (curve[i] - curve[j]) / curve[i] <= FallAt(curve, j)
  {
    hide Fall;
    var prefix := curve[..j + 1];
    assert prefix[i] == curve[i] && prefix[|prefix| - 1] == curve[j];
    FallIsLargest(prefix, i);
  }

  /** All positive points are equal. */
  ghost predicate OnePositiveLevel(curve: seq<real>) {
    forall i, k :: 0 <= i < |curve| && 0 <= k < |curve| && curve[i] > 0.0 && curve[k] > 0.0 ==> curve[i] == curve[k]
  }

  /** The fall below the running peak is the whole fall exactly at points at or above zero and at
      points all of whose earlier positive values are equal. */
  lemma PeakFallIff(curve: seq<real>)
    requires curve != []
    ensures var e := curve[|curve| - 1];
            && Drop(Peak(curve), e) <= Fall(curve)
            && (Drop(Peak(curve), e) == Fall(curve) <==> e >= 0.0 || OnePositiveLevel(curve))
  {
    hide Peak, LowestPositive;
    var e, low, peak := curve[|curve| - 1], LowestPositive(curve), Peak(curve);
    PeakIsMaximum(curve);
    LowestPositiveIsMinimum(curve);
    var p :| 0 <= p < |curve| && curve[p] == peak;
    if e < 0.0 {
      if peak > 0.0 {
        DropShrinks(low, peak, e);
        var q :| 0 <= q < |curve| && curve[q] == low;
        if low == peak {
          assert OnePositiveLevel(curve);
        } else {
          assert curve[p] != curve[q] && curve[p] > 0.0 && curve[q] > 0.0;
        }
      } else {
        assert OnePositiveLevel(curve);
      }
    }
  }

  lemma PeakFallAt(curve: seq<real>, j: nat)
    requires j < |curve|
    ensures var drop := Drop(Peak(curve[..j + 1]), curve[j]);
            && drop <= FallAt(curve, j)
            && (drop == FallAt(curve, j) <==> curve[j] >= 0.0 || OnePositiveLevel(curve[..j + 1]))
  {
    hide Drop, Peak, Fall, OnePositiveLevel;
    PeakFallIff(curve[..j + 1]);
  }

  /** The point at j has the deepest fall. */
  ghost predicate IsDeepestAt(curve: seq<real>, j: nat) {
    j < |curve| && FallAt(curve, j) == Deepest(curve)
  }

  /** The one-pass figure is the brute-force one exactly when there is no fall at all, or a deepest
      fall ends at or above zero or follows positive values that are all equal. */
  lemma WorstIsDeepestIff(curve: seq<real>)
    ensures Worst(curve) <= Deepest(curve)
    ensures Worst(curve) == Deepest(curve)
            <==> Deepest(curve) == 0.0
                 || exists j: nat :: IsDeepestAt(curve, j) && (curve[j] >= 0.0 || OnePositiveLevel(curve[..j + 1]))
  {
    hide FallAt, Deepest, Worst, Drop, Peak, OnePositiveLevel;
    WorstIsPeakDrop(curve);
    DeepestIsLargestFall(curve);
    forall j | 0 <= j < |curve|
      ensures Drop(Peak(curve[..j + 1]), curve[j]) <= FallAt(curve, j)
      ensures Drop(Peak(curve[..j + 1]), curve[j]) == FallAt(curve, j) <==> curve[j] >= 0.0 || OnePositiveLevel(curve[..j + 1])
    {
      PeakFallAt(curve, j);
    }
    if Worst(curve) != 0.0 {
      var j: nat :| j < |curve| && Drop(Peak(curve[..j + 1]), curve[j]) == Worst(curve);
      assert FallAt(curve, j) <= Deepest(curve);
      if Worst(curve) == Deepest(curve) { assert IsDeepestAt(curve, j); }
    }
    if j: nat :| IsDeepestAt(curve, j) && (curve[j] >= 0.0 || OnePositiveLevel(curve[..j + 1])) {
      assert Drop(Peak(curve[..j + 1]), curve[j]) <= Worst(curve);
    }
  }

  /** An instance where they part: from 10 to -10 the fall is twice the point it starts from, but
      the running peak is still 100. */
  lemma NegativeEquityHidesFalls()
    ensures Worst([100.0, 10.0, -10.0]) == 1.1 && Deepest([100.0, 10.0, -10.0]) == 2.0
  {
    var curve := [100.0, 10.0, -10.0];
    assert curve[..2] == [100.0, 10.0] && [100.0, 10.0][..1] == [100.0] && [100.0][..0] == [];
    assert Peak([100.0]) == 100.0 && Peak([100.0, 10.0]) == 100.0 && Peak(curve) == 100.0;
    assert LowestPositive([100.0]) == 100.0 && LowestPositive([100.0, 10.0]) == 10.0 && LowestPositive(curve) == 10.0;
    assert Drop(100.0, 10.0) == 0.9 && Drop(100.0, -10.0) == 1.1 && Drop(10.0, -10.0) == 2.0;
    assert Worst([100.0]) == 0.0 && Worst([100.0, 10.0]) == 0.9;
    assert Deepest([100.0]) == 0.0 && Deepest([100.0, 10.0]) == 0.9;
  }
}
