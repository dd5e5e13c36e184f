/** The per-strategy cumulative P&L, peak and drawdown that the executor keeps in Redis:
    _record_outcome in services/executor/app/consumer.py.  Every stored value is rounded to
    four decimals, and the next one builds on the rounded value. */
module Recorder {
  import opened Options
  import opened Decimals
  import opened Sums
  import opened Drawdown

  /** The stored cumulative values, starting from the 0 read when the key is absent. */
  function StoredCurve(pnls: seq<real>): (curve: seq<real>)
    ensures |curve| == |pnls| + 1
  {
    if pnls == [] then [0.0]
    else
      var init := StoredCurve(pnls[..|pnls| - 1]);
      init + [Round4(init[|init| - 1] + pnls[|pnls| - 1])]
  }

  function StoredCumulative(pnls: seq<real>): real {
    StoredCurve(pnls)[|pnls|]
  }

  /** The stored peak: the maximum is taken before rounding, of a rounded and an exact value. */
  function StoredPeak(pnls: seq<real>): real {
    if pnls == [] then 0.0
    else
      var init := pnls[..|pnls| - 1];
      Round4(Max(StoredPeak(init), StoredCumulative(init) + pnls[|pnls| - 1]))
  }

  lemma RoundedMaximum(p: real, x: real)
    requires OnGrid4(p)
    ensures Round4(Max(p, x)) == Max(p, Round4(x))
  {
    if p < x { Round4Monotone(p, x); } else { Round4Monotone(x, p); }
  }

  lemma ZeroOnGrid()
    ensures OnGrid4(0.0)
  {
  }

  /** Rounding loses no peak: the stored peak is the maximum of 0 and all stored cumulative values. */
  lemma {:induction false} StoredPeakIsMaximum(pnls: seq<real>)
    ensures StoredPeak(pnls) == Peak(StoredCurve(pnls)) && OnGrid4(StoredPeak(pnls))
  {
    hide Round4, OnGrid4, Max;
    ZeroOnGrid();
    if pnls != [] {
      var n := |pnls| - 1;
      StoredPeakIsMaximum(pnls[..n]);
      RoundedMaximum(StoredPeak(pnls[..n]), StoredCumulative(pnls[..n]) + pnls[n]);
      assert StoredCurve(pnls)[..n + 1] == StoredCurve(pnls[..n]);
    }
  }

  /** The stored cumulative value drifts from the true sum by at most half a unit of the fourth
      decimal per outcome. */
  lemma {:induction false} StoredCumulativeDrift(pnls: seq<real>)
    ensures Abs(StoredCumulative(pnls) - Total(pnls)) <= 0.00005 * |pnls| as real
  {
    hide Round4;
    if pnls == [] {
      assert Total(pnls) == 0.0;
    } else {
      var n := |pnls| - 1;
      StoredCumulativeDrift(pnls[..n]);
      assert pnls[..n] + [pnls[n]] == pnls;
      TotalAppend(pnls[..n], pnls[n]);
    }
  }

  /** The exact drawdown in percent at the moment of recording, before it is rounded. */
  function DrawdownPct(peak: real, cumulative: real): real {
    if peak > 0.0 then (peak - cumulative) / peak * 100.0 else 0.0
  }

  /** The fall from the peak in percent of it; none at the peak or while no profit was ever made. */
  lemma DrawdownMeaning(peak: real, cumulative: real)
    requires cumulative <= peak
    ensures peak > 0.0 ==> DrawdownPct(peak, cumulative) * peak == 100.0 * (peak - cumulative)
    ensures peak <= 0.0 || cumulative == peak ==> DrawdownPct(peak, cumulative) == 0.0
  {
  }

  class StrategyRecord {
    var cumulative: Option<real>
    var peak: Option<real>
    var drawdown: Option<real>
    ghost var outcomes: seq<real>

    /** The keys hold the stored values of the outcomes recorded so far. */
    ghost predicate Valid()
      reads this
    {
      && cumulative == (if outcomes == [] then None else Some(StoredCumulative(outcomes)))
      && peak == (if outcomes == [] then None else Some(StoredPeak(outcomes)))
      && (drawdown.Some? ==> drawdown.value >= 0.0)
    }

    constructor ()
      ensures Valid() && outcomes == []
    {
      cumulative, peak, drawdown, outcomes := None, None, None, [];
    }

    /** A scratch outcome changes nothing. */
    method RecordOutcome(realizedPnl: real)
      requires Valid()
      modifies this
      ensures Valid()
      ensures outcomes == if realizedPnl == 0.0 then old(outcomes) else old(outcomes) + [realizedPnl]
      ensures realizedPnl == 0.0 ==> drawdown == old(drawdown)
      ensures realizedPnl != 0.0 ==>
                var exact := StoredCumulative(old(outcomes)) + realizedPnl;
                drawdown == Some(Round4(DrawdownPct(Max(StoredPeak(old(outcomes)), exact), exact)))
    {
      hide Round4, StoredCumulative, StoredPeak, DrawdownPct;
      if realizedPnl == 0.0 {
        return;
      }
      StoredNothing();
      var oldCum := if cumulative.Some? then cumulative.value else 0.0;
      var newCum := oldCum + realizedPnl;
      cumulative := Some(Round4(newCum));
      var oldPeak := if peak.Some? then peak.value else 0.0;
      var newPeak := Max(oldPeak, newCum);
      peak := Some(Round4(newPeak));
      drawdown := Some(Round4(DrawdownPct(newPeak, newCum)));
      StoredAppend(outcomes, realizedPnl);
      DrawdownNonNegative(newPeak, newCum);
      outcomes := outcomes + [realizedPnl];
    }
  }

  lemma StoredNothing()
    ensures StoredCumulative([]) == 0.0 && StoredPeak([]) == 0.0
  {
  }

  lemma StoredAppend(pnls: seq<real>, x: real)
    ensures StoredCumulative(pnls + [x]) == Round4(StoredCumulative(pnls) + x)
    ensures StoredPeak(pnls + [x]) == Round4(Max(StoredPeak(pnls), StoredCumulative(pnls) + x))
  {
    hide Round4;
    assert (pnls + [x])[..|pnls|] == pnls;
  }

  lemma DrawdownNonNegative(peak: real, cumulative: real)
    requires cumulative <= peak
    ensures Round4(DrawdownPct(peak, cumulative)) >= 0.0
  {
  }

}
