/** The loops that report performance: _compute_metrics and _build_equity_curve in
    services/backtest/app/engine.py, the daily series and drawdown in
    services/journal/app/queries.py. */
module Metrics {
  import opened Decimals
  import opened Sums
  import opened Backtest
  import opened Drawdown
  import FundingArb

  // ---- Backtest metrics ------------------------------------------------------------------------

  /** Per-trade return on the equity before the trade; 0 when that is not positive. */
  function Returns(curve: seq<real>): (gains: seq<real>)
    ensures |gains| == if |curve| <= 1 then 0 else |curve| - 1
  {
    if |curve| <= 1 then []
    else
      var n := |curve| - 1;
      Returns(curve[..n]) + [if curve[n - 1] > 0.0 then (curve[n] - curve[n - 1]) / curve[n - 1] else 0.0]
  }

  function NetPnls(trades: seq<TradeRecord>): (pnls: seq<real>)
    ensures |pnls| == |trades| && forall k :: 0 <= k < |trades| ==> pnls[k] == trades[k].netPnl
  {
    seq(|trades|, k requires 0 <= k < |trades| => trades[k].netPnl)
  }

  function Wins(pnls: seq<real>): (n: nat)
    ensures n <= |pnls|
  {
    if pnls == [] then 0
    else Wins(pnls[..|pnls| - 1]) + if pnls[|pnls| - 1] > 0.0 then 1 else 0
  }

  datatype Metrics = Metrics(totalTrades: nat, winningTrades: nat, losingTrades: nat, winRate: real, totalPnl: real,
                             totalFees: real, netPnl: real, maxDrawdownPct: real, sharpe: real, sortino: real,
                             calmar: real, avgHold: real, totalReturnPct: real)

  /** The annualised ratios of a return series: any functions of it. */
  datatype Ratios = Ratios(sharpe: seq<real> -> real, sortino: seq<real> -> real, calmar: seq<real> -> real)

  /** A reported ratio is 0 below two gains. */
  function RatioOf(gains: seq<real>, ratio: seq<real> -> real): real {
    if |gains| < 2 then 0.0 else Round4(ratio(gains))
  }

  function NoTrades(): Metrics {
    Metrics(0, 0, 0, 0.0, 0.0, 0.0, 0.0, 0.0, 0.0, 0.0, 0.0, 0.0, 0.0)
  }

  function Grosses(trades: seq<TradeRecord>): seq<real> {
    seq(|trades|, k requires 0 <= k < |trades| => trades[k].pnl)
  }

  function Fees(trades: seq<TradeRecord>): seq<real> {
    seq(|trades|, k requires 0 <= k < |trades| => trades[k].fee)
  }

  function Holds(trades: seq<TradeRecord>): seq<real> {
    seq(|trades|, k requires 0 <= k < |trades| => trades[k].holdCandles as real)
  }

  /** The metrics of a trade list in terms of its equity curve. */
  function MetricsOf(trades: seq<TradeRecord>, capital: real, ratios: Ratios): Metrics {
    var pnls := NetPnls(trades);
    var curve := Curve(capital, pnls);
    if trades == [] then NoTrades()
    else
      Metrics(|trades|, Wins(pnls), |trades| - Wins(pnls), Round4(Wins(pnls) as real / |trades| as real),
              Round4(Total(Grosses(trades))), Round4(Total(Fees(trades))),
              Round4(curve[|trades|] - capital), Round4(Worst(curve) * 100.0), RatioOf(Returns(curve), ratios.sharpe),
              RatioOf(Returns(curve), ratios.sortino), RatioOf(Returns(curve), ratios.calmar),
              Round2(Total(Holds(trades)) / |trades| as real),
              if capital > 0.0 then Round4((curve[|trades|] - capital) / capital * 100.0) else 0.0)
  }

  /** What the metric loop holds after k trades. */
  ghost predicate MetricLoop(pnls: seq<real>, capital: real, k: nat, equity: real, peak: real, maxDd: real, gains: seq<real>) {
    k <= |pnls| &&
    var curve := Curve(capital, pnls[..k]);
    equity == curve[k] && peak == Peak(curve) && maxDd == Worst(curve) && gains == Returns(curve)
  }

  lemma MetricLoopStart(pnls: seq<real>, capital: real)
    ensures MetricLoop(pnls, capital, 0, capital, capital, 0.0, [])
  {
  }

  lemma MetricLoopStep(pnls: seq<real>, capital: real, k: nat, equity: real, peak: real, maxDd: real, gains: seq<real>)
    requires k < |pnls| && MetricLoop(pnls, capital, k, equity, peak, maxDd, gains)
    ensures var equity' := equity + pnls[k];
            var peak' := Max(peak, equity');
            MetricLoop(pnls, capital, k + 1, equity', peak', Max(maxDd, Drop(peak', equity')),
                       gains + [if equity > 0.0 then (equity' - equity) / equity else 0.0])
  {
    hide Curve, Drop, Max;
    assert pnls[..k + 1] == pnls[..k] + [pnls[k]];
    CurveAppend(capital, pnls[..k], pnls[k]);
    var curve := Curve(capital, pnls[..k]);
    assert Curve(capital, pnls[..k + 1])[..k + 1] == curve;
  }

  method SumNet(netPnls: seq<real>) returns (totalNet: real, winning: nat)
    ensures totalNet == Total(netPnls) && winning == Wins(netPnls)
  {
    totalNet, winning := 0.0, 0;
    for k := 0 to |netPnls|
      invariant totalNet == Total(netPnls[..k]) && winning == Wins(netPnls[..k])
    {
      assert netPnls[..k + 1] == netPnls[..k] + [netPnls[k]];
      TotalAppend(netPnls[..k], netPnls[k]);
      assert netPnls[..k + 1][..k] == netPnls[..k];
      totalNet := totalNet + netPnls[k];
      if netPnls[k] > 0.0 { winning := winning + 1; }
    }
    assert netPnls[..|netPnls|] == netPnls;
  }

  method ComputeMetrics(trades: seq<TradeRecord>, capital: real, ratios: Ratios) returns (m: Metrics)
    ensures m == MetricsOf(trades, capital, ratios)
  {
    hide Returns, Round4, Round2, Curve, Worst, Total, Wins, RatioOf, Grosses, Fees, Holds;
    if trades == [] {
      return NoTrades();
    }
    var netPnls := NetPnls(trades);
    var totalNet, winning := SumNet(netPnls);
    assert netPnls[..|netPnls|] == netPnls;
    CurvePoint(capital, netPnls, |netPnls|);
    var maxDd, gains := DrawdownLoop(netPnls, capital);
    var totalReturnPct := if capital > 0.0 then totalNet / capital * 100.0 else 0.0;
    RoundZero();
    var avgHold := Total(Holds(trades)) / |trades| as real;
    m := Metrics(|trades|, winning, |trades| - winning, Round4(winning as real / |trades| as real),
                 Round4(Total(Grosses(trades))), Round4(Total(Fees(trades))), Round4(totalNet), Round4(maxDd * 100.0),
                 RatioOf(gains, ratios.sharpe), RatioOf(gains, ratios.sortino), RatioOf(gains, ratios.calmar),
                 Round2(avgHold), Round4(totalReturnPct));
  }

  lemma {:induction false} ReturnsAt(curve: seq<real>, k: nat)
    requires k + 1 < |curve|
    ensures Returns(curve)[k] == if curve[k] > 0.0 then (curve[k + 1] - curve[k]) / curve[k] else 0.0
  {
    var n := |curve| - 1;
    if k + 1 < n { ReturnsAt(curve[..n], k); }
  }

  /** The gain of a trade on the equity before it: the capital and the net P&L of the earlier trades. */
  ghost predicate AreGains(gains: seq<real>, trades: seq<TradeRecord>, capital: real) {
    && |gains| == |trades|
    && forall k :: 0 <= k < |trades| ==>
         var before := capital + Total(NetPnls(trades)[..k]);
         gains[k] == if before > 0.0 then trades[k].netPnl / before else 0.0
  }

  lemma GainsOfCurve(trades: seq<TradeRecord>, capital: real)
    ensures AreGains(Returns(Curve(capital, NetPnls(trades))), trades, capital)
  {
    hide Curve, Returns;
    var pnls := NetPnls(trades);
    var curve := Curve(capital, pnls);
    forall k | 0 <= k < |trades|
      ensures Returns(curve)[k] == var before := capital + Total(pnls[..k]); if before > 0.0 then trades[k].netPnl / before else 0.0
    {
      ReturnsAt(curve, k);
      CurvePoint(capital, pnls, k);
      CurvePoint(capital, pnls, k + 1);
      assert pnls[..k + 1] == pnls[..k] + [pnls[k]];
      TotalAppend(pnls[..k], pnls[k]);
    }
  }

  /** The figures that rank and report a run, each of its own function of the per-trade gains. */
  lemma RatiosAreReported(trades: seq<TradeRecord>, capital: real, ratios: Ratios, gains: seq<real>)
    requires AreGains(gains, trades, capital)
    ensures var m := MetricsOf(trades, capital, ratios);
            && m.sharpe == (if |trades| < 2 then 0.0 else Round4(ratios.sharpe(gains)))
            && m.sortino == (if |trades| < 2 then 0.0 else Round4(ratios.sortino(gains)))
            && m.calmar == (if |trades| < 2 then 0.0 else Round4(ratios.calmar(gains)))
  {
    hide Round4, Round2, Worst, Returns, Curve, Total;
    GainsOfCurve(trades, capital);
    assert gains == Returns(Curve(capital, NetPnls(trades)));
  }

  lemma RoundZero()
    ensures Round4(0.0) == 0.0
  {
  }

  /** The one pass over the trades that keeps equity, peak and the worst drop. */
  method DrawdownLoop(netPnls: seq<real>, capital: real) returns (maxDd: real, dailyReturns: seq<real>)
    ensures maxDd == Worst(Curve(capital, netPnls)) && dailyReturns == Returns(Curve(capital, netPnls))
  {
    var equity, peak, prevEquity := capital, capital, capital;
    maxDd, dailyReturns := 0.0, [];
    MetricLoopStart(netPnls, capital);
    for k := 0 to |netPnls|
      invariant MetricLoop(netPnls, capital, k, equity, peak, maxDd, dailyReturns) && prevEquity == equity
    {
      hide MetricLoop;
      MetricLoopStep(netPnls, capital, k, equity, peak, maxDd, dailyReturns);
      equity := equity + netPnls[k];
      if equity > peak {
        peak := equity;
      }
      var dd := if peak > 0.0 then (peak - equity) / peak else 0.0;
      if dd > maxDd {
        maxDd := dd;
      }
      dailyReturns := dailyReturns + [if prevEquity > 0.0 then (equity - prevEquity) / prevEquity else 0.0];
      prevEquity := equity;
    }
    assert netPnls[..|netPnls|] == netPnls;
  }

  datatype EquityPoint = EquityPoint(dt: string, equityUsd: real, tradePnl: real)

  /** Point k is the capital plus the net P&L of the first k + 1 trades, rounded once. */
  method BuildEquityCurve(trades: seq<TradeRecord>, capital: real) returns (curve: seq<EquityPoint>)
    ensures |curve| == |trades|
    ensures forall k :: 0 <= k < |trades| ==>
              curve[k] == EquityPoint(trades[k].exitDt, Round4(capital + Total(NetPnls(trades)[..k + 1])), Round4(trades[k].netPnl))
  {
    hide Round4;
    var equity := capital;
    curve := [];
    assert NetPnls(trades)[..0] == [];
    for k := 0 to |trades|
      invariant equity == capital + Total(NetPnls(trades)[..k])
      invariant |curve| == k
      invariant forall j :: 0 <= j < k ==>
                  curve[j] == EquityPoint(trades[j].exitDt, Round4(capital + Total(NetPnls(trades)[..j + 1])), Round4(trades[j].netPnl))
    {
      TotalAppend(NetPnls(trades)[..k], trades[k].netPnl);
      assert NetPnls(trades)[..k + 1] == NetPnls(trades)[..k] + [trades[k].netPnl];
      equity := equity + trades[k].netPnl;
      curve := curve + [EquityPoint(trades[k].exitDt, Round4(equity), Round4(trades[k].netPnl))];
    }
  }

  /** The reported net P&L is the sum over all trades; every trade won or lost. */
  lemma NetPnlIsTotal(trades: seq<TradeRecord>, capital: real, ratios: Ratios)
    ensures var m := MetricsOf(trades, capital, ratios);
            m.netPnl == Round4(Total(NetPnls(trades))) && m.winningTrades + m.losingTrades == |trades|
  {
    hide Round4, Worst, Returns, Curve;
    if trades == [] {
      RoundZero();
      assert Total(NetPnls(trades)) == 0.0;
    } else {
      CurvePoint(capital, NetPnls(trades), |trades|);
      assert NetPnls(trades)[..|trades|] == NetPnls(trades);
    }
  }

  /** A trade's net is its gross less its fee, up to the rounding of the three to six decimals. */
  ghost predicate Accounts(t: TradeRecord) {
    Abs(t.netPnl - (t.pnl - t.fee)) <= 0.0000015
  }

  lemma {:induction false} TotalsAccount(trades: seq<TradeRecord>)
    requires forall k :: 0 <= k < |trades| ==> Accounts(trades[k])
    ensures Abs(Total(NetPnls(trades)) - (Total(Grosses(trades)) - Total(Fees(trades)))) <= 0.0000015 * |trades| as real
  {
    if trades != [] {
      var init, t := trades[..|trades| - 1], trades[|trades| - 1];
      TotalsAccount(init);
      TotalAppend(NetPnls(init), t.netPnl);
      TotalAppend(Grosses(init), t.pnl);
      TotalAppend(Fees(init), t.fee);
      assert NetPnls(trades) == NetPnls(init) + [t.netPnl];
      assert Grosses(trades) == Grosses(init) + [t.pnl];
      assert Fees(trades) == Fees(init) + [t.fee];
    }
  }

  /** The reported totals agree: net is gross less fees, up to the rounding of each trade and of
      the three figures. */
  ghost predicate TotalsAgree(m: Metrics) {
    Abs(m.netPnl - (m.totalPnl - m.totalFees)) <= 0.0000015 * m.totalTrades as real + 0.00015
  }

  lemma ReportedTotalsAgree(trades: seq<TradeRecord>, capital: real, ratios: Ratios)
    requires forall k :: 0 <= k < |trades| ==> Accounts(trades[k])
    ensures TotalsAgree(MetricsOf(trades, capital, ratios))
  {
    NetPnlIsTotal(trades, capital, ratios);
    TotalsAccount(trades);
    hide Round2, Worst, Returns, Curve, RatioOf, NetPnls, Grosses, Fees, Holds, Total;
  }

  /** They do for every finished run of either simulation. */
  lemma RunTotalsAgree(outcome: Outcome, capital: real, ratios: Ratios)
    requires outcome.Done?
    requires (exists pairs, p, score :: outcome == StatArb(pairs, p, score))
             || exists rates, spot, p :: outcome == FundingArb.Funding(rates, spot, p)
    ensures TotalsAgree(MetricsOf(outcome.trades, capital, ratios))
  {
    hide TotalsAgree, MetricsOf, StatBook, StatTrade, ValidRound, FundingArb.FundingBook, FundingArb.FundingTrade, FundingArb.ValidFunding;
    forall k | 0 <= k < |outcome.trades| ensures Accounts(outcome.trades[k]) {
      if pairs, p, score :| outcome == StatArb(pairs, p, score) {
        TradeAccounts(pairs, p, score, StatBook(pairs, p, score).rounds[k]);
      } else {
        var rates, spot, p :| outcome == FundingArb.Funding(rates, spot, p);
        FundingArb.FundingTradeAccounts(rates, spot, p, FundingArb.FundingBook(rates, spot, p).rounds[k]);
      }
    }
    ReportedTotalsAgree(outcome.trades, capital, ratios);
  }

  /** n times x. */
  function Multiple(n: nat, x: real): real {
    n as real * x
  }

  lemma {:induction false} EqualFees(trades: seq<TradeRecord>, fee: real)
    requires forall k :: 0 <= k < |trades| ==> trades[k].fee == fee
    ensures Total(Fees(trades)) == Multiple(|trades|, fee)
  {
    if trades != [] {
      var n := |trades| - 1;
      EqualFees(trades[..n], fee);
      TotalAppend(Fees(trades[..n]), fee);
      assert Fees(trades) == Fees(trades[..n]) + [fee];
    } else {
      assert Total(Fees(trades)) == 0.0;
    }
  }

  ghost predicate IsRunWith(outcome: Outcome, sizing: Sizing) {
    || (exists pairs, p: Params, score :: p.sizing == sizing && outcome == StatArb(pairs, p, score))
    || exists rates, spot, p: FundingArb.FundingParams :: p.sizing == sizing && outcome == FundingArb.Funding(rates, spot, p)
  }

  lemma RunFee(outcome: Outcome, sizing: Sizing, k: nat)
    requires outcome.Done? && IsRunWith(outcome, sizing) && k < |outcome.trades|
    ensures outcome.trades[k].fee == Round6(FourTakerFees(sizing))
  {
    hide StatBook, StatTrade, ValidRound, FundingArb.FundingBook, FundingArb.FundingTrade, FundingArb.ValidFunding, FourTakerFees, Round6;
    FourFeesPaid(sizing);
    if pairs, p: Params, score :| p.sizing == sizing && outcome == StatArb(pairs, p, score) {
      StatTradeBooks(pairs, p, score, StatBook(pairs, p, score).rounds[k]);
    } else {
      var rates, spot, p: FundingArb.FundingParams :| p.sizing == sizing && outcome == FundingArb.Funding(rates, spot, p);
      FundingArb.FundingTradeFields(rates, spot, p, FundingArb.FundingBook(rates, spot, p).rounds[k]);
    }
  }

  /** The fees of a run are four taker fees a trade, rounded once each and once more in all. */
  lemma RunFees(outcome: Outcome, sizing: Sizing, capital: real, ratios: Ratios)
    requires outcome.Done? && IsRunWith(outcome, sizing)
    ensures MetricsOf(outcome.trades, capital, ratios).totalFees
            == Round4(Multiple(|outcome.trades|, Round6(FourTakerFees(sizing))))
  {
    var trades := outcome.trades;
    forall k | 0 <= k < |trades| ensures trades[k].fee == Round6(FourTakerFees(sizing)) {
      RunFee(outcome, sizing, k);
    }
    EqualFees(trades, Round6(FourTakerFees(sizing)));
    FeesReported(trades, capital, ratios);
    hide IsRunWith, MetricsOf, FourTakerFees, Round6, Round4, Total, Fees, Multiple;
  }

  lemma FeesReported(trades: seq<TradeRecord>, capital: real, ratios: Ratios)
    ensures MetricsOf(trades, capital, ratios).totalFees == Round4(Total(Fees(trades)))
  {
    NoTotal(trades);
    hide Round4, Round2, Worst, Returns, Curve, RatioOf, Total, Fees, Wins, Holds, Grosses, NetPnls;
  }

  lemma NoTotal(trades: seq<TradeRecord>)
    ensures trades == [] ==> Round4(Total(Fees(trades))) == 0.0
  {
    RoundZero();
  }

  function Winners(trades: seq<TradeRecord>): set<nat> {
    set k: nat | k < |trades| && trades[k].netPnl > 0.0
  }

  lemma {:induction false} WinsAreWinners(trades: seq<TradeRecord>)
    ensures Wins(NetPnls(trades)) == |Winners(trades)|
  {
    if trades == [] {
      assert Winners(trades) == {};
    } else {
      var n := |trades| - 1;
      WinsAreWinners(trades[..n]);
      assert NetPnls(trades)[..n] == NetPnls(trades[..n]);
      assert Winners(trades) == Winners(trades[..n]) + if trades[n].netPnl > 0.0 then {n} else {};
    }
  }

  function CandlesHeld(trades: seq<TradeRecord>): nat {
    if trades == [] then 0 else CandlesHeld(trades[..|trades| - 1]) + trades[|trades| - 1].holdCandles
  }

  lemma {:induction false} HoldsTotal(trades: seq<TradeRecord>)
    ensures Total(Holds(trades)) == CandlesHeld(trades) as real
  {
    if trades != [] {
      var n := |trades| - 1;
      HoldsTotal(trades[..n]);
      TotalAppend(Holds(trades[..n]), trades[n].holdCandles as real);
      assert Holds(trades) == Holds(trades[..n]) + [trades[n].holdCandles as real];
    } else {
      assert Total(Holds(trades)) == 0.0;
    }
  }

  /** rate is count out of n, up to the rounding of one unit. */
  predicate IsRate(rate: real, n: real, count: real, unit: real) {
    Abs(rate * n - count) <= unit * n
  }

  lemma RateError(rate: real, count: real, n: real, unit: real)
    requires n > 0.0 && Abs(rate - count / n) <= unit
    ensures IsRate(rate, n, count, unit)
  {
    var e := rate - count / n;
    assert e * n == rate * n - count;
  }

  /** The rates, multiplied out: wins, candles held and net P&L, within the rounding of each. */
  lemma RatesMultiplyOut(trades: seq<TradeRecord>, capital: real, ratios: Ratios)
    requires trades != [] && capital > 0.0
    ensures var m, n := MetricsOf(trades, capital, ratios), |trades| as real;
            && m.winningTrades == |Winners(trades)| && m.totalTrades == |trades|
            && IsRate(m.winRate, n, |Winners(trades)| as real, 0.00005)
            && IsRate(m.avgHold, n, CandlesHeld(trades) as real, 0.005)
            && IsRate(m.totalReturnPct, capital, 100.0 * Total(NetPnls(trades)), 0.00005)
  {
    hide MetricsOf, IsRate, Abs, Total, Wins, Winners, CandlesHeld, NetPnls, Round4, Round2;
    var m := MetricsOf(trades, capital, ratios);
    RatesAsDivided(trades, capital, ratios);
    WinsAreWinners(trades);
    RateErrors(m.winRate, |Winners(trades)| as real, m.avgHold, CandlesHeld(trades) as real, |trades| as real,
               m.totalReturnPct, Total(NetPnls(trades)), capital);
  }

  lemma RateErrors(winRate: real, wins: real, avgHold: real, held: real, n: real, returnPct: real, net: real, capital: real)
    requires n > 0.0 && capital > 0.0
    requires Abs(winRate - wins / n) <= 0.00005 && Abs(avgHold - held / n) <= 0.005
    requires Abs(returnPct - 100.0 * net / capital) <= 0.00005
    ensures IsRate(winRate, n, wins, 0.00005) && IsRate(avgHold, n, held, 0.005) && IsRate(returnPct, capital, 100.0 * net, 0.00005)
  {
    hide Abs, IsRate;
    RateError(winRate, wins, n, 0.00005);
    RateError(avgHold, held, n, 0.005);
    RateError(returnPct, 100.0 * net, capital, 0.00005);
  }

  lemma RatesAsDivided(trades: seq<TradeRecord>, capital: real, ratios: Ratios)
    requires trades != [] && capital > 0.0
    ensures var m, n := MetricsOf(trades, capital, ratios), |trades| as real;
            && m.winningTrades == Wins(NetPnls(trades)) && m.totalTrades == |trades|
            && Abs(m.winRate - Wins(NetPnls(trades)) as real / n) <= 0.00005
            && Abs(m.avgHold - CandlesHeld(trades) as real / n) <= 0.005
            && Abs(m.totalReturnPct - 100.0 * Total(NetPnls(trades)) / capital) <= 0.00005
  {
    hide Round4, Round2, Worst, Returns, Curve, RatioOf, Total, Wins, Holds, CandlesHeld, NetPnls, Grosses, Fees, Abs;
    HoldsTotal(trades);
    CurveEndsAtTotal(trades, capital);
    PercentOf(Total(NetPnls(trades)), capital);
  }

  lemma PercentOf(x: real, capital: real)
    requires capital > 0.0
    ensures x / capital * 100.0 == 100.0 * x / capital
  {
  }

  lemma CurveEndsAtTotal(trades: seq<TradeRecord>, capital: real)
    ensures Curve(capital, NetPnls(trades))[|trades|] - capital == Total(NetPnls(trades))
  {
    CurvePoint(capital, NetPnls(trades), |trades|);
    assert NetPnls(trades)[..|trades|] == NetPnls(trades);
  }

  lemma PercentMonotone(x: real, y: real)
    requires x <= y
    ensures Round4(x * 100.0) <= Round4(y * 100.0)
  {
    Round4Monotone(x * 100.0, y * 100.0);
  }

  /** The reported drawdown bounds the relative fall between any two points of an account that
      never goes below zero. */
  lemma DrawdownBoundsEveryFall(trades: seq<TradeRecord>, capital: real, ratios: Ratios, i: nat, j: nat)
    requires trades != [] && i <= j <= |trades|
    requires forall k :: 0 <= k <= |trades| ==> Curve(capital, NetPnls(trades))[k] >= 0.0
    requires Curve(capital, NetPnls(trades))[i] > 0.0
    ensures var curve := Curve(capital, NetPnls(trades));
            Round4((curve[i] - curve[j]) / curve[i] * 100.0) <= MetricsOf(trades, capital, ratios).maxDrawdownPct
  {
    hide Round4, Worst, Returns, Curve, RatioOf;
    var curve := Curve(capital, NetPnls(trades));
    WorstIsBruteForce(curve);
    PercentMonotone((curve[i] - curve[j]) / curve[i], Worst(curve));
  }

  // ---- The journal's daily curve ------------------------------------------------------------------

  datatype DayRow = DayRow(date: int, pnl: real)

  function DayTotal(rows: seq<DayRow>, date: int): real {
    if rows == [] then 0.0
    else
      var last := rows[|rows| - 1];
      DayTotal(rows[..|rows| - 1], date) + if last.date == date then last.pnl else 0.0
  }

  /** A date put into its place in an ascending list, once. */
  function InsertDate(date: int, dates: seq<int>): seq<int> {
    if dates == [] || date < dates[0] then [date] + dates
    else if date == dates[0] then dates
    else [dates[0]] + InsertDate(date, dates[1..])
  }

  /** The distinct dates in ascending order. */
  function Dates(rows: seq<DayRow>): seq<int> {
    if rows == [] then [] else InsertDate(rows[|rows| - 1].date, Dates(rows[..|rows| - 1]))
  }

  ghost predicate StrictlyAscending(dates: seq<int>) {
    forall i, j :: 0 <= i < j < |dates| ==> dates[i] < dates[j]
  }

  lemma {:induction false} InsertDateContents(date: int, dates: seq<int>)
    ensures forall d :: d in InsertDate(date, dates) <==> d in dates || d == date
  {
    if dates == [] || date <= dates[0] {
    } else {
      InsertDateContents(date, dates[1..]);
      assert dates == [dates[0]] + dates[1..];
    }
  }

  lemma {:induction false} InsertDateAscends(date: int, dates: seq<int>)
    requires StrictlyAscending(dates)
    ensures StrictlyAscending(InsertDate(date, dates))
  {
    if dates == [] || date <= dates[0] {
    } else {
      InsertDateAscends(date, dates[1..]);
      InsertDateContents(date, dates[1..]);
      var tail := InsertDate(date, dates[1..]);
      forall j | 0 <= j < |tail| ensures dates[0] < tail[j] {
        assert tail[j] in tail;
        assert tail[j] == date || tail[j] in dates[1..];
      }
    }
  }

  /** One value per date: the dates ascend and are exactly those of the rows. */
  lemma {:induction false} DatesAreDistinct(rows: seq<DayRow>)
    ensures StrictlyAscending(Dates(rows))
    ensures forall d :: d in Dates(rows) <==> exists i :: 0 <= i < |rows| && rows[i].date == d
  {
    if rows != [] {
      var n := |rows| - 1;
      var init := rows[..n];
      DatesAreDistinct(init);
      InsertDateAscends(rows[n].date, Dates(init));
      InsertDateContents(rows[n].date, Dates(init));
      forall d ensures d in Dates(rows) <==> exists i :: 0 <= i < |rows| && rows[i].date == d {
        if d in Dates(init) {
          var i :| 0 <= i < n && init[i].date == d;
          assert rows[i].date == d;
        } else if d == rows[n].date {
          assert rows[n].date == d;
        } else if i :| 0 <= i < |rows| && rows[i].date == d {
          assert init[i].date == d;
        }
      }
    }
  }

  function DayTotals(rows: seq<DayRow>, dates: seq<int>): (daily: seq<real>)
    ensures |daily| == |dates| && forall i :: 0 <= i < |dates| ==> daily[i] == DayTotal(rows, dates[i])
  {
    seq(|dates|, i requires 0 <= i < |dates| => DayTotal(rows, dates[i]))
  }

  method DailySeries(rows: seq<DayRow>) returns (daily: seq<real>)
    ensures daily == DayTotals(rows, Dates(rows))
  {
    var byDate: map<int, real> := map[];
    for k := 0 to |rows|
      invariant forall d :: (if d in byDate then byDate[d] else 0.0) == DayTotal(rows[..k], d)
    {
      assert rows[..k + 1][..k] == rows[..k];
      var r := rows[k];
      byDate := byDate[r.date := (if r.date in byDate then byDate[r.date] else 0.0) + r.pnl];
    }
    assert rows[..|rows|] == rows;
    var dates := Dates(rows);
    daily := [];
    for i := 0 to |dates|
      invariant |daily| == i && forall j :: 0 <= j < i ==> daily[j] == DayTotal(rows, dates[j])
    {
      daily := daily + [if dates[i] in byDate then byDate[dates[i]] else 0.0];
    }
  }

  function PnlsOf(rows: seq<DayRow>): (pnls: seq<real>)
    ensures |pnls| == |rows| && forall i :: 0 <= i < |rows| ==> pnls[i] == rows[i].pnl
  {
    seq(|rows|, i requires 0 <= i < |rows| => rows[i].pnl)
  }

  /** The value of one date, in a sum over a date list. */
  lemma {:induction false} OneDateCounts(rows: seq<DayRow>, r: DayRow, dates: seq<int>)
    requires StrictlyAscending(dates)
    ensures Total(DayTotals(rows + [r], dates)) == Total(DayTotals(rows, dates)) + if r.date in dates then r.pnl else 0.0
  {
    var n := |dates|;
    if n > 0 {
      var init := dates[..n - 1];
      OneDateCounts(rows, r, init);
      assert (rows + [r])[..|rows|] == rows;
      assert DayTotals(rows + [r], dates) == DayTotals(rows + [r], init) + [DayTotal(rows + [r], dates[n - 1])];
      assert DayTotals(rows, dates) == DayTotals(rows, init) + [DayTotal(rows, dates[n - 1])];
      TotalAppend(DayTotals(rows + [r], init), DayTotal(rows + [r], dates[n - 1]));
      TotalAppend(DayTotals(rows, init), DayTotal(rows, dates[n - 1]));
      assert dates == init + [dates[n - 1]];
    }
  }

  /** Every row is counted exactly once: the daily series adds up to all realized P&L. */
  lemma {:induction false} DailySeriesConserves(rows: seq<DayRow>, dates: seq<int>)
    requires StrictlyAscending(dates) && forall i :: 0 <= i < |rows| ==> rows[i].date in dates
    ensures Total(DayTotals(rows, dates)) == Total(PnlsOf(rows))
    decreases |rows|
  {
    if rows == [] {
      SumZero(|dates|, Vec(DayTotals(rows, dates)));
    } else {
      var n := |rows| - 1;
      DailySeriesConserves(rows[..n], dates);
      assert rows == rows[..n] + [rows[n]];
      OneDateCounts(rows[..n], rows[n], dates);
      assert PnlsOf(rows) == PnlsOf(rows[..n]) + [rows[n].pnl];
      TotalAppend(PnlsOf(rows[..n]), rows[n].pnl);
    }
  }

  /** The cumulative curve of the daily series ends at the sum of all rows. */
  lemma DailyCurveEnds(rows: seq<DayRow>)
    ensures var daily := DayTotals(rows, Dates(rows)); Curve(0.0, daily)[|daily|] == Total(PnlsOf(rows))
  {
    var daily := DayTotals(rows, Dates(rows));
    DatesAreDistinct(rows);
    forall i | 0 <= i < |rows| ensures rows[i].date in Dates(rows) {
    }
    DailySeriesConserves(rows, Dates(rows));
    CurvePoint(0.0, daily, |daily|);
    assert daily[..|daily|] == daily;
  }

  lemma PercentOfMaximum(worst: real, drop: real)
    ensures Max(worst * 100.0, drop * 100.0) == Max(worst, drop) * 100.0
  {
  }

  /** Worst fall of the cumulative curve, in percent of its running peak. */
  method MaxDrawdownPct(daily: seq<real>) returns (pct: real)
    ensures pct == Round4(Worst(Curve(0.0, daily)) * 100.0)
  {
    hide MetricLoop, Round4;
    var cum, peak, mdd := 0.0, 0.0, 0.0;
    ghost var worst, gains := 0.0, [];
    MetricLoopStart(daily, 0.0);
    for k := 0 to |daily|
      invariant MetricLoop(daily, 0.0, k, cum, peak, worst, gains) && mdd == worst * 100.0 && worst >= 0.0
    {
      MetricLoopStep(daily, 0.0, k, cum, peak, worst, gains);
      gains := gains + [if cum > 0.0 then (cum + daily[k] - cum) / cum else 0.0];
      cum := cum + daily[k];
      peak := Max(peak, cum);
      PercentOfMaximum(worst, Drop(peak, cum));
      worst := Max(worst, Drop(peak, cum));
      if peak > 0.0 {
        mdd := Max(mdd, (peak - cum) / peak * 100.0);
      }
    }
    MetricLoopEnd(daily, cum, peak, worst, gains);
    pct := Round4(mdd);
  }

  lemma MetricLoopEnd(daily: seq<real>, cum: real, peak: real, worst: real, gains: seq<real>)
    requires MetricLoop(daily, 0.0, |daily|, cum, peak, worst, gains)
    ensures worst == Worst(Curve(0.0, daily))
  {
    assert daily[..|daily|] == daily;
  }

  /** The drawdown half of summary_curve_metrics and curve_performance. */
  method CurveDrawdown(rows: seq<DayRow>) returns (pct: real)
    ensures pct == Round4(Worst(Curve(0.0, DayTotals(rows, Dates(rows)))) * 100.0)
  {
    var daily := DailySeries(rows);
    pct := MaxDrawdownPct(daily);
  }
}
