/** The z-score of services/backtest/app/engine.py as a score of the statistical-arbitrage
    simulation: what its thresholds mean, and that the unit of price does not matter. */
module ZScores {
  import opened Options
  import opened Decimals
  import opened Sums
  import opened Candles
  import opened Signals
  import opened Backtest
  import Allocation
  import Metrics

  type Root = real -> real

  ghost predicate IsRoot(root: Root) {
    forall x :: x >= 0.0 ==> root(x) >= 0.0 && root(x) * root(x) == x
  }

  /** Distance from the window's mean in sample standard deviations; 0 when there is no spread
      to measure, a window of fewer than two values included. */
  function ZScore(root: Root, window: seq<real>, value: real): real {
    if |window| < 2 then 0.0
    else
      Standard(value, Average(window), root(Variance(window)))
  }

  function Standard(value: real, mean: real, sigma: real): real {
    if sigma > 0.0 then (value - mean) / sigma else 0.0
  }

  function ScoreOf(root: Root): Score {
    (window, value) => ZScore(root, window, value)
  }

  function Average(window: seq<real>): real
    requires window != []
  {
    Allocation.Mean(|window|, window)
  }

  function Variance(window: seq<real>): (v: real)
    ensures v >= 0.0
  {
    Allocation.CovSelfNonnegative(window);
    Allocation.Cov(window, window)
  }

  // ---- What the thresholds mean --------------------------------------------------------------

  lemma SquaresOrder(x: real, y: real)
    requires x >= 0.0 && y >= 0.0
    ensures x < y <==> x * x < y * y
  {
    var gap, sum := y - x, y + x;
    assert y * y - x * x == gap * sum;
    if x < y { StrictlyMonotone(0.0, gap, sum); } else { Monotone(gap, 0.0, sum); }
  }

  lemma SquareSign(x: real, v: real)
    requires x >= 0.0 && x * x == v
    ensures x > 0.0 <==> v > 0.0
  {
    if x > 0.0 { ProductPositive(x, x, v); } else { ZeroSquare(x, v); }
  }

  lemma ZeroSquare(x: real, v: real)
    requires x == 0.0 && x * x == v
    ensures v == 0.0
  {
  }

  lemma ProductPositive(x: real, y: real, product: real)
    requires x > 0.0 && y > 0.0 && product == x * y
    ensures product > 0.0
  {
  }

  lemma Monotone(x: real, y: real, c: real)
    requires x <= y && c >= 0.0
    ensures x * c <= y * c
  {
  }

  lemma StrictlyMonotone(x: real, y: real, c: real)
    requires x < y && c > 0.0
    ensures x * c < y * c
  {
  }

  lemma AbsSquare(x: real)
    ensures Abs(x) * Abs(x) == x * x
  {
  }

  lemma ProductSquare(x: real, y: real)
    ensures (x * y) * (x * y) == x * x * (y * y)
  {
  }

  /** |d / sigma| against a bound, without the root. */
  lemma RatioOrder(d: real, sigma: real, v: real, bound: real)
    requires sigma > 0.0 && sigma * sigma == v && bound >= 0.0
    ensures Abs(d / sigma) > bound <==> d * d > bound * bound * v
    ensures Abs(d / sigma) < bound <==> d * d < bound * bound * v
  {
    var q := d / sigma;
    assert q * sigma == d;
    var r := Abs(q) * sigma;
    assert r == Abs(d);
    ScaledOrder(Abs(q), bound, sigma);
    SquaresOrder(bound * sigma, Abs(d));
    SquaresOrder(Abs(d), bound * sigma);
    AbsSquare(d);
    ProductSquare(bound, sigma);
  }

  lemma ScaledOrder(x: real, y: real, c: real)
    requires c > 0.0
    ensures x < y <==> x * c < y * c
    ensures y < x <==> y * c < x * c
  {
  }

  lemma StandardThresholds(value: real, mean: real, sigma: real, v: real, p: Params)
    requires sigma >= 0.0 && sigma * sigma == v && p.entryZ >= 0.0 && p.exitZ > 0.0
    ensures var z, d := Standard(value, mean, sigma), value - mean;
            && (Abs(z) > p.entryZ <==> v > 0.0 && d * d > p.entryZ * p.entryZ * v)
            && (Abs(z) < p.exitZ <==> v == 0.0 || d * d < p.exitZ * p.exitZ * v)
            && (z > 0.0 <==> v > 0.0 && d > 0.0)
  {
    var d := value - mean;
    SquareSign(sigma, v);
    if sigma > 0.0 {
      RatioOrder(d, sigma, v, p.entryZ);
      RatioOrder(d, sigma, v, p.exitZ);
      QuotientSign(d, sigma);
      hide Abs;
    } else {
      ZeroSquare(sigma, v);
    }
  }

  /** A position opens exactly when the spread is off the window's mean by more than entryZ
      standard deviations, and the side is the sign of that distance.  A flat window opens
      nothing and closes whatever is open. */
  lemma ThresholdsMeaning(root: Root, window: seq<real>, value: real, p: Params)
    requires IsRoot(root) && window != [] && p.entryZ >= 0.0 && p.exitZ > 0.0
    ensures var signal, d, v := StatSignal(Some(ZScore(root, window, value)), p), value - Average(window), Variance(window);
            && (signal.enter <==> v > 0.0 && d * d > p.entryZ * p.entryZ * v)
            && (signal.exit <==> v == 0.0 || d * d < p.exitZ * p.exitZ * v)
            && (ZScore(root, window, value) > 0.0 <==> v > 0.0 && d > 0.0)
  {
    if |window| < 2 {
      assert Variance(window) == 0.0;
    } else {
      var v := Variance(window);
      assert root(v) >= 0.0 && root(v) * root(v) == v;
      StandardThresholds(value, Average(window), root(v), v, p);
      hide Average, Variance, Standard, IsRoot, Abs;
    }
  }

  lemma QuotientSign(d: real, sigma: real)
    requires sigma > 0.0
    ensures d / sigma > 0.0 <==> d > 0.0
  {
    if d <= 0.0 { assert d / sigma <= 0.0; }
  }

  // ---- The unit of price ------------------------------------------------------------------------

  /** An amount in a unit c times smaller. */
  function In(c: real, x: real): real {
    c * x
  }

  function Scale(c: real, values: seq<real>): (scaled: seq<real>)
    ensures |scaled| == |values| && forall i :: 0 <= i < |values| ==> scaled[i] == In(c, values[i])
  {
    seq(|values|, i requires 0 <= i < |values| => In(c, values[i]))
  }

  lemma ScaleIsAxpy(c: real, values: seq<real>)
    ensures Allocation.Axpy(Scale(c, values), values, c - 1.0, values)
  {
    forall t | 0 <= t < |values| ensures Scale(c, values)[t] == values[t] + (c - 1.0) * values[t] {
    }
  }

  lemma ScaledMoments(c: real, window: seq<real>)
    requires |window| >= 2
    ensures Average(Scale(c, window)) == In(c, Average(window))
    ensures Variance(Scale(c, window)) == In(c, In(c, Variance(window)))
  {
    hide Allocation.Mean, Allocation.Cov, Allocation.Axpy, Scale;
    var scaled := Scale(c, window);
    ScaleIsAxpy(c, window);
    Allocation.MeanAxpy(|window|, scaled, window, c - 1.0, window);
    Allocation.CovAxpy(scaled, window, c - 1.0, window, scaled);
    Allocation.CovAxpy(scaled, window, c - 1.0, window, window);
    Allocation.CovSymmetric(window, scaled);
  }

  lemma RootScales(root: Root, c: real, v: real)
    requires IsRoot(root) && c > 0.0 && v >= 0.0
    ensures root(In(c, In(c, v))) == In(c, root(v))
  {
    var w, sigma := In(c, In(c, v)), root(v);
    Monotone(0.0, v, c);
    Monotone(0.0, c * v, c);
    assert w >= 0.0 && sigma >= 0.0 && sigma * sigma == v;
    Monotone(0.0, sigma, c);
    ScaledSquare(c, sigma, v, w);
    SameSquare(root(w), In(c, sigma), w);
  }

  lemma ScaledSquare(c: real, x: real, v: real, w: real)
    requires x * x == v && w == c * (c * v)
    ensures (c * x) * (c * x) == w
  {
  }

  lemma SameSquare(x: real, y: real, w: real)
    requires x >= 0.0 && y >= 0.0 && x * x == w && y * y == w
    ensures x == y
  {
    SquaresOrder(x, y);
    SquaresOrder(y, x);
  }

  lemma QuotientScales(c: real, d: real, sigma: real)
    requires c > 0.0 && sigma > 0.0
    ensures In(c, sigma) > 0.0 && In(c, d) / In(c, sigma) == d / sigma
  {
  }

  lemma Distribute(c: real, x: real, y: real)
    ensures In(c, x) - In(c, y) == In(c, x - y)
  {
  }

  lemma StandardIsUnitFree(c: real, value: real, mean: real, sigma: real)
    requires c > 0.0
    ensures Standard(In(c, value), In(c, mean), In(c, sigma)) == Standard(value, mean, sigma)
  {
    Distribute(c, value, mean);
    ScaledOrder(0.0, sigma, c);
    if sigma > 0.0 { QuotientScales(c, value - mean, sigma); }
  }

  /** The z-score has no unit. */
  lemma ZScoreIsUnitFree(root: Root, c: real, window: seq<real>, value: real)
    requires IsRoot(root) && c > 0.0
    ensures ZScore(root, Scale(c, window), In(c, value)) == ZScore(root, window, value)
  {
    hide Average, Variance, IsRoot, Scale, Standard, In;
    if |window| >= 2 {
      ScaledMoments(c, window);
      RootScales(root, c, Variance(window));
      StandardIsUnitFree(c, value, Average(window), root(Variance(window)));
    }
  }

  function InUnit(c: real, candle: Candle): Candle {
    candle.(mid := In(c, candle.mid))
  }

  /** The same candles with their prices in another unit. */
  function PairsInUnit(c: real, pairs: seq<Pair>): (scaled: seq<Pair>)
    ensures |scaled| == |pairs|
    ensures forall i :: 0 <= i < |pairs| ==> scaled[i] == Pair(InUnit(c, pairs[i].spot), InUnit(c, pairs[i].perp))
  {
    seq(|pairs|, i requires 0 <= i < |pairs| => Pair(InUnit(c, pairs[i].spot), InUnit(c, pairs[i].perp)))
  }

  function TradeInUnit(c: real, t: TradeRecord): TradeRecord
    requires c > 0.0
  {
    t.(entryPrice := In(c, t.entryPrice), exitPrice := In(c, t.exitPrice), quantity := t.quantity / c)
  }

  function TradesInUnit(c: real, trades: seq<TradeRecord>): (scaled: seq<TradeRecord>)
    requires c > 0.0
    ensures |scaled| == |trades| && forall k :: 0 <= k < |trades| ==> scaled[k] == TradeInUnit(c, trades[k])
  {
    seq(|trades|, k requires 0 <= k < |trades| => TradeInUnit(c, trades[k]))
  }

  function OutcomeInUnit(c: real, outcome: Outcome): Outcome
    requires c > 0.0
  {
    match outcome
    case Insufficient => Insufficient
    case Raised => Raised
    case Done(trades) => Done(TradesInUnit(c, trades))
  }

  lemma ScaledSpreads(c: real, pairs: seq<Pair>)
    ensures Spreads(PairsInUnit(c, pairs)) == Scale(c, Spreads(pairs))
  {
    hide In;
    forall i | 0 <= i < |pairs| ensures Spreads(PairsInUnit(c, pairs))[i] == Scale(c, Spreads(pairs))[i] {
      ScaledSpread(c, pairs[i]);
    }
  }

  lemma ScaledSpread(c: real, pair: Pair)
    ensures Spread(Pair(InUnit(c, pair.spot), InUnit(c, pair.perp))) == In(c, Spread(pair))
  {
    Distribute(c, pair.spot.mid, pair.perp.mid);
  }

  lemma ScaleSlices(c: real, values: seq<real>, i: nat, j: nat)
    requires i <= j <= |values|
    ensures Scale(c, values)[i..j] == Scale(c, values[i..j])
  {
    hide Scale, In;
    forall k | 0 <= k < j - i ensures Scale(c, values)[i..j][k] == Scale(c, values[i..j])[k] {
      assert Scale(c, values)[i + k] == In(c, values[i + k]);
    }
  }

  lemma ScaledZAt(root: Root, c: real, values: seq<real>, window: nat, i: nat)
    requires IsRoot(root) && c > 0.0 && i < |values|
    ensures ZAt(Scale(c, values), window, ScoreOf(root), i) == ZAt(values, window, ScoreOf(root), i)
  {
    hide IsRoot, ZScore, Scale, In;
    if i >= window {
      ScaleSlices(c, values, i - window, i);
      ZScoreIsUnitFree(root, c, values[i - window..i], values[i]);
    }
  }

  lemma SignalsAreUnitFree(root: Root, c: real, pairs: seq<Pair>, p: Params)
    requires IsRoot(root) && c > 0.0
    ensures StatSignals(PairsInUnit(c, pairs), p, ScoreOf(root)) == StatSignals(pairs, p, ScoreOf(root))
  {
    hide IsRoot, ZAt, Spreads, ScoreOf, StatSignal;
    ScaledSpreads(c, pairs);
    forall i | 0 <= i < |pairs|
      ensures StatSignals(PairsInUnit(c, pairs), p, ScoreOf(root))[i] == StatSignals(pairs, p, ScoreOf(root))[i]
    {
      ScaledZAt(root, c, Spreads(pairs), p.window, i);
    }
  }

  /** Gross P&L is a ratio of prices. */
  lemma GrossIsUnitFree(side: Side, c: real, entrySpread: real, exitSpread: real, price: real, positionUsd: real)
    requires c > 0.0 && price != 0.0
    ensures In(c, price) != 0.0
    ensures StatGross(side, In(c, entrySpread), In(c, exitSpread), In(c, price), positionUsd)
            == StatGross(side, entrySpread, exitSpread, price, positionUsd)
  {
    ScaledAbs(c, price);
    Distribute(c, entrySpread, exitSpread);
    var d := entrySpread - exitSpread;
    SignMoves(Sign(side), c, d);
    QuotientScales(c, Sign(side) * d, Abs(price));
    hide In;
  }

  lemma ScaledAbs(c: real, price: real)
    requires c > 0.0
    ensures Abs(In(c, price)) == In(c, Abs(price)) && (In(c, price) != 0.0 <==> price != 0.0)
  {
    ScaledOrder(price, 0.0, c);
  }

  lemma SignMoves(sign: real, c: real, d: real)
    ensures sign * In(c, d) == In(c, sign * d)
  {
  }

  lemma QuantityScales(usd: real, c: real, price: real)
    requires c > 0.0 && price != 0.0
    ensures In(c, price) != 0.0 && usd / In(c, price) == usd / price / c
  {
    var q := usd / price / c;
    assert q * c == usd / price;
    assert (q * c) * price == usd;
    assert q * (c * price) == usd;
  }

  lemma TradeIsUnitFree(root: Root, c: real, pairs: seq<Pair>, p: Params, r: Round)
    requires IsRoot(root) && c > 0.0 && ValidRound(pairs, r)
    ensures ValidRound(PairsInUnit(c, pairs), r)
    ensures StatTrade(PairsInUnit(c, pairs), p, ScoreOf(root), r) == TradeInUnit(c, StatTrade(pairs, p, ScoreOf(root), r))
  {
    hide IsRoot, StatGross, Round6, Spreads, Spread, ZAt, ScoreOf, PositionUsd, SideFee, PairsInUnit, EntrySide, In;
    var entry, exit := pairs[r.entry], pairs[r.exit];
    SideIsUnitFree(root, c, pairs, p, r.entry);
    ScaledSpread(c, entry);
    ScaledSpread(c, exit);
    GrossIsUnitFree(EntrySide(pairs, p, ScoreOf(root), r.entry), c, Spread(entry), Spread(exit), entry.spot.mid, PositionUsd(p.sizing));
    QuantityScales(PositionUsd(p.sizing), c, entry.spot.mid);
  }

  lemma SideIsUnitFree(root: Root, c: real, pairs: seq<Pair>, p: Params, e: nat)
    requires IsRoot(root) && c > 0.0 && e < |pairs|
    ensures EntrySide(PairsInUnit(c, pairs), p, ScoreOf(root), e) == EntrySide(pairs, p, ScoreOf(root), e)
  {
    hide IsRoot, ZAt, Spreads, ScoreOf, PairsInUnit;
    ScaledSpreads(c, pairs);
    ScaledZAt(root, c, Spreads(pairs), p.window, e);
  }

  lemma TradableIsUnitFree(c: real, book: Book, pairs: seq<Pair>)
    requires c > 0.0
    ensures Tradable(book, PairsInUnit(c, pairs)) <==> Tradable(book, pairs)
  {
    forall i | 0 <= i < |pairs| ensures PairsInUnit(c, pairs)[i].spot.mid == 0.0 <==> pairs[i].spot.mid == 0.0 {
      ScaledAbs(c, pairs[i].spot.mid);
    }
    assert forall k :: 0 <= k < |book.rounds| ==>
      (ValidRound(PairsInUnit(c, pairs), book.rounds[k]) <==> ValidRound(pairs, book.rounds[k]));
  }

  lemma TradableRounds(book: Book, pairs: seq<Pair>)
    requires Tradable(book, pairs)
    ensures forall k :: 0 <= k < |book.rounds| ==> ValidRound(pairs, book.rounds[k])
  {
  }

  /** Quoting both markets in another unit yields the same simulation: the same trades at the
      same times with the same P&L, only prices and quantities in the new unit. */
  lemma UnitOfPriceIsIrrelevant(root: Root, c: real, pairs: seq<Pair>, p: Params)
    requires IsRoot(root) && c > 0.0
    ensures StatArb(PairsInUnit(c, pairs), p, ScoreOf(root)) == OutcomeInUnit(c, StatArb(pairs, p, ScoreOf(root)))
  {
    hide IsRoot, StatSignals, Simulate, Tradable, StatTrade, TradeInUnit, ScoreOf;
    var score := ScoreOf(root);
    SignalsAreUnitFree(root, c, pairs, p);
    var book := StatBook(pairs, p, score);
    TradableIsUnitFree(c, book, pairs);
    if |pairs| >= p.window + 10 && Tradable(book, pairs) {
      TradableRounds(book, pairs);
      TradableRounds(book, PairsInUnit(c, pairs));
      var some := StatTrades(PairsInUnit(c, pairs), p, score, book.rounds);
      var all := TradesInUnit(c, StatTrades(pairs, p, score, book.rounds));
      forall k | 0 <= k < |book.rounds| ensures some[k] == all[k] {
        TradeIsUnitFree(root, c, pairs, p, book.rounds[k]);
      }
      assert some == all;
    }
  }

  /** Hence so are the reported metrics. */
  lemma MetricsAreUnitFree(c: real, trades: seq<TradeRecord>, capital: real, ratios: Metrics.Ratios)
    requires c > 0.0
    ensures Metrics.MetricsOf(TradesInUnit(c, trades), capital, ratios) == Metrics.MetricsOf(trades, capital, ratios)
  {
    assert Metrics.NetPnls(TradesInUnit(c, trades)) == Metrics.NetPnls(trades);
    assert Metrics.Grosses(TradesInUnit(c, trades)) == Metrics.Grosses(trades);
    assert Metrics.Fees(TradesInUnit(c, trades)) == Metrics.Fees(trades);
    assert Metrics.Holds(TradesInUnit(c, trades)) == Metrics.Holds(trades);
  }
}
