/** The funding-rate simulation of services/backtest/app/engine.py. */
module FundingArb {
  import opened Options
  import opened Decimals
  import opened Candles
  import opened Signals
  import opened Sorting
  import opened Backtest

  datatype Rate = Rate(ts: int, dt: string, bps: real)

  function TimeOfRate(): Rate -> real {
    (r: Rate) => r.ts as real
  }

  /** The rates in time order; rates with one timestamp keep their order. */
  function RatesByTime(rates: seq<Rate>): seq<Rate> {
    StableSort(rates, TimeOfRate())
  }

  datatype FundingParams = FundingParams(minEdgeBps: real, sizing: Sizing)

  /** Both entry and exit need a spot candle at the funding time. */
  function FundingSignal(rate: Rate, spot: seq<Candle>, p: FundingParams): Signal {
    var found := Lookup(spot, rate.ts).Some?;
    Signal(rate.bps > p.minEdgeBps + 2.0 * p.sizing.feeBps && found, found)
  }

  function FundingSignals(rates: seq<Rate>, spot: seq<Candle>, p: FundingParams): (signals: seq<Signal>)
    ensures |signals| == |rates|
    ensures forall i :: 0 <= i < |rates| ==> signals[i] == FundingSignal(rates[i], spot, p)
  {
    seq(|rates|, i requires 0 <= i < |rates| => FundingSignal(rates[i], spot, p))
  }

  predicate EntryPriced(rates: seq<Rate>, spot: seq<Candle>, e: nat) {
    e < |rates| && Lookup(spot, rates[e].ts).Some? && Lookup(spot, rates[e].ts).value.close != 0.0
  }

  predicate ValidFunding(rates: seq<Rate>, spot: seq<Candle>, r: Round) {
    r.entry < r.exit < |rates| && EntryPriced(rates, spot, r.entry) && Lookup(spot, rates[r.exit].ts).Some?
  }

  predicate Fundable(book: Book, rates: seq<Rate>, spot: seq<Candle>) {
    && (forall k :: 0 <= k < |book.rounds| ==> ValidFunding(rates, spot, book.rounds[k]))
    && (book.phase.Holding? ==> EntryPriced(rates, spot, book.phase.entry))
  }

  /** Funding received on the notional plus the price change of the spot leg. */
  function FundingGross(bps: real, entryPrice: real, exitPrice: real, positionUsd: real): real
    requires entryPrice != 0.0
  {
    var fundingIncome := bps / 10000.0 * positionUsd;
    var pricePnl := (exitPrice - entryPrice) / entryPrice * positionUsd;
    fundingIncome + pricePnl
  }

  function FundingTrade(rates: seq<Rate>, spot: seq<Candle>, p: FundingParams, r: Round): TradeRecord
    requires ValidFunding(rates, spot, r)
  {
    var entryPrice, exitPrice := Lookup(spot, rates[r.entry].ts).value.close, Lookup(spot, rates[r.exit].ts).value.close;
    var gross := FundingGross(rates[r.entry].bps, entryPrice, exitPrice, PositionUsd(p.sizing));
    var fee := SideFee(p.sizing) + SideFee(p.sizing);
    TradeRecord(rates[r.entry].dt, rates[r.exit].dt, LongSpotShortPerp, entryPrice, exitPrice,
                PositionUsd(p.sizing) / entryPrice, Round6(gross), Round6(fee), Round6(gross - fee), r.exit - r.entry)
  }

  function FundingTrades(rates: seq<Rate>, spot: seq<Candle>, p: FundingParams, rounds: seq<Round>): (trades: seq<TradeRecord>)
    requires forall k :: 0 <= k < |rounds| ==> ValidFunding(rates, spot, rounds[k])
    ensures |trades| == |rounds|
    ensures forall k :: 0 <= k < |rounds| ==> trades[k] == FundingTrade(rates, spot, p, rounds[k])
  {
    if rounds == [] then []
    else FundingTrades(rates, spot, p, rounds[..|rounds| - 1]) + [FundingTrade(rates, spot, p, rounds[|rounds| - 1])]
  }

  function FundingBook(rates: seq<Rate>, spot: seq<Candle>, p: FundingParams): Book {
    Simulate(FundingSignals(rates, spot, p))
  }

  /** The trades over rates in time order. */
  function Funding(rates: seq<Rate>, spot: seq<Candle>, p: FundingParams): Outcome {
    var book := FundingBook(rates, spot, p);
    if Fundable(book, rates, spot) then Done(FundingTrades(rates, spot, p, book.rounds)) else Raised
  }

  /** The dictionary kept while a position is open. */
  datatype OpenFunding = OpenFunding(dt: string, price: real, quantity: real, fee: real, bps: real, idx: nat)

  function OpenAt(rates: seq<Rate>, spot: seq<Candle>, p: FundingParams, e: nat): OpenFunding
    requires EntryPriced(rates, spot, e)
  {
    var price := Lookup(spot, rates[e].ts).value.close;
    OpenFunding(rates[e].dt, price, PositionUsd(p.sizing) / price, SideFee(p.sizing), rates[e].bps, e)
  }

  function CloseFunding(open: OpenFunding, exit: Rate, exitPrice: real, p: FundingParams, hold: nat): TradeRecord
    requires open.price != 0.0
  {
    var gross := FundingGross(open.bps, open.price, exitPrice, PositionUsd(p.sizing));
    var fee := open.fee + SideFee(p.sizing);
    TradeRecord(open.dt, exit.dt, LongSpotShortPerp, open.price, exitPrice, open.quantity,
                Round6(gross), Round6(fee), Round6(gross - fee), hold)
  }

  /** What the loop's variables hold after i rates. */
  ghost predicate FundingLoop(rates: seq<Rate>, spot: seq<Candle>, p: FundingParams, i: nat,
                              open: Option<OpenFunding>, trades: seq<TradeRecord>) {
    i <= |rates| &&
    var book := Simulate(FundingSignals(rates, spot, p)[..i]);
    && Fundable(book, rates, spot)
    && trades == FundingTrades(rates, spot, p, book.rounds)
    && (match book.phase
        case Flat => open == None
        case Holding(e) => e < i && open == Some(OpenAt(rates, spot, p, e)))
  }

  method RunFundingArb(spot: seq<Candle>, fundingRates: seq<Rate>, p: FundingParams) returns (out: Outcome)
    ensures out == Funding(RatesByTime(fundingRates), spot, p)
  {
    hide RatesByTime, Funding, FundingLoop, FundingSignals, CloseFunding, PositionUsd, SideFee;
    var positionUsd := PositionUsd(p.sizing);
    var spotByTs := IndexByTs(spot);
    var rates := RatesByTime(fundingRates);
    var trades: seq<TradeRecord> := [];
    var open: Option<OpenFunding> := None;
    FundingLoopStart(rates, spot, p);
    for i := 0 to |rates|
      invariant FundingLoop(rates, spot, p, i, open, trades)
    {
      var rate := rates[i];
      if open.None? && rate.bps > p.minEdgeBps + 2.0 * p.sizing.feeBps {
        if rate.ts !in spotByTs {
          FundingLoopKeeps(rates, spot, p, i, open, trades);
          continue;
        }
        var price := spotByTs[rate.ts].close;
        if price == 0.0 {
          FundingLoopRaises(rates, spot, p, i, trades);
          return Raised;
        }
        FundingLoopOpens(rates, spot, p, i, trades);
        open := Some(OpenFunding(rate.dt, price, positionUsd / price, SideFee(p.sizing), rate.bps, i));
      } else if open.Some? && i > open.value.idx {
        if rate.ts !in spotByTs {
          FundingLoopKeeps(rates, spot, p, i, open, trades);
          continue;
        }
        FundingLoopCloses(rates, spot, p, i, open, trades);
        trades := trades + [CloseFunding(open.value, rate, spotByTs[rate.ts].close, p, i - open.value.idx)];
        open := None;
      } else {
        FundingLoopEntry(rates, spot, p, i, open, trades);
        FundingLoopKeeps(rates, spot, p, i, open, trades);
      }
    }
    FundingLoopEnd(rates, spot, p, open, trades);
    return Done(trades);
  }

  lemma FundingLoopStart(rates: seq<Rate>, spot: seq<Candle>, p: FundingParams)
    ensures FundingLoop(rates, spot, p, 0, None, [])
  {
  }

  lemma FundingLoopEntry(rates: seq<Rate>, spot: seq<Candle>, p: FundingParams, i: nat,
                         open: Option<OpenFunding>, trades: seq<TradeRecord>)
    requires FundingLoop(rates, spot, p, i, open, trades)
    ensures open.Some? ==> open.value.idx < i
  {
  }

  lemma FundingLoopKeeps(rates: seq<Rate>, spot: seq<Candle>, p: FundingParams, i: nat,
                         open: Option<OpenFunding>, trades: seq<TradeRecord>)
    requires i < |rates| && FundingLoop(rates, spot, p, i, open, trades)
    requires var s := FundingSignal(rates[i], spot, p); !(open.None? && s.enter) && !(open.Some? && s.exit)
    ensures FundingLoop(rates, spot, p, i + 1, open, trades)
  {
    hide Simulate, FundingSignal, ValidFunding, FundingTrades, EntryPriced;
    SimulateOneMore(FundingSignals(rates, spot, p), i);
  }

  lemma FundingLoopOpens(rates: seq<Rate>, spot: seq<Candle>, p: FundingParams, i: nat, trades: seq<TradeRecord>)
    requires i < |rates| && FundingLoop(rates, spot, p, i, None, trades)
    requires FundingSignal(rates[i], spot, p).enter && EntryPriced(rates, spot, i)
    ensures FundingLoop(rates, spot, p, i + 1, Some(OpenAt(rates, spot, p, i)), trades)
  {
    hide Simulate, FundingSignal, ValidFunding, FundingTrades;
    SimulateOneMore(FundingSignals(rates, spot, p), i);
  }

  lemma FundingTradesAppend(rates: seq<Rate>, spot: seq<Candle>, p: FundingParams, rounds: seq<Round>, r: Round)
    requires ValidFunding(rates, spot, r) && forall k :: 0 <= k < |rounds| ==> ValidFunding(rates, spot, rounds[k])
    ensures forall k :: 0 <= k < |rounds + [r]| ==> ValidFunding(rates, spot, (rounds + [r])[k])
    ensures FundingTrades(rates, spot, p, rounds + [r])
            == FundingTrades(rates, spot, p, rounds) + [FundingTrade(rates, spot, p, r)]
  {
  }

  lemma CloseIsTrade(rates: seq<Rate>, spot: seq<Candle>, p: FundingParams, r: Round)
    requires ValidFunding(rates, spot, r)
    ensures CloseFunding(OpenAt(rates, spot, p, r.entry), rates[r.exit], Lookup(spot, rates[r.exit].ts).value.close, p, r.exit - r.entry)
            == FundingTrade(rates, spot, p, r)
  {
    hide Lookup, FundingGross, Round6, SideFee, PositionUsd;
  }

  lemma FundingLoopCloses(rates: seq<Rate>, spot: seq<Candle>, p: FundingParams, i: nat,
                          open: Option<OpenFunding>, trades: seq<TradeRecord>)
    requires i < |rates| && open.Some? && FundingLoop(rates, spot, p, i, open, trades)
    requires Lookup(spot, rates[i].ts).Some?
    ensures open.value.price != 0.0 && open.value.idx < i
    ensures FundingLoop(rates, spot, p, i + 1, None,
                        trades + [CloseFunding(open.value, rates[i], Lookup(spot, rates[i].ts).value.close, p, i - open.value.idx)])
  {
    hide Simulate, Lookup, FundingTrades, FundingTrade, CloseFunding;
    var signals := FundingSignals(rates, spot, p);
    SimulateOneMore(signals, i);
    var book := Simulate(signals[..i]);
    var r := Round(book.phase.entry, i);
    assert ValidFunding(rates, spot, r);
    FundingTradesAppend(rates, spot, p, book.rounds, r);
    CloseIsTrade(rates, spot, p, r);
  }

  lemma FundableStep(book: Book, s: Signal, i: nat, rates: seq<Rate>, spot: seq<Candle>)
    requires !Fundable(book, rates, spot)
    ensures !Fundable(Next(book, s, i), rates, spot)
  {
    hide EntryPriced;
    var after := Next(book, s, i);
    assert forall k :: 0 <= k < |book.rounds| ==> after.rounds[k] == book.rounds[k];
    if |after.rounds| > |book.rounds| {
      assert after.rounds[|book.rounds|] == Round(book.phase.entry, i);
    }
  }

  lemma {:induction false} UnfundableStays(signals: seq<Signal>, i: nat, rates: seq<Rate>, spot: seq<Candle>)
    requires i <= |signals| && !Fundable(Simulate(signals[..i]), rates, spot)
    ensures !Fundable(Simulate(signals), rates, spot)
    decreases |signals| - i
  {
    hide Fundable;
    if i == |signals| {
      assert signals[..i] == signals;
    } else {
      SimulateOneMore(signals, i);
      FundableStep(Simulate(signals[..i]), signals[i], i, rates, spot);
      UnfundableStays(signals, i + 1, rates, spot);
    }
  }

  lemma FundingLoopRaises(rates: seq<Rate>, spot: seq<Candle>, p: FundingParams, i: nat, trades: seq<TradeRecord>)
    requires i < |rates| && FundingLoop(rates, spot, p, i, None, trades)
    requires FundingSignal(rates[i], spot, p).enter && !EntryPriced(rates, spot, i)
    ensures Funding(rates, spot, p) == Raised
  {
    hide Simulate, FundingSignal, ValidFunding, FundingTrades;
    var signals := FundingSignals(rates, spot, p);
    SimulateOneMore(signals, i);
    UnfundableStays(signals, i + 1, rates, spot);
  }

  lemma FundingLoopEnd(rates: seq<Rate>, spot: seq<Candle>, p: FundingParams, open: Option<OpenFunding>, trades: seq<TradeRecord>)
    requires FundingLoop(rates, spot, p, |rates|, open, trades)
    ensures Funding(rates, spot, p) == Done(trades)
  {
    hide Simulate, FundingTrades, ValidFunding;
    assert FundingSignals(rates, spot, p)[..|rates|] == FundingSignals(rates, spot, p);
  }

  /** As for the other simulation: four fees, and net is gross less fees, up to the sixth decimal. */
  lemma FundingTradeAccounts(rates: seq<Rate>, spot: seq<Candle>, p: FundingParams, r: Round)
    requires ValidFunding(rates, spot, r)
    ensures var t := FundingTrade(rates, spot, p, r);
            && Abs(t.fee - 4.0 * (PositionUsd(p.sizing) * (p.sizing.feeBps / 10000.0))) <= 0.0000005
            && Abs(t.netPnl - (t.pnl - t.fee)) <= 0.0000015
            && t.quantity * t.entryPrice == PositionUsd(p.sizing)
  {
    hide FundingGross, Round6, PositionUsd, Lookup;
    FourFees(p.sizing);
  }

  // ---- What the trades are --------------------------------------------------------------------

  /** The gross P&L moves with the spot price: the short perpetual leg earns the funding but
      its own price change is not simulated.  Only at an unchanged spot price is the result
      the funding alone, as a delta-neutral position would have it. */
  lemma FundingGrossFollowsSpot(bps: real, entryPrice: real, exitPrice: real, positionUsd: real)
    requires entryPrice > 0.0
    ensures FundingGross(bps, entryPrice, exitPrice, positionUsd)
            == bps / 10000.0 * positionUsd + (positionUsd / entryPrice) * (exitPrice - entryPrice)
    ensures positionUsd > 0.0 ==>
              (FundingGross(bps, entryPrice, exitPrice, positionUsd) == bps / 10000.0 * positionUsd <==> exitPrice == entryPrice)
  {
  }

  // ---- No look-ahead -----------------------------------------------------------------------------

  lemma FundablePrefix(signals: seq<Signal>, rates: seq<Rate>, spot: seq<Candle>, k: nat)
    requires k <= |signals| == |rates| && Fundable(Simulate(signals), rates, spot)
    ensures Fundable(Simulate(signals[..k]), rates[..k], spot)
  {
    hide Simulate;
    if !Fundable(Simulate(signals[..k]), rates, spot) { UnfundableStays(signals, k, rates, spot); }
    OpenEntryIsInside(signals[..k]);
    forall j | 0 <= j < |Simulate(signals[..k]).rounds| ensures ValidFunding(rates[..k], spot, Simulate(signals[..k]).rounds[j]) {
      RoundIsInside(signals[..k], j);
    }
  }

  /** A run over the first k rates yields exactly the trades of the full run that exit before k. */
  lemma FundingNoLookAhead(rates: seq<Rate>, spot: seq<Candle>, p: FundingParams, k: nat)
    requires k <= |rates| && Funding(rates, spot, p).Done?
    ensures Funding(rates[..k], spot, p).Done?
    ensures Funding(rates[..k], spot, p).trades <= Funding(rates, spot, p).trades
    ensures var n, rounds := |Funding(rates[..k], spot, p).trades|, FundingBook(rates, spot, p).rounds;
            |rounds| == |Funding(rates, spot, p).trades| && forall j :: 0 <= j < |rounds| ==> (j < n <==> rounds[j].exit < k)
  {
    hide Simulate, ValidFunding, FundingTrade, FundingSignal;
    var signals := FundingSignals(rates, spot, p);
    assert FundingSignals(rates[..k], spot, p) == signals[..k];
    FundablePrefix(signals, rates, spot, k);
    PrefixOfRun(signals, k);
    var some, all := Simulate(signals[..k]).rounds, Simulate(signals).rounds;
    forall j | 0 <= j < |some|
      ensures FundingTrades(rates[..k], spot, p, some)[j] == FundingTrades(rates, spot, p, all)[j]
    {
      assert some[j] == all[j];
      FundingTradePrefix(rates, spot, p, k, all[j]);
    }
  }

  lemma FundingTradePrefix(rates: seq<Rate>, spot: seq<Candle>, p: FundingParams, k: nat, r: Round)
    requires k <= |rates| && ValidFunding(rates, spot, r) && r.exit < k
    ensures ValidFunding(rates[..k], spot, r) && FundingTrade(rates[..k], spot, p, r) == FundingTrade(rates, spot, p, r)
  {
    hide FundingGross, Lookup;
  }

  function IsBefore(t: int): Rate -> bool {
    (r: Rate) => r.ts < t
  }

  /** The rates before time t. */
  function RatesBefore(rates: seq<Rate>, t: int): seq<Rate> {
    Select(rates, IsBefore(t))
  }

  ghost predicate RatesAscend(rates: seq<Rate>) {
    forall i, j :: 0 <= i < j < |rates| ==> rates[i].ts <= rates[j].ts
  }

  lemma {:induction false} NoneBefore(rates: seq<Rate>, t: int)
    requires forall i :: 0 <= i < |rates| ==> rates[i].ts >= t
    ensures RatesBefore(rates, t) == []
  {
    if rates != [] { NoneBefore(rates[1..], t); }
  }

  lemma {:induction false} BeforeIsPrefix(rates: seq<Rate>, t: int)
    requires RatesAscend(rates)
    ensures RatesBefore(rates, t) <= rates
  {
    if rates != [] {
      var tail := rates[1..];
      BeforeIsPrefix(tail, t);
      if rates[0].ts < t {
        assert rates == [rates[0]] + tail;
      } else {
        NoneBefore(tail, t);
      }
    }
  }

  lemma RatesByTimeAscend(rates: seq<Rate>)
    ensures RatesAscend(RatesByTime(rates))
  {
    StableSortIsSort(rates, TimeOfRate());
    var sorted := RatesByTime(rates);
    forall i, j | 0 <= i < j < |sorted| ensures sorted[i].ts <= sorted[j].ts {
      assert TimeOfRate()(sorted[i]) <= TimeOfRate()(sorted[j]);
    }
  }

  /** Candle series that agree on the funding times yield the same run. */
  lemma FundingReadsFundingTimes(rates: seq<Rate>, spot: seq<Candle>, spot': seq<Candle>, p: FundingParams)
    requires forall i :: 0 <= i < |rates| ==> Lookup(spot, rates[i].ts) == Lookup(spot', rates[i].ts)
    ensures Funding(rates, spot, p) == Funding(rates, spot', p)
  {
    hide Lookup, Simulate, FundingTrade;
    assert FundingSignals(rates, spot, p) == FundingSignals(rates, spot', p);
    var book := FundingBook(rates, spot, p);
    forall j | 0 <= j < |book.rounds| && ValidFunding(rates, spot, book.rounds[j])
      ensures FundingTrade(rates, spot, p, book.rounds[j]) == FundingTrade(rates, spot', p, book.rounds[j])
    {
      SameTrade(rates, spot, spot', p, book.rounds[j]);
    }
    if Fundable(book, rates, spot) {
      assert FundingTrades(rates, spot, p, book.rounds) == FundingTrades(rates, spot', p, book.rounds);
    }
  }

  lemma SameTrade(rates: seq<Rate>, spot: seq<Candle>, spot': seq<Candle>, p: FundingParams, r: Round)
    requires forall i :: 0 <= i < |rates| ==> Lookup(spot, rates[i].ts) == Lookup(spot', rates[i].ts)
    requires ValidFunding(rates, spot, r)
    ensures ValidFunding(rates, spot', r) && FundingTrade(rates, spot, p, r) == FundingTrade(rates, spot', p, r)
  {
    hide Lookup, FundingGross;
  }

  /** The round's exit rate lies before time t. */
  predicate FundingClosedBefore(r: Round, rates: seq<Rate>, t: int) {
    r.exit < |rates| && rates[r.exit].ts < t
  }

  /** The rates before t are those before some index. */
  lemma BeforeIsIndex(rates: seq<Rate>, t: int, i: nat)
    requires RatesAscend(rates) && i < |rates|
    ensures rates[i].ts < t <==> i < |RatesBefore(rates, t)|
  {
    hide Select;
    BeforeIsPrefix(rates, t);
    var early := RatesBefore(rates, t);
    if i < |early| {
      assert early[i] == rates[i] && IsBefore(t)(early[i]);
    } else {
      RestIsLater(rates, t, i);
    }
  }

  lemma {:induction false} RestIsLater(rates: seq<Rate>, t: int, i: nat)
    requires RatesAscend(rates) && |RatesBefore(rates, t)| <= i < |rates|
    ensures rates[i].ts >= t
  {
    if rates[0].ts < t {
      RestIsLater(rates[1..], t, i - 1);
    }
  }

  /** Rates and candles from time t on, wherever they stand in the input lists, do not touch the
      trades that were closed before t, and those are all the trades of the run without them. */
  lemma FundingFutureIsInvisible(spot: seq<Candle>, rates: seq<Rate>, p: FundingParams, t: int)
    requires Funding(RatesByTime(rates), spot, p).Done?
    ensures var cut := Funding(RatesByTime(RatesBefore(rates, t)), Before(spot, t), p);
            var full, rounds := Funding(RatesByTime(rates), spot, p), FundingBook(RatesByTime(rates), spot, p).rounds;
            && cut.Done? && cut.trades <= full.trades && |rounds| == |full.trades|
            && forall j :: 0 <= j < |rounds| ==> (j < |cut.trades| <==> FundingClosedBefore(rounds[j], RatesByTime(rates), t))
  {
    hide Funding, FundingBook, Lookup;
    var sorted := RatesByTime(rates);
    SortThenSelect(rates, TimeOfRate(), IsBefore(t));
    RatesByTimeAscend(rates);
    BeforeIsPrefix(sorted, t);
    var early := RatesBefore(sorted, t);
    assert early == sorted[..|early|];
    FundingNoLookAhead(sorted, spot, p, |early|);
    forall i | 0 <= i < |early| ensures Lookup(Before(spot, t), early[i].ts) == Lookup(spot, early[i].ts) {
      assert IsBefore(t)(early[i]);
      LookupBefore(spot, t, early[i].ts);
    }
    FundingReadsFundingTimes(early, Before(spot, t), spot, p);
    var rounds := FundingBook(sorted, spot, p).rounds;
    hide RatesBefore, RatesByTime, RatesAscend;
    forall j | 0 <= j < |rounds| ensures rounds[j].exit < |early| <==> FundingClosedBefore(rounds[j], sorted, t) {
      FundingRoundInside(sorted, spot, p, j);
      BeforeIsIndex(sorted, t, rounds[j].exit);
    }
  }

  lemma FundingRoundInside(rates: seq<Rate>, spot: seq<Candle>, p: FundingParams, j: nat)
    requires j < |FundingBook(rates, spot, p).rounds|
    ensures FundingBook(rates, spot, p).rounds[j].exit < |rates|
  {
    hide Simulate;
    RoundIsInside(FundingSignals(rates, spot, p), j);
  }

  /** A funding time enters exactly when its rate beats the edge and the round-trip fee and it has a
      spot candle; it exits exactly when it has a spot candle. */
  ghost predicate FundingThresholds(signals: seq<Signal>, rates: seq<Rate>, spot: seq<Candle>, p: FundingParams) {
    && |signals| == |rates|
    && forall i :: 0 <= i < |rates| ==>
         && (signals[i].enter <==> rates[i].bps > p.minEdgeBps + 2.0 * p.sizing.feeBps && Lookup(spot, rates[i].ts).Some?)
         && (signals[i].exit <==> Lookup(spot, rates[i].ts).Some?)
  }

  /** The trade of a round: the entry's rate is received on the notional, the spot leg moves from the
      entry's close to the exit's, four taker fees are paid. */
  ghost predicate FundingTradeOf(t: TradeRecord, r: Round, rates: seq<Rate>, spot: seq<Candle>, sizing: Sizing) {
    r.entry < r.exit < |rates| &&
    var entry, exit := Lookup(spot, rates[r.entry].ts), Lookup(spot, rates[r.exit].ts);
    entry.Some? && exit.Some? && entry.value.close != 0.0
    && t.entryDt == rates[r.entry].dt && t.exitDt == rates[r.exit].dt && t.holdCandles == r.exit - r.entry
    && t.side == LongSpotShortPerp && t.entryPrice == entry.value.close && t.exitPrice == exit.value.close
    && t.quantity == PositionUsd(sizing) / entry.value.close
    && Books(t, FundingAndSpot(rates[r.entry].bps, PositionUsd(sizing), t.quantity, exit.value.close - entry.value.close), FourTakerFees(sizing))
  }

  /** The funding on the notional and the gain of the spot quantity. */
  function FundingAndSpot(bps: real, notional: real, quantity: real, move: real): real {
    bps / 10000.0 * notional + quantity * move
  }

  lemma FundingGrossMeaning(bps: real, entryPrice: real, exitPrice: real, usd: real)
    requires entryPrice != 0.0
    ensures FundingGross(bps, entryPrice, exitPrice, usd) == FundingAndSpot(bps, usd, usd / entryPrice, exitPrice - entryPrice)
  {
    MoveOnNotional(exitPrice - entryPrice, entryPrice, usd);
  }

  lemma MoveOnNotional(move: real, price: real, usd: real)
    requires price != 0.0
    ensures move / price * usd == usd / price * move
  {
  }

  lemma FundingTradeFields(rates: seq<Rate>, spot: seq<Candle>, p: FundingParams, r: Round)
    requires ValidFunding(rates, spot, r)
    ensures var t, entry, exit := FundingTrade(rates, spot, p, r), Lookup(spot, rates[r.entry].ts).value.close, Lookup(spot, rates[r.exit].ts).value.close;
            && t.entryDt == rates[r.entry].dt && t.exitDt == rates[r.exit].dt && t.holdCandles == r.exit - r.entry
            && t.side == LongSpotShortPerp && t.entryPrice == entry && t.exitPrice == exit
            && t.quantity == PositionUsd(p.sizing) / entry
            && Books(t, FundingGross(rates[r.entry].bps, entry, exit, PositionUsd(p.sizing)), SideFee(p.sizing) + SideFee(p.sizing))
  {
    hide Round6, Lookup, PositionUsd, FundingGross, SideFee;
  }

  ghost predicate FundingTradesFollow(trades: seq<TradeRecord>, rounds: seq<Round>, rates: seq<Rate>, spot: seq<Candle>, sizing: Sizing) {
    |trades| == |rounds| && forall k :: 0 <= k < |trades| ==> FundingTradeOf(trades[k], rounds[k], rates, spot, sizing)
  }

  lemma FundingTradeMeaning(rates: seq<Rate>, spot: seq<Candle>, p: FundingParams, r: Round)
    requires ValidFunding(rates, spot, r)
    ensures FundingTradeOf(FundingTrade(rates, spot, p, r), r, rates, spot, p.sizing)
  {
    hide Round6, Lookup, PositionUsd, FundingGross, SideFee, FourTakerFees, FundingTrade, Books, FundingAndSpot;
    FundingTradeFields(rates, spot, p, r);
    FourFeesPaid(p.sizing);
    FundingGrossMeaning(rates[r.entry].bps, Lookup(spot, rates[r.entry].ts).value.close, Lookup(spot, rates[r.exit].ts).value.close,
                        PositionUsd(p.sizing));
  }

  /** The trades of a finished run are those of the alternation of first crossings of the rate. */
  lemma FundingTradesAreCrossings(rates: seq<Rate>, spot: seq<Candle>, p: FundingParams, signals: seq<Signal>, book: Book)
    requires Funding(rates, spot, p).Done?
    requires FundingThresholds(signals, rates, spot, p) && Crossings(book, signals)
    ensures FundingTradesFollow(Funding(rates, spot, p).trades, book.rounds, rates, spot, p.sizing)
  {
    hide Crossings, Simulate, FundingTrade, FundingTradeOf, Lookup;
    assert signals == FundingSignals(rates, spot, p);
    SimulateIffCrossings(book, signals);
    forall k | 0 <= k < |book.rounds|
      ensures FundingTradeOf(Funding(rates, spot, p).trades[k], book.rounds[k], rates, spot, p.sizing)
    {
      FundingTradeMeaning(rates, spot, p, book.rounds[k]);
    }
  }

  /** A position is held for one funding period exactly when the next funding time has a spot
      candle; without one the exit waits. */
  lemma HeldOnePeriodIff(rates: seq<Rate>, spot: seq<Candle>, p: FundingParams, k: nat)
    requires k < |FundingBook(rates, spot, p).rounds|
    ensures var r := FundingBook(rates, spot, p).rounds[k];
            && r.entry < r.exit < |rates|
            && rates[r.entry].bps > p.minEdgeBps + 2.0 * p.sizing.feeBps
            && (r.exit == r.entry + 1 <==> Lookup(spot, rates[r.entry + 1].ts).Some?)
  {
    hide Lookup, Simulate;
    var signals := FundingSignals(rates, spot, p);
    SimulateCrosses(signals);
    var r := FundingBook(rates, spot, p).rounds[k];
    assert RoundAt(FundingBook(rates, spot, p).rounds, k, signals);
    if r.entry + 1 < r.exit { assert !signals[r.entry + 1].exit; }
  }
}
