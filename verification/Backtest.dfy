/** The two simulations of services/backtest/app/engine.py.  The z-score of a value
    against its window is a parameter: any function of that window and value. */
module Backtest {
  import opened Options
  import opened Decimals
  import opened Candles
  import opened Signals

  datatype Side = SellSpread | BuySpread | LongSpotShortPerp

  datatype TradeRecord = TradeRecord(entryDt: string, exitDt: string, side: Side, entryPrice: real, exitPrice: real,
                                     quantity: real, pnl: real, fee: real, netPnl: real, holdCandles: nat)

  /** Insufficient is the empty result below window + 10 candles; Raised is the division
      error of an entry at price zero. */
  datatype Outcome = Insufficient | Raised | Done(trades: seq<TradeRecord>)

  /** The fixed size of a position and the taker fee. */
  datatype Sizing = Sizing(feeBps: real, capital: real, positionPct: real)

  datatype Params = Params(window: nat, entryZ: real, exitZ: real, sizing: Sizing)

  type Score = (seq<real>, real) -> real

  function PositionUsd(s: Sizing): real {
    s.capital * s.positionPct
  }

  /** Taker fee on both legs of one side of the trade. */
  function SideFee(s: Sizing): real {
    PositionUsd(s) * (s.feeBps / 10000.0) * 2.0
  }

  // ---- Rolling z-score --------------------------------------------------------------------

  /** The score of values[i] against the window before it, which excludes i. */
  function ZAt(values: seq<real>, window: nat, score: Score, i: nat): Option<real>
    requires i < |values|
  {
    if i < window then None else Some(score(values[i - window..i], values[i]))
  }

  method RollingZ(values: seq<real>, window: nat, score: Score) returns (out: seq<Option<real>>)
    ensures |out| == if |values| < window then window else |values|
    ensures forall i :: 0 <= i < |values| ==> out[i] == ZAt(values, window, score, i)
  {
    out := seq(window, i => None);
    var i := window;
    while i < |values|
      invariant window <= i && |out| == i
      invariant i <= |values| || i == window
      invariant forall j :: 0 <= j < i && j < |values| ==> out[j] == ZAt(values, window, score, j)
    {
      out := out + [Some(score(values[i - window..i], values[i]))];
      i := i + 1;
    }
  }

  lemma ZAtPrefix(values: seq<real>, window: nat, score: Score, k: nat, i: nat)
    requires i < k <= |values|
    ensures ZAt(values[..k], window, score, i) == ZAt(values, window, score, i)
  {
    if i >= window {
      assert values[..k][i - window..i] == values[i - window..i];
    }
  }

  // ---- Statistical arbitrage ----------------------------------------------------------------

  function Spread(pair: Pair): real {
    pair.spot.mid - pair.perp.mid
  }

  function Spreads(pairs: seq<Pair>): (spreads: seq<real>)
    ensures |spreads| == |pairs| && forall i :: 0 <= i < |pairs| ==> spreads[i] == Spread(pairs[i])
  {
    seq(|pairs|, i requires 0 <= i < |pairs| => Spread(pairs[i]))
  }

  function StatSignal(z: Option<real>, p: Params): Signal {
    match z
    case None => Signal(false, false)
    case Some(z) => Signal(Abs(z) > p.entryZ, Abs(z) < p.exitZ)
  }

  function StatSignals(pairs: seq<Pair>, p: Params, score: Score): (signals: seq<Signal>)
    ensures |signals| == |pairs|
    ensures forall i :: 0 <= i < |pairs| ==> signals[i] == StatSignal(ZAt(Spreads(pairs), p.window, score, i), p)
  {
    seq(|pairs|, i requires 0 <= i < |pairs| => StatSignal(ZAt(Spreads(pairs), p.window, score, i), p))
  }

  predicate ValidRound(pairs: seq<Pair>, r: Round) {
    r.entry < r.exit < |pairs| && pairs[r.entry].spot.mid != 0.0
  }

  /** Every position was opened at a price one can divide by. */
  predicate Tradable(book: Book, pairs: seq<Pair>) {
    && (forall k :: 0 <= k < |book.rounds| ==> ValidRound(pairs, book.rounds[k]))
    && (book.phase.Holding? ==> book.phase.entry < |pairs| && pairs[book.phase.entry].spot.mid != 0.0)
  }

  /** The sign of the z-score at the entry. */
  function EntrySide(pairs: seq<Pair>, p: Params, score: Score, e: nat): Side
    requires e < |pairs|
  {
    var z := ZAt(Spreads(pairs), p.window, score, e);
    if z.Some? && z.value > 0.0 then SellSpread else BuySpread
  }

  function Sign(side: Side): real {
    if side == SellSpread then 1.0 else -1.0
  }

  /** Gross P&L of selling (or buying) the spread at one spread and reversing at another. */
  function StatGross(side: Side, entrySpread: real, exitSpread: real, entryPrice: real, positionUsd: real): real
    requires entryPrice != 0.0
  {
    var spreadChange := entrySpread - exitSpread;
    Sign(side) * spreadChange / Abs(entryPrice) * positionUsd
  }

  function StatTrade(pairs: seq<Pair>, p: Params, score: Score, r: Round): TradeRecord
    requires ValidRound(pairs, r)
  {
    var entry, exit, side := pairs[r.entry], pairs[r.exit], EntrySide(pairs, p, score, r.entry);
    var pnl := StatGross(side, Spread(entry), Spread(exit), entry.spot.mid, PositionUsd(p.sizing));
    var fee := SideFee(p.sizing) + SideFee(p.sizing);
    TradeRecord(entry.spot.dt, exit.spot.dt, side, entry.spot.mid, exit.spot.mid,
                PositionUsd(p.sizing) / entry.spot.mid, Round6(pnl), Round6(fee), Round6(pnl - fee), r.exit - r.entry)
  }

  function StatTrades(pairs: seq<Pair>, p: Params, score: Score, rounds: seq<Round>): (trades: seq<TradeRecord>)
    requires forall k :: 0 <= k < |rounds| ==> ValidRound(pairs, rounds[k])
    ensures |trades| == |rounds|
    ensures forall k :: 0 <= k < |rounds| ==> trades[k] == StatTrade(pairs, p, score, rounds[k])
  {
    if rounds == [] then []
    else StatTrades(pairs, p, score, rounds[..|rounds| - 1]) + [StatTrade(pairs, p, score, rounds[|rounds| - 1])]
  }

  function StatBook(pairs: seq<Pair>, p: Params, score: Score): Book {
    Simulate(StatSignals(pairs, p, score))
  }

  /** One trade per pair of first crossings. */
  function StatArb(pairs: seq<Pair>, p: Params, score: Score): Outcome {
    var book := StatBook(pairs, p, score);
    if |pairs| < p.window + 10 then Insufficient
    else if !Tradable(book, pairs) then Raised
    else Done(StatTrades(pairs, p, score, book.rounds))
  }

  /** The dictionary kept while a position is open. */
  datatype EntryData = EntryData(dt: string, spread: real, price: real, quantity: real, fee: real)

  function EntryAt(pairs: seq<Pair>, p: Params, e: nat): EntryData
    requires e < |pairs| && pairs[e].spot.mid != 0.0
  {
    EntryData(pairs[e].spot.dt, Spread(pairs[e]), pairs[e].spot.mid, PositionUsd(p.sizing) / pairs[e].spot.mid, SideFee(p.sizing))
  }

  /** The record appended when a position is closed. */
  function CloseTrade(entry: EntryData, side: Side, exitSpread: real, exit: Candle, p: Params, hold: nat): TradeRecord
    requires entry.price != 0.0
  {
    var pnl := StatGross(side, entry.spread, exitSpread, entry.price, PositionUsd(p.sizing));
    var totalFee := entry.fee + SideFee(p.sizing);
    TradeRecord(entry.dt, exit.dt, side, entry.price, exit.mid, entry.quantity,
                Round6(pnl), Round6(totalFee), Round6(pnl - totalFee), hold)
  }

  /** What the loop's variables hold after i candles. */
  ghost predicate StatLoop(pairs: seq<Pair>, p: Params, score: Score, i: nat, inPosition: bool, entryIdx: nat,
                           entrySide: Side, entry: Option<EntryData>, trades: seq<TradeRecord>)
  {
    i <= |pairs| &&
    var book := Simulate(StatSignals(pairs, p, score)[..i]);
    && Tradable(book, pairs)
    && trades == StatTrades(pairs, p, score, book.rounds)
    && inPosition == book.phase.Holding?
    && (inPosition ==>
          && book.phase.entry == entryIdx < i
          && entry == Some(EntryAt(pairs, p, entryIdx))
          && entrySide == EntrySide(pairs, p, score, entryIdx))
  }

  lemma SimulateOneMore(signals: seq<Signal>, i: nat)
    requires i < |signals|
    ensures Simulate(signals[..i + 1]) == Next(Simulate(signals[..i]), signals[i], i)
  {
    assert signals[..i + 1][..i] == signals[..i];
  }

  /** A position once opened stays among the positions opened. */
  lemma {:induction false} UntradableStays(signals: seq<Signal>, i: nat, pairs: seq<Pair>)
    requires i <= |signals| && !Tradable(Simulate(signals[..i]), pairs)
    ensures !Tradable(Simulate(signals), pairs)
    decreases |signals| - i
  {
    if i == |signals| {
      assert signals[..i] == signals;
    } else {
      SimulateOneMore(signals, i);
      UntradableStep(Simulate(signals[..i]), signals[i], i, pairs);
      UntradableStays(signals, i + 1, pairs);
    }
  }

  lemma UntradableStep(book: Book, s: Signal, i: nat, pairs: seq<Pair>)
    requires !Tradable(book, pairs)
    ensures !Tradable(Next(book, s, i), pairs)
  {
    var after := Next(book, s, i);
    assert forall k :: 0 <= k < |book.rounds| ==> after.rounds[k] == book.rounds[k];
    if |after.rounds| > |book.rounds| {
      assert after.rounds[|book.rounds|] == Round(book.phase.entry, i);
    }
  }

  method RunStatArb(spot: seq<Candle>, perp: seq<Candle>, p: Params, score: Score) returns (out: Outcome)
    ensures out == StatArb(Align(spot, perp), p, score)
  {
    hide Align, StatArb, StatLoop, StatSignals, StatBook, ZAt, CloseTrade, PositionUsd, SideFee, Abs;
    var pairs := AlignByTs(spot, perp);
    if |pairs| < p.window + 10 {
      StatArbInsufficient(pairs, p, score);
      return Insufficient;
    }
    var spreads := Spreads(pairs);
    var zScores := RollingZ(spreads, p.window, score);
    var positionUsd := PositionUsd(p.sizing);
    var trades: seq<TradeRecord> := [];
    var inPosition, entryIdx, entrySide := false, 0, BuySpread;
    var entry: Option<EntryData> := None;
    StatLoopStart(pairs, p, score);
    for i := 0 to |pairs|
      invariant StatLoop(pairs, p, score, i, inPosition, entryIdx, entrySide, entry, trades)
    {
      ghost var before := (inPosition, entryIdx, entrySide, entry, trades);
      var pair := pairs[i];
      StatLoopEntry(pairs, p, score, i, inPosition, entryIdx, entrySide, entry, trades);
      if zScores[i].Some? {
        var z := zScores[i].value;
        if !inPosition && Abs(z) > p.entryZ {
          entrySide := if z > 0.0 then SellSpread else BuySpread;
          if pair.spot.mid == 0.0 {
            StatLoopRaises(pairs, p, score, i, entryIdx, before.2, entry, trades, z);
            return Raised;
          }
          entry := Some(EntryData(pair.spot.dt, spreads[i], pair.spot.mid, positionUsd / pair.spot.mid, SideFee(p.sizing)));
          inPosition, entryIdx := true, i;
          StatLoopOpens(pairs, p, score, i, before.1, before.2, before.3, trades, z);
        } else if inPosition && Abs(z) < p.exitZ {
          StatLoopCloses(pairs, p, score, i, entryIdx, entrySide, entry, trades, z);
          trades := trades + [CloseTrade(entry.value, entrySide, spreads[i], pair.spot, p, i - entryIdx)];
          inPosition := false;
        } else {
          StatLoopKeeps(pairs, p, score, i, inPosition, entryIdx, entrySide, entry, trades);
        }
      } else {
        StatLoopKeeps(pairs, p, score, i, inPosition, entryIdx, entrySide, entry, trades);
      }
    }
    StatLoopEnd(pairs, p, score, inPosition, entryIdx, entrySide, entry, trades);
    return Done(trades);
  }

  lemma StatArbInsufficient(pairs: seq<Pair>, p: Params, score: Score)
    requires |pairs| < p.window + 10
    ensures StatArb(pairs, p, score) == Insufficient
  {
  }

  lemma StatLoopStart(pairs: seq<Pair>, p: Params, score: Score)
    ensures StatLoop(pairs, p, score, 0, false, 0, BuySpread, None, [])
  {
  }

  lemma StatLoopEntry(pairs: seq<Pair>, p: Params, score: Score, i: nat, inPosition: bool, entryIdx: nat,
                      entrySide: Side, entry: Option<EntryData>, trades: seq<TradeRecord>)
    requires StatLoop(pairs, p, score, i, inPosition, entryIdx, entrySide, entry, trades)
    ensures inPosition ==> entryIdx < i && entry.Some? && entry.value.price != 0.0
  {
  }

  lemma StatLoopRaises(pairs: seq<Pair>, p: Params, score: Score, i: nat, entryIdx: nat, entrySide: Side,
                       entry: Option<EntryData>, trades: seq<TradeRecord>, z: real)
    requires i < |pairs| && |pairs| >= p.window + 10
    requires StatLoop(pairs, p, score, i, false, entryIdx, entrySide, entry, trades)
    requires ZAt(Spreads(pairs), p.window, score, i) == Some(z) && Abs(z) > p.entryZ && pairs[i].spot.mid == 0.0
    ensures StatArb(pairs, p, score) == Raised
  {
    hide Simulate, ZAt, StatTrades;
    var signals := StatSignals(pairs, p, score);
    SimulateOneMore(signals, i);
    UntradableStays(signals, i + 1, pairs);
  }

  lemma StatLoopOpens(pairs: seq<Pair>, p: Params, score: Score, i: nat, entryIdx: nat, entrySide: Side,
                      entry: Option<EntryData>, trades: seq<TradeRecord>, z: real)
    requires i < |pairs|
    requires StatLoop(pairs, p, score, i, false, entryIdx, entrySide, entry, trades)
    requires ZAt(Spreads(pairs), p.window, score, i) == Some(z) && Abs(z) > p.entryZ && pairs[i].spot.mid != 0.0
    ensures StatLoop(pairs, p, score, i + 1, true, i, if z > 0.0 then SellSpread else BuySpread,
                     Some(EntryAt(pairs, p, i)), trades)
  {
    hide Simulate, ZAt, StatTrades, ValidRound;
    SimulateOneMore(StatSignals(pairs, p, score), i);
  }

  lemma CloseTradeIsStatTrade(pairs: seq<Pair>, p: Params, score: Score, r: Round)
    requires ValidRound(pairs, r)
    ensures CloseTrade(EntryAt(pairs, p, r.entry), EntrySide(pairs, p, score, r.entry), Spread(pairs[r.exit]),
                       pairs[r.exit].spot, p, r.exit - r.entry)
            == StatTrade(pairs, p, score, r)
  {
    hide Round6, StatGross, EntrySide, Spread, SideFee, PositionUsd;
  }

  lemma StatTradesAppend(pairs: seq<Pair>, p: Params, score: Score, rounds: seq<Round>, r: Round)
    requires ValidRound(pairs, r) && forall k :: 0 <= k < |rounds| ==> ValidRound(pairs, rounds[k])
    ensures forall k :: 0 <= k < |rounds + [r]| ==> ValidRound(pairs, (rounds + [r])[k])
    ensures StatTrades(pairs, p, score, rounds + [r]) == StatTrades(pairs, p, score, rounds) + [StatTrade(pairs, p, score, r)]
  {
  }

  lemma StatLoopCloses(pairs: seq<Pair>, p: Params, score: Score, i: nat, entryIdx: nat, entrySide: Side,
                       entry: Option<EntryData>, trades: seq<TradeRecord>, z: real)
    requires i < |pairs|
    requires StatLoop(pairs, p, score, i, true, entryIdx, entrySide, entry, trades)
    requires ZAt(Spreads(pairs), p.window, score, i) == Some(z) && Abs(z) < p.exitZ
    ensures entry.Some? && entry.value.price != 0.0 && entryIdx < i
    ensures StatLoop(pairs, p, score, i + 1, false, entryIdx, entrySide, entry,
                     trades + [CloseTrade(entry.value, entrySide, Spread(pairs[i]), pairs[i].spot, p, i - entryIdx)])
  {
    hide Simulate, ZAt, CloseTrade, StatTrades, StatTrade, Spread, StatGross, EntrySide, Round6, SideFee, PositionUsd, Sign;
    var signals := StatSignals(pairs, p, score);
    SimulateOneMore(signals, i);
    var book := Simulate(signals[..i]);
    assert ValidRound(pairs, Round(entryIdx, i));
    StatTradesAppend(pairs, p, score, book.rounds, Round(entryIdx, i));
    CloseTradeIsStatTrade(pairs, p, score, Round(entryIdx, i));
  }

  lemma StatLoopKeeps(pairs: seq<Pair>, p: Params, score: Score, i: nat, inPosition: bool, entryIdx: nat,
                      entrySide: Side, entry: Option<EntryData>, trades: seq<TradeRecord>)
    requires i < |pairs|
    requires StatLoop(pairs, p, score, i, inPosition, entryIdx, entrySide, entry, trades)
    requires var s := StatSignal(ZAt(Spreads(pairs), p.window, score, i), p);
             !(!inPosition && s.enter) && !(inPosition && s.exit)
    ensures StatLoop(pairs, p, score, i + 1, inPosition, entryIdx, entrySide, entry, trades)
  {
    hide Simulate, ZAt, StatTrades, ValidRound, StatSignal;
    SimulateOneMore(StatSignals(pairs, p, score), i);
  }

  lemma StatLoopEnd(pairs: seq<Pair>, p: Params, score: Score, inPosition: bool, entryIdx: nat,
                    entrySide: Side, entry: Option<EntryData>, trades: seq<TradeRecord>)
    requires |pairs| >= p.window + 10
    requires StatLoop(pairs, p, score, |pairs|, inPosition, entryIdx, entrySide, entry, trades)
    ensures StatArb(pairs, p, score) == Done(trades)
  {
    hide Simulate, StatTrades, ValidRound;
    assert StatSignals(pairs, p, score)[..|pairs|] == StatSignals(pairs, p, score);
  }

  // ---- What the trades are ---------------------------------------------------------------------

  /** Signal i enters exactly when the score of spread i against the `window` spreads before it is
      beyond entryZ in absolute value, and exits exactly when it is within exitZ; the first
      `window` do neither. */
  ghost predicate ThresholdSignals(signals: seq<Signal>, pairs: seq<Pair>, window: nat, entryZ: real, exitZ: real, score: Score) {
    && |signals| == |pairs|
    && forall i :: 0 <= i < |pairs| ==>
         && (signals[i].enter <==> i >= window && Abs(score(Spreads(pairs)[i - window..i], pairs[i].spot.mid - pairs[i].perp.mid)) > entryZ)
         && (signals[i].exit <==> i >= window && Abs(score(Spreads(pairs)[i - window..i], pairs[i].spot.mid - pairs[i].perp.mid)) < exitZ)
  }

  lemma SignalsFollowThresholds(signals: seq<Signal>, pairs: seq<Pair>, p: Params, score: Score)
    ensures ThresholdSignals(signals, pairs, p.window, p.entryZ, p.exitZ, score) <==> signals == StatSignals(pairs, p, score)
  {
  }

  /** The trade of a round: sold when the score at its entry is positive, bought otherwise; what it
      earns is the quantity times the move of the spread in its favour; four taker fees are paid. */
  ghost predicate TradeOfRound(t: TradeRecord, r: Round, pairs: seq<Pair>, window: nat, score: Score, sizing: Sizing) {
    window <= r.entry < r.exit < |pairs| && pairs[r.entry].spot.mid != 0.0 &&
    var entry, exit, usd := pairs[r.entry], pairs[r.exit], PositionUsd(sizing);
    var sold := score(Spreads(pairs)[r.entry - window..r.entry], entry.spot.mid - entry.perp.mid) > 0.0;
    var move := (entry.spot.mid - exit.spot.mid) - (entry.perp.mid - exit.perp.mid);
    && t.entryDt == entry.spot.dt && t.exitDt == exit.spot.dt && t.holdCandles == r.exit - r.entry
    && t.side == (if sold then SellSpread else BuySpread)
    && t.entryPrice == entry.spot.mid && t.exitPrice == exit.spot.mid && t.quantity == usd / entry.spot.mid
    && Books(t, Gain(sold, move, usd, entry.spot.mid), FourTakerFees(sizing))
  }

  /** What a move of the spread earns per unit, times the quantity. */
  function Gain(sold: bool, move: real, usd: real, price: real): real
    requires price != 0.0
  {
    (if sold then move else -move) * (usd / Abs(price))
  }

  function FourTakerFees(s: Sizing): real {
    4.0 * (s.capital * s.positionPct * (s.feeBps / 10000.0))
  }

  predicate Books(t: TradeRecord, gross: real, fee: real) {
    t.pnl == Round6(gross) && t.fee == Round6(fee) && t.netPnl == Round6(gross - fee)
  }

  ghost predicate TradesFollow(trades: seq<TradeRecord>, rounds: seq<Round>, pairs: seq<Pair>, window: nat, score: Score, sizing: Sizing) {
    |trades| == |rounds| && forall k :: 0 <= k < |trades| ==> TradeOfRound(trades[k], rounds[k], pairs, window, score, sizing)
  }

  lemma GrossIsMove(signed: real, price: real, usd: real)
    requires price > 0.0
    ensures signed / price * usd == signed * (usd / price)
  {
  }

  lemma StatGrossMeaning(side: Side, entry: Pair, exit: Pair, usd: real, move: real)
    requires entry.spot.mid != 0.0 && move == (entry.spot.mid - exit.spot.mid) - (entry.perp.mid - exit.perp.mid)
    ensures StatGross(side, Spread(entry), Spread(exit), entry.spot.mid, usd)
            == Gain(side == SellSpread, move, usd, entry.spot.mid)
  {
    assert Spread(entry) - Spread(exit) == move;
    var signed := if side == SellSpread then move else -move;
    assert Sign(side) * move == signed;
    GrossIsMove(signed, Abs(entry.spot.mid), usd);
  }

  lemma StatTradeBooks(pairs: seq<Pair>, p: Params, score: Score, r: Round)
    requires ValidRound(pairs, r)
    ensures Books(StatTrade(pairs, p, score, r),
                  StatGross(EntrySide(pairs, p, score, r.entry), Spread(pairs[r.entry]), Spread(pairs[r.exit]), pairs[r.entry].spot.mid, PositionUsd(p.sizing)),
                  SideFee(p.sizing) + SideFee(p.sizing))
  {
    hide Round6, StatGross, SideFee, Spread;
  }

  lemma FourFeesPaid(s: Sizing)
    ensures SideFee(s) + SideFee(s) == FourTakerFees(s)
  {
    FourFees(s);
  }

  lemma StatTradeFields(pairs: seq<Pair>, p: Params, score: Score, r: Round)
    requires ValidRound(pairs, r)
    ensures var t, entry, exit := StatTrade(pairs, p, score, r), pairs[r.entry], pairs[r.exit];
            && t.entryDt == entry.spot.dt && t.exitDt == exit.spot.dt && t.holdCandles == r.exit - r.entry
            && t.side == EntrySide(pairs, p, score, r.entry)
            && t.entryPrice == entry.spot.mid && t.exitPrice == exit.spot.mid
            && t.quantity == PositionUsd(p.sizing) / entry.spot.mid
  {
    hide Round6, StatGross, SideFee, EntrySide, PositionUsd;
  }

  lemma EntrySideMeaning(pairs: seq<Pair>, p: Params, score: Score, e: nat)
    requires p.window <= e < |pairs|
    ensures var sold := score(Spreads(pairs)[e - p.window..e], pairs[e].spot.mid - pairs[e].perp.mid) > 0.0;
            EntrySide(pairs, p, score, e) == if sold then SellSpread else BuySpread
  {
  }

  lemma StatTradeMeaning(pairs: seq<Pair>, p: Params, score: Score, r: Round)
    requires ValidRound(pairs, r) && p.window <= r.entry
    ensures TradeOfRound(StatTrade(pairs, p, score, r), r, pairs, p.window, score, p.sizing)
  {
    hide Round6, StatGross, SideFee, Sign, Abs, Spread, Spreads, Books, Gain, FourTakerFees, StatTrade, PositionUsd, EntrySide, ZAt;
    var entry, exit := pairs[r.entry], pairs[r.exit];
    EntrySideMeaning(pairs, p, score, r.entry);
    StatTradeBooks(pairs, p, score, r);
    StatTradeFields(pairs, p, score, r);
    FourFeesPaid(p.sizing);
    StatGrossMeaning(EntrySide(pairs, p, score, r.entry), entry, exit, PositionUsd(p.sizing),
                     (entry.spot.mid - exit.spot.mid) - (entry.perp.mid - exit.perp.mid));
  }

  lemma RoundEntersLate(pairs: seq<Pair>, p: Params, score: Score, k: nat)
    requires k < |StatBook(pairs, p, score).rounds|
    ensures p.window <= StatBook(pairs, p, score).rounds[k].entry
  {
    hide Simulate, NoEntry, NoExit;
    var signals := StatSignals(pairs, p, score);
    SimulateCrosses(signals);
    assert RoundAt(Simulate(signals).rounds, k, signals);
  }

  /** The trades of a finished run are those of the alternation of first crossings: of any rounds
      that cross the thresholds so, field by field. */
  lemma TradesAreCrossings(pairs: seq<Pair>, p: Params, score: Score, signals: seq<Signal>, book: Book)
    requires StatArb(pairs, p, score).Done?
    requires ThresholdSignals(signals, pairs, p.window, p.entryZ, p.exitZ, score) && Crossings(book, signals)
    ensures TradesFollow(StatArb(pairs, p, score).trades, book.rounds, pairs, p.window, score, p.sizing)
  {
    hide Crossings, StatSignals, Simulate, StatTrade, TradeOfRound, ThresholdSignals;
    SignalsFollowThresholds(signals, pairs, p, score);
    SimulateIffCrossings(book, StatSignals(pairs, p, score));
    forall k | 0 <= k < |book.rounds|
      ensures TradeOfRound(StatArb(pairs, p, score).trades[k], book.rounds[k], pairs, p.window, score, p.sizing)
    {
      RoundEntersLate(pairs, p, score, k);
      StatTradeMeaning(pairs, p, score, book.rounds[k]);
    }
  }

  /** A run with enough candles fails exactly when some position opens at a zero spot price. */
  lemma RaisesIffZeroEntry(pairs: seq<Pair>, p: Params, score: Score)
    requires |pairs| >= p.window + 10
    ensures var book := StatBook(pairs, p, score);
            StatArb(pairs, p, score).Raised?
            <==> (exists k :: 0 <= k < |book.rounds| && book.rounds[k].entry < |pairs| && pairs[book.rounds[k].entry].spot.mid == 0.0)
                 || (book.phase.Holding? && book.phase.entry < |pairs| && pairs[book.phase.entry].spot.mid == 0.0)
  {
    hide StatSignals, Simulate;
    var signals := StatSignals(pairs, p, score);
    var book := Simulate(signals);
    forall k | 0 <= k < |book.rounds| ensures book.rounds[k].entry < book.rounds[k].exit < |pairs| {
      RoundIsInside(signals, k);
    }
    OpenEntryIsInside(signals);
  }

  lemma OpenEntryIsInside(signals: seq<Signal>)
    ensures Simulate(signals).phase.Holding? ==> Simulate(signals).phase.entry < |signals|
  {
  }

  /** Four taker fees are paid, two legs in and two out, and net is gross less fees, up to the
      sixth decimal. */
  lemma TradeAccounts(pairs: seq<Pair>, p: Params, score: Score, r: Round)
    requires ValidRound(pairs, r)
    ensures var t := StatTrade(pairs, p, score, r);
            && Abs(t.fee - 4.0 * (PositionUsd(p.sizing) * (p.sizing.feeBps / 10000.0))) <= 0.0000005
            && Abs(t.netPnl - (t.pnl - t.fee)) <= 0.0000015
            && t.quantity * t.entryPrice == PositionUsd(p.sizing)
  {
    hide StatGross, Round6, EntrySide, PositionUsd;
    FourFees(p.sizing);
  }

  lemma FourFees(s: Sizing)
    ensures SideFee(s) + SideFee(s) == 4.0 * (PositionUsd(s) * (s.feeBps / 10000.0))
  {
  }

  /** Before rounding, the gross P&L is that of the two legs: quantity times the move of the
      short leg against the long one. */
  lemma StatGrossIsTwoLegs(entry: Pair, exit: Pair, side: Side, positionUsd: real)
    requires entry.spot.mid > 0.0
    ensures var quantity := positionUsd / entry.spot.mid;
            StatGross(side, Spread(entry), Spread(exit), entry.spot.mid, positionUsd)
            == Sign(side) * (quantity * (entry.spot.mid - exit.spot.mid) - quantity * (entry.perp.mid - exit.perp.mid))
  {
  }

  /** Selling a rich spread pays exactly when it narrows, buying a cheap one exactly when it widens. */
  lemma ReversionPays(pairs: seq<Pair>, p: Params, score: Score, r: Round, z: real)
    requires ValidRound(pairs, r) && PositionUsd(p.sizing) > 0.0
    requires ZAt(Spreads(pairs), p.window, score, r.entry) == Some(z)
    ensures var entered, left := Spread(pairs[r.entry]), Spread(pairs[r.exit]);
            var gross := StatGross(EntrySide(pairs, p, score, r.entry), entered, left,
                                   pairs[r.entry].spot.mid, PositionUsd(p.sizing));
            gross > 0.0 <==> if z > 0.0 then left < entered else left > entered
  {
  }

  // ---- No look-ahead --------------------------------------------------------------------------------

  lemma StatSignalsPrefix(pairs: seq<Pair>, p: Params, score: Score, k: nat)
    requires k <= |pairs|
    ensures StatSignals(pairs[..k], p, score) == StatSignals(pairs, p, score)[..k]
  {
    hide ZAt, StatSignal;
    assert Spreads(pairs[..k]) == Spreads(pairs)[..k];
    forall i | 0 <= i < k ensures StatSignals(pairs[..k], p, score)[i] == StatSignals(pairs, p, score)[i] {
      ZAtPrefix(Spreads(pairs), p.window, score, k, i);
    }
  }

  lemma StatTradePrefix(pairs: seq<Pair>, p: Params, score: Score, k: nat, r: Round)
    requires k <= |pairs| && ValidRound(pairs, r) && r.exit < k
    ensures ValidRound(pairs[..k], r) && StatTrade(pairs[..k], p, score, r) == StatTrade(pairs, p, score, r)
  {
    hide ZAt, StatGross;
    assert Spreads(pairs[..k]) == Spreads(pairs)[..k];
    ZAtPrefix(Spreads(pairs), p.window, score, k, r.entry);
  }

  lemma TradablePrefix(signals: seq<Signal>, pairs: seq<Pair>, k: nat)
    requires k <= |signals| == |pairs| && Tradable(Simulate(signals), pairs)
    ensures Tradable(Simulate(signals[..k]), pairs[..k])
  {
    hide Simulate;
    if !Tradable(Simulate(signals[..k]), pairs) { UntradableStays(signals, k, pairs); }
    OpenEntryIsInside(signals[..k]);
    forall j | 0 <= j < |Simulate(signals[..k]).rounds| ensures ValidRound(pairs[..k], Simulate(signals[..k]).rounds[j]) {
      RoundIsInside(signals[..k], j);
    }
  }

  /** A run over the first k aligned candles yields exactly the trades of the full run whose
      exit lies before k. */
  lemma NoLookAhead(pairs: seq<Pair>, p: Params, score: Score, k: nat)
    requires p.window + 10 <= k <= |pairs| && StatArb(pairs, p, score).Done?
    ensures StatArb(pairs[..k], p, score).Done?
    ensures StatArb(pairs[..k], p, score).trades <= StatArb(pairs, p, score).trades
    ensures var n, rounds := |StatArb(pairs[..k], p, score).trades|, StatBook(pairs, p, score).rounds;
            |rounds| == |StatArb(pairs, p, score).trades| && forall j :: 0 <= j < |rounds| ==> (j < n <==> rounds[j].exit < k)
  {
    hide StatSignals, Simulate, ValidRound, StatTrade;
    var signals := StatSignals(pairs, p, score);
    StatSignalsPrefix(pairs, p, score, k);
    TradablePrefix(signals, pairs, k);
    PrefixOfRun(signals, k);
    var some, all := Simulate(signals[..k]).rounds, Simulate(signals).rounds;
    forall j | 0 <= j < |some|
      ensures StatTrades(pairs[..k], p, score, some)[j] == StatTrades(pairs, p, score, all)[j]
    {
      assert some[j] == all[j];
      StatTradePrefix(pairs, p, score, k, all[j]);
    }
  }

  /** The round's exit candle lies before time t. */
  predicate ClosedBefore(r: Round, pairs: seq<Pair>, t: int) {
    r.exit < |pairs| && pairs[r.exit].spot.ts < t
  }

  /** The same over raw candles cut at time t: the cut run has exactly the trades of the full run
      that were closed before t, whatever happens from t on in either series. */
  lemma FutureIsInvisible(spot: seq<Candle>, perp: seq<Candle>, p: Params, score: Score, t: int)
    requires Chronological(spot)
    requires StatArb(Align(spot, perp), p, score).Done?
    requires |Align(Before(spot, t), Before(perp, t))| >= p.window + 10
    ensures var cut, full := StatArb(Align(Before(spot, t), Before(perp, t)), p, score), StatArb(Align(spot, perp), p, score);
            var rounds := StatBook(Align(spot, perp), p, score).rounds;
            && cut.Done? && cut.trades <= full.trades && |rounds| == |full.trades|
            && forall j :: 0 <= j < |rounds| ==> (j < |cut.trades| <==> ClosedBefore(rounds[j], Align(spot, perp), t))
  {
    hide Align, Before, StatArb, StatBook;
    AlignBeforeIsPrefix(spot, perp, t);
    PairsBefore(spot, Before(perp, t), t);
    var pairs, k := Align(spot, perp), |Align(Before(spot, t), Before(perp, t))|;
    assert pairs[..k] == Align(Before(spot, t), Before(perp, t));
    NoLookAhead(pairs, p, score, k);
    var rounds := StatBook(pairs, p, score).rounds;
    forall j | 0 <= j < |rounds| ensures rounds[j].exit < k <==> ClosedBefore(rounds[j], pairs, t) {
      BookRoundInside(pairs, p, score, j);
    }
  }

  lemma BookRoundInside(pairs: seq<Pair>, p: Params, score: Score, j: nat)
    requires j < |StatBook(pairs, p, score).rounds|
    ensures StatBook(pairs, p, score).rounds[j].exit < |pairs|
  {
    hide Simulate;
    RoundIsInside(StatSignals(pairs, p, score), j);
  }
}
