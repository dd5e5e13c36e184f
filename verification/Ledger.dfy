/** The trades and positions tables and the transaction that writes them:
    services/executor/app/db.py. */
module Ledger {
  import opened Options
  import opened Decimals
  import opened Pnl
  import opened OrderIds
  import opened Idempotency

  // ---- Tables ------------------------------------------------------------

  datatype Order = Order(clientOrderId: OrderId, venue: string, symbol: string, side: string,
                         quantity: real, strategyType: string, paperMode: bool)

  /** uq_positions_key */
  datatype Key = Key(venue: string, symbol: string, strategyType: string, paperMode: bool)

  datatype TradeRow = TradeRow(clientOrderId: OrderId, key: Key, side: string, quantity: real,
                               filledQty: real, averageFillPrice: Option<real>, fee: real,
                               feeCurrency: Option<string>, status: string,
                               realizedPnl: Option<real>, at: int, closedAt: Option<int>)

  datatype PositionRow = PositionRow(netQty: real, avgPrice: real, openFees: real, realizedPnl: real,
                                     feeCurrency: Option<string>, status: string,
                                     openedAt: Option<int>, closedAt: Option<int>)

  /** Both tables; trades in insert order. */
  datatype Db = Db(trades: seq<TradeRow>, positions: map<Key, PositionRow>)

  /** A real fill that should move a position. */
  predicate IsFill(result: OrderResult) {
    && result.status == "filled"
    && result.filledQty > 0.0
    && result.averageFillPrice.Some?
    && result.averageFillPrice.value > 0.0
  }

  function KeyOf(order: Order): Key {
    Key(order.venue, order.symbol, if order.strategyType == "" then "unknown" else order.strategyType, order.paperMode)
  }

  function FillOf(order: Order, result: OrderResult): Fill
    requires IsFill(result)
  {
    Fill(order.side, result.filledQty, result.averageFillPrice.value, result.fee)
  }

  predicate HasTrade(trades: seq<TradeRow>, id: OrderId) {
    exists i :: 0 <= i < |trades| && trades[i].clientOrderId == id
  }

  function Stored(row: PositionRow): PositionState {
    PositionState(row.netQty, row.avgPrice, row.openFees)
  }

  function RoundedState(s: PositionState): PositionState {
    PositionState(Round8(s.netQty), Round8(s.avgPrice), Round8(s.openFees))
  }

  predicate NonFlat(netQty: real) {
    Abs(netQty) > EPS
  }

  /** The position row before a fill; a missing row reads as flat. */
  function Current(db: Db, key: Key): PositionRow {
    if key in db.positions then db.positions[key]
    else PositionRow(0.0, 0.0, 0.0, 0.0, None, "flat", None, None)
  }

  function RowFor(db: Db, order: Order, result: OrderResult, now: int): TradeRow {
    var price := if result.averageFillPrice == Some(0.0) then None else result.averageFillPrice;
    var row := TradeRow(result.clientOrderId, KeyOf(order), order.side, order.quantity, result.filledQty,
                        price, result.fee, result.feeCurrency, result.status, None, now, None);
    if IsFill(result) then
      var o := ApplyFill(Stored(Current(db, KeyOf(order))), FillOf(order, result));
      row.(realizedPnl := Some(Round8(o.realizedPnl)),
           closedAt := if o.closed && !NonFlat(o.position.netQty) then Some(now) else None)
    else row
  }

  function PositionFor(prior: PositionRow, fill: Fill, feeCurrency: Option<string>, now: int): PositionRow {
    var o := ApplyFill(Stored(prior), fill);
    var priorFlat := prior.status != "open" || !NonFlat(prior.netQty);
    var nowOpen := NonFlat(o.position.netQty);
    var s := RoundedState(o.position);
    PositionRow(s.netQty, s.avgPrice, s.openFees, Round8(prior.realizedPnl + o.realizedPnl),
                if feeCurrency.Some? then feeCurrency else prior.feeCurrency,
                if nowOpen then "open" else "flat",
                if nowOpen && priorFlat then Some(now) else prior.openedAt,
                if !nowOpen && !priorFlat then Some(now) else prior.closedAt)
  }

  /** The tables after the transaction commits. */
  function Persisted(db: Db, order: Order, result: OrderResult, now: int): Db {
    if HasTrade(db.trades, result.clientOrderId) then db
    else
      Db(db.trades + [RowFor(db, order, result, now)],
         if IsFill(result) then
           db.positions[KeyOf(order) := PositionFor(Current(db, KeyOf(order)), FillOf(order, result), result.feeCurrency, now)]
         else db.positions)
  }

  /** The database as the executor sees it. */
  class TradeStore {
    var trades: seq<TradeRow>
    var positions: map<Key, PositionRow>

    constructor ()
      ensures Contents() == Db([], map[])
    {
      trades, positions := [], map[];
    }

    function Contents(): Db
      reads this
    {
      Db(trades, positions)
    }

    /** INSERT ... ON CONFLICT (client_order_id) DO NOTHING RETURNING id */
    method InsertTrade(row: TradeRow) returns (returned: bool)
      modifies this`trades
      ensures returned == !HasTrade(old(trades), row.clientOrderId)
      ensures trades == if returned then old(trades) + [row] else old(trades)
    {
      var i := 0;
      while i < |trades|
        invariant 0 <= i <= |trades| && trades == old(trades)
        invariant forall j :: 0 <= j < i ==> trades[j].clientOrderId != row.clientOrderId
      {
        if trades[i].clientOrderId == row.clientOrderId {
          return false;
        }
        i := i + 1;
      }
      trades := trades + [row];
      returned := true;
    }

    /** One committed transaction: read the position, insert the trade, upsert the
        position only when a row was inserted. */
    method PersistTrade(order: Order, result: OrderResult, now: int) returns (realized: Option<real>)
      modifies this
      ensures Contents() == Persisted(old(Contents()), order, result, now)
      ensures realized == if Contents() == old(Contents()) then None else trades[|trades| - 1].realizedPnl
    {
      hide ApplyFill, Round8;
      var realizedPnl: Option<real> := None;
      var closedAt: Option<int> := None;
      var upsert: Option<PositionRow> := None;
      var key := KeyOf(order);
      if IsFill(result) {
        var prior := PositionRow(0.0, 0.0, 0.0, 0.0, None, "flat", None, None);
        if key in positions {
          prior := positions[key];
        }
        var priorFlat := prior.status != "open" || !NonFlat(prior.netQty);
        var outcome := ApplyFill(Stored(prior), FillOf(order, result));
        realizedPnl := Some(Round8(outcome.realizedPnl));
        var nowOpen := NonFlat(outcome.position.netQty);
        if outcome.closed && !nowOpen {
          closedAt := Some(now);
        }
        var openedAt, posClosedAt := prior.openedAt, prior.closedAt;
        if nowOpen {
          if priorFlat { openedAt := Some(now); }
        } else {
          if !priorFlat { posClosedAt := Some(now); }
        }
        upsert := Some(PositionRow(Round8(outcome.position.netQty), Round8(outcome.position.avgPrice),
                                   Round8(outcome.position.openFees),
                                   Round8(prior.realizedPnl + outcome.realizedPnl),
                                   if result.feeCurrency.Some? then result.feeCurrency else prior.feeCurrency,
                                   if nowOpen then "open" else "flat", openedAt, posClosedAt));
      }
      var price := if result.averageFillPrice == Some(0.0) then None else result.averageFillPrice;
      var returned := InsertTrade(TradeRow(result.clientOrderId, key, order.side, order.quantity, result.filledQty,
                                           price, result.fee, result.feeCurrency, result.status, realizedPnl, now, closedAt));
      if returned && upsert.Some? {
        positions := positions[key := upsert.value];
      }
      realized := if returned then realizedPnl else None;
    }
  }

  // ---- What the tables mean ------------------------------------------------

  predicate RowIsFill(row: TradeRow) {
    row.status == "filled" && row.filledQty > 0.0 && row.averageFillPrice.Some? && row.averageFillPrice.value > 0.0
  }

  function RowFill(row: TradeRow): Fill
    requires RowIsFill(row)
  {
    Fill(row.side, row.filledQty, row.averageFillPrice.value, row.fee)
  }

  ghost predicate AllFills(fills: seq<TradeRow>) {
    forall i :: 0 <= i < |fills| ==> RowIsFill(fills[i])
  }

  /** The filled trades of one key, in insert order. */
  function KeyFills(trades: seq<TradeRow>, key: Key): (fills: seq<TradeRow>)
    ensures AllFills(fills)
  {
    if trades == [] then []
    else
      var init, last := KeyFills(trades[..|trades| - 1], key), trades[|trades| - 1];
      if RowIsFill(last) && last.key == key then init + [last] else init
  }

  /** The fold of rounded fills: what the position row should hold. */
  function StateAfter(fills: seq<TradeRow>): PositionState
    requires AllFills(fills)
    decreases |fills|, 1
  {
    if fills == [] then FLAT
    else RoundedState(OutcomeOfLast(fills).position)
  }

  function OutcomeOfLast(fills: seq<TradeRow>): FillOutcome
    requires AllFills(fills) && fills != []
    decreases |fills|, 0
  {
    ApplyFill(StateAfter(fills[..|fills| - 1]), RowFill(fills[|fills| - 1]))
  }

  /** The running total the position row keeps. */
  function RealizedAfter(fills: seq<TradeRow>): real
    requires AllFills(fills)
  {
    if fills == [] then 0.0
    else Round8(RealizedAfter(fills[..|fills| - 1]) + OutcomeOfLast(fills).realizedPnl)
  }

  /** The sum of trades.realized_pnl over the same fills. */
  function TradeRealized(fills: seq<TradeRow>): real
    requires AllFills(fills)
  {
    if fills == [] then 0.0
    else TradeRealized(fills[..|fills| - 1]) + Round8(OutcomeOfLast(fills).realizedPnl)
  }

  /** The fee currency of the latest fill that names one. */
  function LatestCurrency(fills: seq<TradeRow>): Option<string> {
    if fills == [] then None
    else if fills[|fills| - 1].feeCurrency.Some? then fills[|fills| - 1].feeCurrency
    else LatestCurrency(fills[..|fills| - 1])
  }

  /** When the key last went from flat to open. */
  function LastOpening(fills: seq<TradeRow>): Option<int>
    requires AllFills(fills)
  {
    if fills == [] then None
    else
      var init := fills[..|fills| - 1];
      if StateAfter(init).netQty == 0.0 && StateAfter(fills).netQty != 0.0 then Some(fills[|fills| - 1].at)
      else LastOpening(init)
  }

  /** When the key last went from open to flat. */
  function LastClosing(fills: seq<TradeRow>): Option<int>
    requires AllFills(fills)
  {
    if fills == [] then None
    else
      var init := fills[..|fills| - 1];
      if StateAfter(init).netQty != 0.0 && StateAfter(fills).netQty == 0.0 then Some(fills[|fills| - 1].at)
      else LastClosing(init)
  }

  ghost predicate UniqueIds(trades: seq<TradeRow>) {
    forall i, j :: 0 <= i < j < |trades| ==> trades[i].clientOrderId != trades[j].clientOrderId
  }

  /** Each position row is the fold of its key's fills, each trade row holds what it realized. */
  ghost predicate Refines(db: Db) {
    && UniqueIds(db.trades)
    && BooksKept(db.trades)
    && forall key :: PositionRefines(db, key)
  }

  /** A fill's row stores the rounded P&L of that fill alone against the fold of the earlier fills
      of its key, and a closing time exactly when it takes the key from open to flat; any other
      row stores neither. */
  ghost predicate RowBooked(trades: seq<TradeRow>, i: nat)
    requires i < |trades|
  {
    var row := trades[i];
    if RowIsFill(row) then
      var before := StateAfter(KeyFills(trades[..i], row.key));
      var o := ApplyFill(before, RowFill(row));
      && row.realizedPnl == Some(Round8(o.realizedPnl))
      && row.closedAt == if NonFlat(before.netQty) && !NonFlat(o.position.netQty) then Some(row.at) else None
    else row.realizedPnl == None && row.closedAt == None
  }

  ghost predicate BooksKept(trades: seq<TradeRow>) {
    forall i :: 0 <= i < |trades| ==> RowBooked(trades, i)
  }

  ghost predicate PositionRefines(db: Db, key: Key) {
    var fills := KeyFills(db.trades, key);
    && (key in db.positions <==> fills != [])
    && Stored(Current(db, key)) == StateAfter(fills)
    && Current(db, key).realizedPnl == RealizedAfter(fills)
    && Current(db, key).feeCurrency == LatestCurrency(fills)
  }

  /** Status and timestamps follow the net quantity. */
  ghost predicate FollowsLifecycle(db: Db) {
    forall key :: PositionLifecycle(db, key)
  }

  ghost predicate PositionLifecycle(db: Db, key: Key) {
    var fills, row := KeyFills(db.trades, key), Current(db, key);
    && OnGrid8(row.netQty)
    && row.status == (if row.netQty != 0.0 then "open" else "flat")
    && row.openedAt == LastOpening(fills)
    && row.closedAt == LastClosing(fills)
  }

  // ---- One transaction -----------------------------------------------------

  lemma KeyFillsAppend(trades: seq<TradeRow>, row: TradeRow, key: Key)
    ensures KeyFills(trades + [row], key)
            == KeyFills(trades, key) + (if RowIsFill(row) && row.key == key then [row] else [])
  {
  }

  lemma PersistAppends(db: Db, order: Order, result: OrderResult, now: int)
    requires !HasTrade(db.trades, result.clientOrderId)
    ensures var row := RowFor(db, order, result, now);
            && Persisted(db, order, result, now).trades == db.trades + [row]
            && row.clientOrderId == result.clientOrderId && row.key == KeyOf(order)
            && (RowIsFill(row) <==> IsFill(result))
            && (IsFill(result) ==> RowFill(row) == FillOf(order, result))
            && row.feeCurrency == result.feeCurrency
  {
  }

  /** One more fill advances every fold by one step. */
  lemma FoldStep(fills: seq<TradeRow>, row: TradeRow)
    requires AllFills(fills) && RowIsFill(row)
    ensures var next, o := fills + [row], ApplyFill(StateAfter(fills), RowFill(row));
            && AllFills(next) && OutcomeOfLast(next) == o
            && StateAfter(next) == RoundedState(o.position)
            && RealizedAfter(next) == Round8(RealizedAfter(fills) + o.realizedPnl)
            && TradeRealized(next) == TradeRealized(fills) + Round8(o.realizedPnl)
            && LatestCurrency(next) == if row.feeCurrency.Some? then row.feeCurrency else LatestCurrency(fills)
  {
    hide ApplyFill, Round8, RoundedState;
    assert (fills + [row])[..|fills|] == fills;
  }

  lemma PersistKeepsOtherKeys(db: Db, order: Order, result: OrderResult, now: int, key: Key)
    requires !HasTrade(db.trades, result.clientOrderId)
    requires key != KeyOf(order) || !IsFill(result)
    ensures KeyFills(Persisted(db, order, result, now).trades, key) == KeyFills(db.trades, key)
    ensures Current(Persisted(db, order, result, now), key) == Current(db, key)
    ensures key in Persisted(db, order, result, now).positions <==> key in db.positions
  {
    hide RowFor, PositionFor, KeyFills;
    PersistAppends(db, order, result, now);
    KeyFillsAppend(db.trades, RowFor(db, order, result, now), key);
  }

  lemma PersistMovesKey(db: Db, order: Order, result: OrderResult, now: int)
    requires !HasTrade(db.trades, result.clientOrderId) && IsFill(result)
    ensures var key, row, db' := KeyOf(order), RowFor(db, order, result, now), Persisted(db, order, result, now);
            && RowIsFill(row) && row.feeCurrency == result.feeCurrency
            && KeyFills(db'.trades, key) == KeyFills(db.trades, key) + [row]
            && key in db'.positions
            && Current(db', key) == PositionFor(Current(db, key), RowFill(row), result.feeCurrency, now)
  {
    hide RowFor, PositionFor, KeyFills;
    PersistAppends(db, order, result, now);
    KeyFillsAppend(db.trades, RowFor(db, order, result, now), KeyOf(order));
  }

  lemma PositionForFolds(prior: PositionRow, fill: Fill, feeCurrency: Option<string>, now: int)
    ensures var next, o := PositionFor(prior, fill, feeCurrency, now), ApplyFill(Stored(prior), fill);
            && Stored(next) == RoundedState(o.position)
            && next.realizedPnl == Round8(prior.realizedPnl + o.realizedPnl)
            && next.feeCurrency == if feeCurrency.Some? then feeCurrency else prior.feeCurrency
  {
  }

  lemma PersistRefinesKey(db: Db, order: Order, result: OrderResult, now: int, key: Key)
    requires PositionRefines(db, key) && !HasTrade(db.trades, result.clientOrderId)
    ensures PositionRefines(Persisted(db, order, result, now), key)
  {
    hide ApplyFill, Round8, KeyFills, RowFor, PositionFor, Persisted, RoundedState, LatestCurrency, StateAfter, RealizedAfter,
         OutcomeOfLast, TradeRealized;
    if key == KeyOf(order) && IsFill(result) {
      var row := RowFor(db, order, result, now);
      PersistMovesKey(db, order, result, now);
      FoldStep(KeyFills(db.trades, key), row);
      PositionForFolds(Current(db, key), RowFill(row), result.feeCurrency, now);
    } else {
      PersistKeepsOtherKeys(db, order, result, now, key);
    }
  }

  lemma RowIsBooked(db: Db, order: Order, result: OrderResult, now: int)
    requires PositionRefines(db, KeyOf(order)) && !HasTrade(db.trades, result.clientOrderId)
    ensures RowBooked(db.trades + [RowFor(db, order, result, now)], |db.trades|)
  {
    hide ApplyFill, Round8, KeyFills, StateAfter;
    var row := RowFor(db, order, result, now);
    assert (db.trades + [row])[..|db.trades|] == db.trades;
    if IsFill(result) {
      FlagsMeaning(Stored(Current(db, KeyOf(order))), FillOf(order, result));
    }
  }

  lemma BooksAppend(trades: seq<TradeRow>, row: TradeRow)
    requires BooksKept(trades) && RowBooked(trades + [row], |trades|)
    ensures BooksKept(trades + [row])
  {
    hide ApplyFill, Round8, KeyFills, StateAfter, RowIsFill;
    forall i | 0 <= i < |trades| ensures RowBooked(trades + [row], i) {
      assert RowBooked(trades, i);
      assert (trades + [row])[..i] == trades[..i];
    }
  }

  /** Every transaction keeps the tables consistent, replays included. */
  lemma PersistRefines(db: Db, order: Order, result: OrderResult, now: int)
    requires Refines(db)
    ensures Refines(Persisted(db, order, result, now))
  {
    hide PositionRefines, RowFor, PositionFor, RowBooked;
    if !HasTrade(db.trades, result.clientOrderId) {
      forall key ensures PositionRefines(Persisted(db, order, result, now), key) {
        PersistRefinesKey(db, order, result, now, key);
      }
      PersistAppends(db, order, result, now);
      RowIsBooked(db, order, result, now);
      BooksAppend(db.trades, RowFor(db, order, result, now));
    }
  }

  lemma LifecycleStep(prior: PositionRow, fills: seq<TradeRow>, row: TradeRow, feeCurrency: Option<string>)
    requires AllFills(fills) && RowIsFill(row) && OnGrid8(row.filledQty)
    requires Stored(prior) == StateAfter(fills) && OnGrid8(prior.netQty)
    requires prior.status == if prior.netQty != 0.0 then "open" else "flat"
    requires prior.openedAt == LastOpening(fills) && prior.closedAt == LastClosing(fills)
    ensures var next := PositionFor(prior, RowFill(row), feeCurrency, row.at);
            && OnGrid8(next.netQty)
            && next.status == (if next.netQty != 0.0 then "open" else "flat")
            && next.openedAt == LastOpening(fills + [row])
            && next.closedAt == LastClosing(fills + [row])
  {
    hide ApplyFill, Round8, OnGrid8, StateAfter, OutcomeOfLast;
    var o := ApplyFill(Stored(prior), RowFill(row));
    FoldStep(fills, row);
    assert (fills + [row])[..|fills|] == fills;
    GridDropsNoDust(Stored(prior), RowFill(row));
    if Abs(prior.netQty) <= EPS { GridSmallIsZero(prior.netQty); }
    if Abs(o.position.netQty) <= EPS { GridSmallIsZero(o.position.netQty); }
    assert Round8(o.position.netQty) == o.position.netQty;
  }

  lemma PersistLifecycleKey(db: Db, order: Order, result: OrderResult, now: int, key: Key)
    requires PositionRefines(db, key) && PositionLifecycle(db, key) && !HasTrade(db.trades, result.clientOrderId)
    requires IsFill(result) ==> OnGrid8(result.filledQty)
    ensures PositionLifecycle(Persisted(db, order, result, now), key)
  {
    hide ApplyFill, Round8, KeyFills, RowFor, PositionFor, Persisted, OnGrid8, LastOpening, LastClosing;
    if key == KeyOf(order) && IsFill(result) {
      var row := RowFor(db, order, result, now);
      PersistMovesKey(db, order, result, now);
      PersistAppends(db, order, result, now);
      RowStampedNow(db, order, result, now);
      LifecycleStep(Current(db, key), KeyFills(db.trades, key), row, result.feeCurrency);
    } else {
      PersistKeepsOtherKeys(db, order, result, now, key);
    }
  }

  lemma RowStampedNow(db: Db, order: Order, result: OrderResult, now: int)
    ensures RowFor(db, order, result, now).at == now
  {
  }

  lemma PersistFollowsLifecycle(db: Db, order: Order, result: OrderResult, now: int)
    requires Refines(db) && FollowsLifecycle(db)
    requires IsFill(result) ==> OnGrid8(result.filledQty)
    ensures FollowsLifecycle(Persisted(db, order, result, now))
  {
    hide PositionLifecycle, PositionRefines, RowFor, PositionFor, OnGrid8;
    if !HasTrade(db.trades, result.clientOrderId) {
      forall key ensures PositionLifecycle(Persisted(db, order, result, now), key) {
        assert PositionRefines(db, key);
        PersistLifecycleKey(db, order, result, now, key);
      }
    }
  }

  // ---- Whole runs ----------------------------------------------------------

  datatype Call = Call(order: Order, result: OrderResult, now: int)

  /** The tables after committing the calls in order. */
  function RunCalls(calls: seq<Call>): Db {
    if calls == [] then Db([], map[])
    else
      var c := calls[|calls| - 1];
      Persisted(RunCalls(calls[..|calls| - 1]), c.order, c.result, c.now)
  }

  ghost predicate CallsOnGrid(calls: seq<Call>) {
    forall i :: 0 <= i < |calls| && IsFill(calls[i].result) ==> OnGrid8(calls[i].result.filledQty)
  }

  /** After any run: one row per client order id, every position row is the fold of
      its key's fills, and on the quantity grid status and times follow the net quantity. */
  lemma {:induction false} RunsRefine(calls: seq<Call>)
    ensures Refines(RunCalls(calls))
    ensures CallsOnGrid(calls) ==> FollowsLifecycle(RunCalls(calls))
  {
    hide PositionRefines, PositionLifecycle, Persisted, OnGrid8;
    if calls == [] {
      EmptyRefines();
    } else {
      var init, c := calls[..|calls| - 1], calls[|calls| - 1];
      RunsRefine(init);
      PersistRefines(RunCalls(init), c.order, c.result, c.now);
      if CallsOnGrid(calls) {
        assert forall i :: 0 <= i < |init| ==> init[i] == calls[i];
        PersistFollowsLifecycle(RunCalls(init), c.order, c.result, c.now);
      }
    }
  }

  lemma EmptyRefines()
    ensures Refines(Db([], map[])) && FollowsLifecycle(Db([], map[]))
  {
  }

  predicate SeenBefore(calls: seq<Call>, id: OrderId) {
    exists i :: 0 <= i < |calls| && calls[i].result.clientOrderId == id
  }

  /** The calls without the replays of an id already committed. */
  function FirstCalls(calls: seq<Call>): seq<Call> {
    if calls == [] then []
    else
      var init, c := calls[..|calls| - 1], calls[|calls| - 1];
      if SeenBefore(init, c.result.clientOrderId) then FirstCalls(init) else FirstCalls(init) + [c]
  }

  lemma {:induction false} TradeIdsAreCallIds(calls: seq<Call>, id: OrderId)
    ensures HasTrade(RunCalls(calls).trades, id) <==> SeenBefore(calls, id)
  {
    if calls != [] {
      var init, c := calls[..|calls| - 1], calls[|calls| - 1];
      TradeIdsAreCallIds(init, id);
      var db := RunCalls(init);
      hide RowFor, PositionFor, RunCalls;
      SeenAppend(init, c, id);
      assert init + [c] == calls;
      if !HasTrade(db.trades, c.result.clientOrderId) {
        PersistAppends(db, c.order, c.result, c.now);
        HasTradeAppend(db.trades, RowFor(db, c.order, c.result, c.now), id);
      }
    }
  }

  lemma SeenAppend(calls: seq<Call>, c: Call, id: OrderId)
    ensures SeenBefore(calls + [c], id) <==> SeenBefore(calls, id) || c.result.clientOrderId == id
  {
    assert (calls + [c])[|calls|] == c;
    assert forall i :: 0 <= i < |calls| ==> (calls + [c])[i] == calls[i];
  }

  lemma HasTradeAppend(trades: seq<TradeRow>, row: TradeRow, id: OrderId)
    ensures HasTrade(trades + [row], id) <==> HasTrade(trades, id) || row.clientOrderId == id
  {
    assert (trades + [row])[|trades|] == row;
    assert forall i :: 0 <= i < |trades| ==> (trades + [row])[i] == trades[i];
  }

  /** Replays leave no trace: dropping them yields the very same tables. */
  lemma {:induction false} ReplaysLeaveNoTrace(calls: seq<Call>)
    ensures RunCalls(FirstCalls(calls)) == RunCalls(calls)
  {
    if calls != [] {
      var init, c := calls[..|calls| - 1], calls[|calls| - 1];
      ReplaysLeaveNoTrace(init);
      TradeIdsAreCallIds(init, c.result.clientOrderId);
      if !SeenBefore(init, c.result.clientOrderId) {
        assert (FirstCalls(init) + [c])[..|FirstCalls(init)|] == FirstCalls(init);
      }
    }
  }

  /** The columns of a call's row. */
  ghost predicate RowRecords(row: TradeRow, c: Call) {
    && row.clientOrderId == c.result.clientOrderId
    && row.key.venue == c.order.venue && row.key.symbol == c.order.symbol && row.key.paperMode == c.order.paperMode
    && row.key.strategyType == (if c.order.strategyType == "" then "unknown" else c.order.strategyType)
    && row.side == c.order.side && row.quantity == c.order.quantity
    && row.status == c.result.status && row.filledQty == c.result.filledQty
    && row.averageFillPrice == (if c.result.averageFillPrice == Some(0.0) then None else c.result.averageFillPrice)
    && row.fee == c.result.fee && row.feeCurrency == c.result.feeCurrency && row.at == c.now
  }

  lemma RowForRecords(db: Db, c: Call)
    ensures RowRecords(RowFor(db, c.order, c.result, c.now), c)
  {
  }

  /** The trades table lists the calls without their replays, column by column. */
  lemma {:induction false} RowsRecordCalls(calls: seq<Call>)
    ensures |RunCalls(calls).trades| == |FirstCalls(calls)|
    ensures forall k :: 0 <= k < |FirstCalls(calls)| ==> RowRecords(RunCalls(calls).trades[k], FirstCalls(calls)[k])
  {
    if calls != [] {
      hide RowFor, PositionFor, RowRecords;
      var init, c := calls[..|calls| - 1], calls[|calls| - 1];
      RowsRecordCalls(init);
      TradeIdsAreCallIds(init, c.result.clientOrderId);
      RowForRecords(RunCalls(init), c);
    }
  }

  // ---- Rounding --------------------------------------------------------------

  const HALF_UNIT := 0.000000005
  const UNIT := 0.00000001

  ghost predicate GridFills(fills: seq<TradeRow>) {
    AllFills(fills) && forall i :: 0 <= i < |fills| ==> OnGrid8(fills[i].filledQty)
  }

  function SignedTotal(fills: seq<TradeRow>): real
    requires AllFills(fills)
  {
    if fills == [] then 0.0 else SignedTotal(fills[..|fills| - 1]) + SignedQty(RowFill(fills[|fills| - 1]))
  }

  function CashTotal(fills: seq<TradeRow>): real
    requires AllFills(fills)
  {
    if fills == [] then 0.0 else CashTotal(fills[..|fills| - 1]) + CashFlow(RowFill(fills[|fills| - 1]))
  }

  /** Half a unit per stored number: the entry price weighs the quantity held. */
  function DriftBound(fills: seq<TradeRow>): real
    requires AllFills(fills)
  {
    if fills == [] then 0.0
    else DriftBound(fills[..|fills| - 1]) + HALF_UNIT * (Abs(StateAfter(fills).netQty) + 2.0)
  }

  lemma RoundedBookValue(s: PositionState)
    requires OnGrid8(s.netQty)
    ensures Abs(BookValue(RoundedState(s)) - BookValue(s)) <= HALF_UNIT * (Abs(s.netQty) + 1.0)
    ensures RoundedState(s).netQty == s.netQty
  {
    hide Round8, OnGrid8;
    var n, x, f := s.netQty, Round8(s.avgPrice), Round8(s.openFees);
    ProductError(n, x, s.avgPrice);
    assert RoundedState(s) == PositionState(n, x, f);
    SumError(n * x, n * s.avgPrice, f, s.openFees, HALF_UNIT * Abs(n));
  }

  lemma SumError(a: real, b: real, f: real, g: real, bound: real)
    requires Abs(a - b) <= bound && Abs(f - g) <= HALF_UNIT
    ensures Abs((a + f) - (b + g)) <= bound + HALF_UNIT
  {
  }

  lemma ProductError(n: real, x: real, y: real)
    requires Abs(x - y) <= HALF_UNIT
    ensures Abs(n * x - n * y) <= HALF_UNIT * Abs(n)
  {
    var e := x - y;
    assert n * x - n * y == n * e;
    AbsProduct(n, e);
  }

  lemma AbsProduct(n: real, e: real)
    requires Abs(e) <= HALF_UNIT
    ensures Abs(n * e) <= HALF_UNIT * Abs(n)
  {
  }

  /** One stored step loses at most half a unit on the entry price held, the open
      fees and the realized P&L each. */
  lemma DriftStep(s: PositionState, fill: Fill)
    requires OnGrid8(s.netQty) && OnGrid8(fill.qty)
    ensures var o := ApplyFill(s, fill); var next := RoundedState(o.position);
            && next.netQty == s.netQty + SignedQty(fill) && OnGrid8(next.netQty)
            && Abs(Round8(o.realizedPnl) - BookValue(next) - CashFlow(fill) + BookValue(s))
               <= HALF_UNIT * (Abs(next.netQty) + 2.0)
  {
    hide ApplyFill, CashFlow, SignedQty, BookValue, Round8, RoundedState, OnGrid8, DropsDust;
    var o := ApplyFill(s, fill);
    GridDropsNoDust(s, fill);
    NetQuantityExact(s, fill);
    FillConserves(s, fill);
    RoundedBookValue(o.position);
  }

  ghost predicate WithinDrift(realized: real, s: PositionState, cash: real, bound: real, signed: real) {
    && Abs(realized - BookValue(s) - cash) <= bound
    && s.netQty == signed && OnGrid8(signed)
  }

  lemma DriftAccumulates(realized: real, s: PositionState, cash: real, bound: real, signed: real, fill: Fill)
    requires WithinDrift(realized, s, cash, bound, signed) && OnGrid8(fill.qty)
    ensures var o := ApplyFill(s, fill); var next := RoundedState(o.position);
            WithinDrift(realized + Round8(o.realizedPnl), next, cash + CashFlow(fill),
                        bound + HALF_UNIT * (Abs(next.netQty) + 2.0), signed + SignedQty(fill))
  {
    hide ApplyFill, CashFlow, SignedQty, BookValue, Round8, RoundedState, OnGrid8;
    DriftStep(s, fill);
  }

  /** The stored books track true cash within half a unit per stored number, and the
      net quantity exactly. */
  lemma {:induction false} RoundingDrift(fills: seq<TradeRow>)
    requires GridFills(fills)
    ensures WithinDrift(TradeRealized(fills), StateAfter(fills), CashTotal(fills), DriftBound(fills), SignedTotal(fills))
  {
    if fills == [] {
    } else {
      hide ApplyFill, CashFlow, SignedQty, BookValue, Round8, RoundedState, OnGrid8, WithinDrift;
      var init, last := fills[..|fills| - 1], fills[|fills| - 1];
      RoundingDrift(init);
      DriftAccumulates(TradeRealized(init), StateAfter(init), CashTotal(init), DriftBound(init), SignedTotal(init), RowFill(last));
    }
  }

  /** Adding to a stored total and rounding agrees with rounding first, except when a
      tie meets an odd total. */
  lemma StoredTotalStep(total: real, r: real)
    requires OnGrid8(total)
    ensures Round8(total + r) == total + Round8(r) <==> !(IsTie(r * SCALE8) && (total * SCALE8).Floor % 2 != 0)
    ensures Abs(Round8(total + r) - (total + Round8(r))) <= UNIT
  {
    var n := (total * SCALE8).Floor;
    RoundShift(r * SCALE8, n);
    assert (total + r) * SCALE8 == r * SCALE8 + n as real;
  }

  ghost predicate NoTies(fills: seq<TradeRow>)
    requires AllFills(fills)
  {
    fills == [] || (NoTies(fills[..|fills| - 1]) && !IsTie(OutcomeOfLast(fills).realizedPnl * SCALE8))
  }

  lemma TotalsStep(kept: real, summed: real, r: real, n: nat)
    requires OnGrid8(kept) && Abs(kept - summed) <= UNIT * n as real
    ensures Abs(Round8(kept + r) - (summed + Round8(r))) <= UNIT * (n + 1) as real
    ensures kept == summed && !IsTie(r * SCALE8) ==> Round8(kept + r) == summed + Round8(r)
  {
    hide Round8, OnGrid8, IsTie;
    StoredTotalStep(kept, r);
  }

  /** The position's running total stays within a unit per fill of the trades' sum,
      and equals it when no fill realizes an exact tie. */
  lemma {:induction false} RealizedTotals(fills: seq<TradeRow>)
    requires AllFills(fills)
    ensures Abs(RealizedAfter(fills) - TradeRealized(fills)) <= UNIT * |fills| as real
    ensures NoTies(fills) ==> RealizedAfter(fills) == TradeRealized(fills)
    ensures OnGrid8(RealizedAfter(fills))
  {
    if fills == [] {
    } else {
      hide ApplyFill, Round8, OnGrid8, IsTie, StateAfter, OutcomeOfLast;
      var init := fills[..|fills| - 1];
      RealizedTotals(init);
      TotalsStep(RealizedAfter(init), TradeRealized(init), OutcomeOfLast(fills).realizedPnl, |init|);
    }
  }

  /** The sum of the stored realized P&L column. */
  function ColumnTotal(rows: seq<TradeRow>): real {
    if rows == [] then 0.0
    else
      var last := rows[|rows| - 1];
      ColumnTotal(rows[..|rows| - 1]) + if last.realizedPnl.Some? then last.realizedPnl.value else 0.0
  }

  lemma BooksPrefix(trades: seq<TradeRow>)
    requires BooksKept(trades) && trades != []
    ensures BooksKept(trades[..|trades| - 1])
  {
    hide ApplyFill, Round8, KeyFills, StateAfter, RowIsFill;
    var init := trades[..|trades| - 1];
    forall i | 0 <= i < |init| ensures RowBooked(init, i) {
      assert RowBooked(trades, i);
      assert init[..i] == trades[..i];
    }
  }

  lemma LastBooked(trades: seq<TradeRow>)
    requires BooksKept(trades) && trades != [] && RowIsFill(trades[|trades| - 1])
    ensures var init, row := trades[..|trades| - 1], trades[|trades| - 1];
            row.realizedPnl == Some(Round8(ApplyFill(StateAfter(KeyFills(init, row.key)), RowFill(row)).realizedPnl))
  {
    hide ApplyFill, Round8, KeyFills, StateAfter;
    assert RowBooked(trades, |trades| - 1);
  }

  lemma ColumnAppend(rows: seq<TradeRow>, row: TradeRow)
    requires row.realizedPnl.Some?
    ensures ColumnTotal(rows + [row]) == ColumnTotal(rows) + row.realizedPnl.value
  {
    assert (rows + [row])[..|rows|] == rows;
  }

  /** The stored column of a key adds up to what its fills realized one by one. */
  lemma {:induction false} ColumnIsRealized(trades: seq<TradeRow>, key: Key)
    requires BooksKept(trades)
    ensures ColumnTotal(KeyFills(trades, key)) == TradeRealized(KeyFills(trades, key))
  {
    if trades != [] {
      hide ApplyFill, Round8, StateAfter, OutcomeOfLast, BooksKept, TradeRealized, RealizedAfter, LatestCurrency, ColumnTotal,
           KeyFills, RowIsFill, RoundedState;
      var init, row := trades[..|trades| - 1], trades[|trades| - 1];
      BooksPrefix(trades);
      ColumnIsRealized(init, key);
      assert init + [row] == trades;
      KeyFillsAppend(init, row, key);
      if RowIsFill(row) && row.key == key {
        LastBooked(trades);
        FoldStep(KeyFills(init, key), row);
        ColumnAppend(KeyFills(init, key), row);
      } else {
        assert KeyFills(trades, key) == KeyFills(init, key);
      }
    } else {
      assert KeyFills(trades, key) == [];
    }
  }

  /** The trades' column of a key is within a unit per fill of the position's total, equal to it
      without ties, and on the quantity grid it differs from the true cash and the position held
      by no more than the rounding drift. */
  ghost predicate ColumnsAgree(db: Db, key: Key) {
    var fills, row := KeyFills(db.trades, key), Current(db, key);
    && Abs(row.realizedPnl - ColumnTotal(fills)) <= UNIT * |fills| as real
    && (NoTies(fills) ==> row.realizedPnl == ColumnTotal(fills))
    && (GridFills(fills) ==>
          WithinDrift(ColumnTotal(fills), Stored(row), CashTotal(fills), DriftBound(fills), SignedTotal(fills)))
  }

  /** So it is in any consistent tables. */
  lemma StoredColumnsAgree(db: Db, key: Key)
    requires Refines(db)
    ensures ColumnsAgree(db, key)
  {
    hide KeyFills, NoTies, GridFills, WithinDrift, CashTotal, DriftBound, SignedTotal, StateAfter, RealizedAfter,
         TradeRealized, ColumnTotal, BooksKept;
    var fills := KeyFills(db.trades, key);
    assert PositionRefines(db, key);
    ColumnIsRealized(db.trades, key);
    RealizedTotals(fills);
    if GridFills(fills) { RoundingDrift(fills); }
  }

  /** So it is after any run of calls. */
  lemma RunColumnsAgree(calls: seq<Call>, key: Key)
    ensures ColumnsAgree(RunCalls(calls), key)
  {
    hide Refines, ColumnsAgree, RunCalls;
    RunsRefine(calls);
    StoredColumnsAgree(RunCalls(calls), key);
  }

  function Sample(side: string, qty: real, price: real): TradeRow {
    TradeRow(Random(0), Key("v", "s", "t", true), side, qty, qty, Some(price), 0.0, None, "filled", None, 0, None)
  }

  /** A tie on an odd total: the position row reports one unit more than its trades. */
  lemma TiesBreakTheRealizedSum()
    ensures var fills := [Sample("buy", 1.5, 1.0), Sample("sell", 1.0, 1.00000001), Sample("sell", 0.5, 1.00000001)];
            && GridFills(fills)
            && TradeRealized(fills) == UNIT && RealizedAfter(fills) == 2.0 * UNIT
  {
    hide ApplyFill, Round8, RoundedState, OnGrid8, TradeRealized, RealizedAfter, StateAfter;
    var a, b, c := Sample("buy", 1.5, 1.0), Sample("sell", 1.0, 1.00000001), Sample("sell", 0.5, 1.00000001);
    SampleOutcomes();
    SampleRoundings();
    assert StateAfter([]) == FLAT && RealizedAfter([]) == TradeRealized([]) == 0.0 by { EmptyFolds(); }
    FoldStep([], a);
    assert [] + [a] == [a] && [a] + [b] == [a, b] && [a, b] + [c] == [a, b, c];
    FoldStep([a], b);
    FoldStep([a, b], c);
  }

  lemma EmptyFolds()
    ensures StateAfter([]) == FLAT && RealizedAfter([]) == TradeRealized([]) == 0.0
  {
  }

  lemma SampleOutcomes()
    ensures ApplyFill(FLAT, Fill("buy", 1.5, 1.0, 0.0)) == FillOutcome(PositionState(1.5, 1.0, 0.0), 0.0, false, false)
    ensures ApplyFill(PositionState(1.5, 1.0, 0.0), Fill("sell", 1.0, 1.00000001, 0.0))
            == FillOutcome(PositionState(0.5, 1.0, 0.0), UNIT, false, false)
    ensures ApplyFill(PositionState(0.5, 1.0, 0.0), Fill("sell", 0.5, 1.00000001, 0.0)).realizedPnl == HALF_UNIT
  {
  }

  lemma GridUnits(x: real, n: int)
    requires x * SCALE8 == n as real
    ensures OnGrid8(x) && Round8(x) == x
  {
  }

  lemma SampleRoundings()
    ensures RoundedState(PositionState(1.5, 1.0, 0.0)) == PositionState(1.5, 1.0, 0.0)
    ensures RoundedState(PositionState(0.5, 1.0, 0.0)) == PositionState(0.5, 1.0, 0.0)
    ensures Round8(0.0) == 0.0 && Round8(UNIT) == UNIT && Round8(HALF_UNIT) == 0.0 && Round8(UNIT + HALF_UNIT) == 2.0 * UNIT
    ensures OnGrid8(1.5) && OnGrid8(1.0) && OnGrid8(0.5)
  {
    RoundHalfEvenUnique(0.5, 0);
    RoundHalfEvenUnique(1.5, 2);
    assert Round8(HALF_UNIT) == 0.0 && Round8(UNIT + HALF_UNIT) == 2.0 * UNIT by { hide RoundHalfEven; }
    hide Round8, OnGrid8, RoundHalfEven;
    GridUnits(1.5, 150000000);
    GridUnits(1.0, 100000000);
    GridUnits(0.5, 50000000);
    GridUnits(0.0, 0);
    GridUnits(UNIT, 1);
  }

  /** The stored status says open exactly when the stored quantity is nonzero, unless
      the exact quantity lies above the threshold but within half a unit. */
  lemma StatusMatchesQuantity(prior: PositionRow, fill: Fill, feeCurrency: Option<string>, now: int)
    ensures var row, n := PositionFor(prior, fill, feeCurrency, now), Abs(ApplyFill(Stored(prior), fill).position.netQty);
            (row.status == "open" <==> row.netQty != 0.0) <==> !(EPS < n <= HALF_UNIT)
  {
    hide ApplyFill;
    var n := ApplyFill(Stored(prior), fill).position.netQty;
    assert Round8(n) == 0.0 <==> Abs(n) <= HALF_UNIT;
  }
}
