/** Which leg an order and a trade row belong to, over every run of the execution consumer in
    services/executor/app/consumer.py. */
module LegRows {
  import opened Options
  import opened Idempotency
  import opened Ledger
  import opened OrderIds
  import opened Executor

  predicate HoldsOrder(a: Activation) {
    a.Recovering? || a.Submitting? || a.Calling? || a.Recording? || a.Persisting?
  }

  predicate Found(quantity: Option<real>) {
    quantity.Some? && quantity.value > 0.0
  }

  /** Event i sizes a leg. */
  ghost predicate SizedAt(events: seq<Event>, i: nat) {
    i < |events| && events[i].SizeLeg? && Enabled(Run(events[..i]), events[i])
  }

  /** The activation, about to size a leg, has this one next. */
  predicate NextIs(a: Activation, leg: Leg) {
    a.Sizing? && |a.done| < |OrderPlan(a.m.payload)| && OrderPlan(a.m.payload)[|a.done|] == leg
  }

  /** The order submitted for a leg: its market and side, the message's strategy, the trading
      mode of the activation, and the quantity found for it. */
  ghost predicate IsOrderOf(order: Order, a: Activation, leg: Leg, nonce: nat, quantity: Option<real>) {
    && NextIs(a, leg) && Found(quantity)
    && order.venue == leg.venue && order.symbol == leg.symbol && order.side == leg.side
    && order.quantity == quantity.value
    && order.strategyType == a.m.payload.strategyType && order.paperMode == a.paper
    && order.clientOrderId == MakeOrderId(a.m.opportunity, |a.done|, leg.side, leg.symbol, nonce)
  }

  /** The position a leg's fills move. */
  predicate IsLegKey(key: Key, m: Message, paper: bool, leg: Leg) {
    && key.venue == leg.venue && key.symbol == leg.symbol && key.paperMode == paper
    && key.strategyType == if m.payload.strategyType == "" then "unknown" else m.payload.strategyType
  }

  /** The trade row of a leg; without a quantity it is a rejection under a fresh id. */
  ghost predicate IsRowOf(row: TradeRow, a: Activation, leg: Leg, nonce: nat, quantity: Option<real>) {
    && NextIs(a, leg) && row.side == leg.side && IsLegKey(row.key, a.m, a.paper, leg)
    && if Found(quantity) then
         row.quantity == quantity.value
         && row.clientOrderId == MakeOrderId(a.m.opportunity, |a.done|, leg.side, leg.symbol, nonce)
       else
         row.quantity == 0.0 && row.status == "rejected" && row.clientOrderId == Random(nonce)
  }

  // ---- The order in hand -----------------------------------------------------------------

  /** The order in hand is the one for the leg that event i sized, by this very activation. */
  ghost predicate OrderFrom(events: seq<Event>, s: State, i: nat, leg: Leg) {
    && HoldsOrder(s.activation) && SizedAt(events, i)
    && var t := Run(events[..i]);
    && t.activation.Sizing? && t.activation.m == s.activation.m && t.activation.paper == s.activation.paper
    && t.activation.done == s.activation.done
    && IsOrderOf(s.activation.order, t.activation, leg, t.nonce, events[i].quantity)
  }

  ghost predicate OrderIsSized(events: seq<Event>, s: State) {
    HoldsOrder(s.activation) ==> exists i: nat, leg :: OrderFrom(events, s, i, leg)
  }

  lemma SizedStays(events: seq<Event>, e: Event, i: nat)
    requires i < |events|
    ensures (events + [e])[..i] == events[..i] && (events + [e])[i] == events[i]
    ensures SizedAt(events + [e], i) <==> SizedAt(events, i)
  {
    assert (events + [e])[..i] == events[..i];
  }

  lemma SizingMakesOrder(s: State, quantity: Option<real>, dbOk: bool, now: int)
    requires Enabled(s, SizeLeg(quantity, dbOk, now))
    ensures var a, t := s.activation, Step(s, SizeLeg(quantity, dbOk, now));
            var leg := OrderPlan(a.m.payload)[|a.done|];
            && t.nonce == s.nonce + 1 && NextIs(a, leg)
            && (HoldsOrder(t.activation) <==> Found(quantity))
            && (Found(quantity) ==>
                  && t.activation.m == a.m && t.activation.paper == a.paper && t.activation.done == a.done
                  && IsOrderOf(t.activation.order, a, leg, s.nonce, quantity))
  {
    hide OrderPlan, Persisted, FailedResult, MakeOrderId, NextLeg;
    NextLegHoldsNothing(s.activation.m, s.activation.paper, s.activation.done + [None]);
  }

  lemma NextLegHoldsNothing(m: Message, paper: bool, done: Settled)
    ensures !HoldsOrder(NextLeg(m, paper, done))
  {
    hide OrderPlan;
  }

  /** Other steps hand the order on as it is. */
  lemma StepKeepsOrder(s: State, e: Event)
    requires Enabled(s, e) && !e.SizeLeg? && HoldsOrder(Step(s, e).activation)
    ensures var a, b := s.activation, Step(s, e).activation;
            HoldsOrder(a) && b.m == a.m && b.paper == a.paper && b.done == a.done && b.order == a.order
  {
    hide OrderPlan, Persisted, FailedResult, MakeOrderId, Recovered, Recorded, Acked, Bump, AfterHaltCheck, AfterSizing, NextLeg;
    match e
    case ReadHalt =>
      hide Step;
      HaltCheckStep(s);
    case Persist(ok, at) =>
      hide Step;
      PersistStep(s, ok, at);
    case Recover =>
    case Submit(_) =>
    case Return(_) =>
    case Record =>
    case SetHalt(_) =>
    case Deliver(_, _) =>
    case Acknowledge =>
    case Kill =>
  }

  lemma OrderFromStays(events: seq<Event>, s: State, t: State, e: Event, i: nat, leg: Leg)
    requires OrderFrom(events, s, i, leg) && HoldsOrder(t.activation)
    requires t.activation.m == s.activation.m && t.activation.paper == s.activation.paper
    requires t.activation.done == s.activation.done && t.activation.order == s.activation.order
    ensures OrderFrom(events + [e], t, i, leg)
  {
    hide Run, Enabled, IsOrderOf;
    SizedStays(events, e, i);
  }

  lemma StepKeepsSized(events: seq<Event>, s: State, e: Event)
    requires s == Run(events) && OrderIsSized(events, s) && Enabled(s, e)
    ensures OrderIsSized(events + [e], Step(s, e))
  {
    hide Run, Step, Enabled, OrderFrom, OrderPlan;
    var t := Step(s, e);
    if HoldsOrder(t.activation) {
      if e.SizeLeg? {
        NewOrderFrom(events, s, e);
        var leg :| OrderFrom(events + [e], t, |events|, leg);
      } else {
        StepKeepsOrder(s, e);
        var i: nat, leg :| OrderFrom(events, s, i, leg);
        OrderFromStays(events, s, t, e, i, leg);
      }
    }
  }

  lemma NewOrderFrom(events: seq<Event>, s: State, e: Event)
    requires s == Run(events) && Enabled(s, e) && e.SizeLeg? && HoldsOrder(Step(s, e).activation)
    ensures exists leg :: OrderFrom(events + [e], Step(s, e), |events|, leg)
  {
    assert (events + [e])[..|events|] == events;
    SizingMakesOrder(s, e.quantity, e.dbOk, e.now);
    var leg := OrderPlan(s.activation.m.payload)[|s.activation.done|];
    hide Run, Step, IsOrderOf, OrderPlan;
    assert OrderFrom(events + [e], Step(s, e), |events|, leg);
  }

  lemma SizedIdles(events: seq<Event>, s: State, e: Event)
    requires OrderIsSized(events, s)
    ensures OrderIsSized(events + [e], s)
  {
    hide Run, Enabled, OrderFrom;
    if HoldsOrder(s.activation) {
      var i: nat, leg :| OrderFrom(events, s, i, leg);
      assert i < |events| by { OrderFromInside(events, s, i, leg); }
      OrderFromStays(events, s, s, e, i, leg);
    }
  }

  lemma OrderFromInside(events: seq<Event>, s: State, i: nat, leg: Leg)
    requires OrderFrom(events, s, i, leg)
    ensures i < |events| && SizedAt(events, i) && HoldsOrder(s.activation)
  {
    hide Run, Enabled, IsOrderOf;
  }

  /** In every reachable state the order in hand is exactly its leg's. */
  lemma {:induction false} HeldOrderIsItsLegs(events: seq<Event>)
    ensures OrderIsSized(events, Run(events))
  {
    hide Step, Enabled, OrderIsSized;
    if events == [] {
      NothingHeld();
    } else {
      var init, e := events[..|events| - 1], events[|events| - 1];
      HeldOrderIsItsLegs(init);
      assert init + [e] == events;
      if Enabled(Run(init), e) { StepKeepsSized(init, Run(init), e); } else { SizedIdles(init, Run(init), e); }
    }
  }

  lemma NothingHeld()
    ensures OrderIsSized([], Run([]))
  {
  }

  // ---- The rows --------------------------------------------------------------------------

  ghost predicate RowFrom(events: seq<Event>, row: TradeRow, i: nat, leg: Leg) {
    SizedAt(events, i) && IsRowOf(row, Run(events[..i]).activation, leg, Run(events[..i]).nonce, events[i].quantity)
  }

  ghost predicate RowIsSized(events: seq<Event>, row: TradeRow) {
    exists i: nat, leg :: RowFrom(events, row, i, leg)
  }

  ghost predicate RowsAreSized(events: seq<Event>, trades: seq<TradeRow>) {
    forall r :: 0 <= r < |trades| ==> RowIsSized(events, trades[r])
  }

  lemma RowFromStays(events: seq<Event>, row: TradeRow, e: Event)
    requires RowIsSized(events, row)
    ensures RowIsSized(events + [e], row)
  {
    hide Run, Enabled, IsRowOf;
    var i: nat, leg :| RowFrom(events, row, i, leg);
    SizedStays(events, e, i);
    assert RowFrom(events + [e], row, i, leg);
  }

  /** The order's columns carry over to the row. */
  lemma RowOfOrder(db: Db, order: Order, result: OrderResult, now: int, a: Activation, leg: Leg, nonce: nat, quantity: Option<real>)
    requires IsOrderOf(order, a, leg, nonce, quantity) && result.clientOrderId == order.clientOrderId
    ensures IsRowOf(RowFor(db, order, result, now), a, leg, nonce, quantity)
  {
    hide RowFor, MakeOrderId, OrderPlan;
    RowForRecords(db, Call(order, result, now));
  }

  /** What a step appends to the trades: the row of the order in hand, or a rejection. */
  lemma StepAppends(s: State, e: Event)
    requires Enabled(s, e) && ResultsAgree(s)
    ensures var t := Step(s, e);
            || t.db.trades == s.db.trades
            || (e.Persist? && t.db.trades == s.db.trades + [RowFor(s.db, s.activation.order, s.activation.result, e.at)]
                && s.activation.result.clientOrderId == s.activation.order.clientOrderId)
            || (e.SizeLeg? && !Found(e.quantity) && |t.db.trades| == |s.db.trades| + 1 && s.db.trades <= t.db.trades
                && IsRowOf(t.db.trades[|s.db.trades|], s.activation, OrderPlan(s.activation.m.payload)[|s.activation.done|], s.nonce, e.quantity))
  {
    hide OrderPlan, RowFor, PositionFor, MakeOrderId, Acked, Recovered, Recorded, NextLeg, AfterHaltCheck, FailedResult, HasTrade;
    match e
    case SizeLeg(quantity, dbOk, now) =>
      hide Step, Enabled;
      SizingAppends(s, quantity, dbOk, now);
    case Persist(_, _) =>
    case ReadHalt =>
      hide Step;
      HaltCheckStep(s);
    case Recover =>
    case Submit(_) =>
    case Return(_) =>
    case Record =>
    case SetHalt(_) =>
    case Deliver(_, _) =>
    case Acknowledge =>
    case Kill =>
  }

  lemma SizingAppends(s: State, quantity: Option<real>, dbOk: bool, now: int)
    requires Enabled(s, SizeLeg(quantity, dbOk, now))
    ensures var t := Step(s, SizeLeg(quantity, dbOk, now));
            || t.db.trades == s.db.trades
            || (!Found(quantity) && |t.db.trades| == |s.db.trades| + 1 && s.db.trades <= t.db.trades
                && IsRowOf(t.db.trades[|s.db.trades|], s.activation, OrderPlan(s.activation.m.payload)[|s.activation.done|], s.nonce, quantity))
  {
    hide OrderPlan, RowFor, PositionFor, MakeOrderId, NextLeg, HasTrade;
    var a := s.activation;
    var leg, id := OrderPlan(a.m.payload)[|a.done|], Random(s.nonce);
    RowForRecords(s.db, Call(LegOrder(a.m, a.paper, leg, id, 0.0), FailedResult(id, "rejected", leg.venue, NO_TICK), now));
  }

  lemma PersistedRowIsSized(events: seq<Event>, s: State, e: Event)
    requires s == Run(events) && Enabled(s, e) && e.Persist? && OrderIsSized(events, s)
    requires s.activation.result.clientOrderId == s.activation.order.clientOrderId
    ensures RowIsSized(events + [e], RowFor(s.db, s.activation.order, s.activation.result, e.at))
  {
    hide Run, RowFor, IsOrderOf, IsRowOf, OrderPlan;
    var i: nat, leg :| OrderFrom(events, s, i, leg);
    var u, row := Run(events[..i]), RowFor(s.db, s.activation.order, s.activation.result, e.at);
    RowOfOrder(s.db, s.activation.order, s.activation.result, e.at, u.activation, leg, u.nonce, events[i].quantity);
    assert RowFrom(events, row, i, leg);
    RowFromStays(events, row, e);
  }

  lemma RejectedRowIsSized(events: seq<Event>, s: State, e: Event, row: TradeRow, leg: Leg)
    requires s == Run(events) && Enabled(s, e) && e.SizeLeg? && IsRowOf(row, s.activation, leg, s.nonce, e.quantity)
    ensures RowIsSized(events + [e], row)
  {
    hide Run, IsRowOf;
    assert (events + [e])[..|events|] == events;
    assert RowFrom(events + [e], row, |events|, leg);
  }

  lemma NewRowIsSized(events: seq<Event>, s: State, e: Event)
    requires s == Run(events) && Enabled(s, e) && ResultsAgree(s) && OrderIsSized(events, s)
    requires Step(s, e).db.trades != s.db.trades
    ensures var t := Step(s, e);
            |t.db.trades| == |s.db.trades| + 1 && s.db.trades <= t.db.trades
            && RowIsSized(events + [e], t.db.trades[|s.db.trades|])
  {
    StepAppends(s, e);
    if e.Persist? {
      hide Run, Step, RowFor, ResultsAgree, OrderIsSized, RowIsSized, OrderPlan;
      PersistedRowIsSized(events, s, e);
    } else {
      var leg := OrderPlan(s.activation.m.payload)[|s.activation.done|];
      hide Run, Step, ResultsAgree, OrderIsSized, RowIsSized, OrderPlan, IsRowOf;
      RejectedRowIsSized(events, s, e, Step(s, e).db.trades[|s.db.trades|], leg);
    }
  }

  /** In every reachable state each trade row is that of a leg some activation sized: its market,
      side, strategy, trading mode and quantity. */
  lemma {:induction false} EveryRowIsALegs(events: seq<Event>)
    ensures RowsAreSized(events, Run(events).db.trades)
  {
    hide Step, Enabled, RowIsSized;
    if events == [] {
      NoRows();
    } else {
      var init, e := events[..|events| - 1], events[|events| - 1];
      EveryRowIsALegs(init);
      assert init + [e] == events;
      var s, t := Run(init), Run(events);
      RunKeepsInvariant(init);
      InvariantGives(s);
      HeldOrderIsItsLegs(init);
      if t.db.trades != s.db.trades { NewRowIsSized(init, s, e); }
      hide Run;
      forall r | 0 <= r < |t.db.trades| ensures RowIsSized(events, t.db.trades[r]) {
        if r < |s.db.trades| { RowFromStays(init, s.db.trades[r], e); }
      }
    }
  }

  lemma NoRows()
    ensures RowsAreSized([], Run([]).db.trades)
  {
  }

  // ---- Deliveries ------------------------------------------------------------------------

  ghost predicate Delivered(events: seq<Event>, m: Message, paper: bool) {
    exists d :: 0 <= d < |events| && events[d] == Deliver(m, paper)
  }

  /** The activation works on a delivered message, in the mode of that delivery. */
  ghost predicate ActivationDelivered(events: seq<Event>, a: Activation) {
    !a.Idle? && !a.Finished? ==> Delivered(events, a.m, a.paper)
  }

  lemma DeliveredStays(events: seq<Event>, e: Event, m: Message, paper: bool)
    ensures Delivered(events + [e], m, paper) <==> Delivered(events, m, paper) || e == Deliver(m, paper)
  {
    assert (events + [e])[|events|] == e;
    assert forall d :: 0 <= d < |events| ==> (events + [e])[d] == events[d];
  }

  /** Only a delivery changes the message and the mode an activation works on. */
  lemma StepKeepsMessage(s: State, e: Event)
    requires Enabled(s, e)
    ensures var a, b := s.activation, Step(s, e).activation;
            !b.Idle? ==>
              if e.Deliver? then b == Started(e.message, e.mode)
              else !a.Idle? && b.m == a.m && (!b.Finished? ==> !a.Finished? && b.paper == a.paper)
  {
    hide OrderPlan, Persisted, FailedResult, MakeOrderId, Recovered, Recorded, Acked, Bump, AfterHaltCheck, AfterSizing, NextLeg;
    match e
    case ReadHalt =>
      hide Step;
      HaltCheckKeepsMessage(s);
    case Persist(_, _) =>
      hide Step;
      LegKeepsMessage(s, e);
    case SizeLeg(_, _, _) =>
      hide Step;
      LegKeepsMessage(s, e);
    case Recover =>
    case Submit(_) =>
    case Return(_) =>
    case Record =>
    case SetHalt(_) =>
    case Deliver(_, _) =>
    case Acknowledge =>
    case Kill =>
  }

  lemma HaltCheckKeepsMessage(s: State)
    requires Enabled(s, ReadHalt)
    ensures var a, b := s.activation, Step(s, ReadHalt).activation;
            !b.Idle? && b.m == a.m && (!b.Finished? ==> b.paper == a.paper)
  {
    hide OrderPlan;
  }

  lemma LegKeepsMessage(s: State, e: Event)
    requires Enabled(s, e) && (e.Persist? || e.SizeLeg?)
    ensures var a, b := s.activation, Step(s, e).activation;
            b.Idle? || (!a.Idle? && b.m == a.m && (!b.Finished? ==> !a.Finished? && b.paper == a.paper))
  {
    hide OrderPlan, Persisted, FailedResult, MakeOrderId, LegOrder;
  }

  lemma {:induction false} ActivationsAreDelivered(events: seq<Event>)
    ensures ActivationDelivered(events, Run(events).activation)
  {
    hide Step, Enabled, Delivered;
    if events == [] {
      StartsIdle();
    } else {
      var init, e := events[..|events| - 1], events[|events| - 1];
      ActivationsAreDelivered(init);
      assert init + [e] == events;
      var s := Run(init);
      if Enabled(s, e) { StepKeepsMessage(s, e); }
      var b := Run(events).activation;
      hide Run;
      if !b.Idle? && !b.Finished? { DeliveredStays(init, e, b.m, b.paper); }
    }
  }

  lemma StartsIdle()
    ensures Run([]).activation.Idle? && Run([]).acks == []
  {
  }

  // ---- Settled legs ----------------------------------------------------------------------

  /** Leg j of the message was settled under the id that event i gave it. */
  ghost predicate SettledFrom(events: seq<Event>, m: Message, j: nat, id: OrderId, i: nat) {
    && SizedAt(events, i) && j < |OrderPlan(m.payload)|
    && var t := Run(events[..i]);
    && t.activation.Sizing? && t.activation.m == m && |t.activation.done| == j
    && id == MakeOrderId(m.opportunity, j, OrderPlan(m.payload)[j].side, OrderPlan(m.payload)[j].symbol, t.nonce)
  }

  ghost predicate LegIsSized(events: seq<Event>, m: Message, j: nat, id: OrderId) {
    exists i: nat :: SettledFrom(events, m, j, id, i)
  }

  ghost predicate DoneIsSized(events: seq<Event>, m: Message, done: Settled) {
    forall j: nat :: j < |done| && done[j].Some? ==> LegIsSized(events, m, j, done[j].value)
  }

  ghost predicate SettledAreSized(events: seq<Event>, s: State) {
    && (!s.activation.Idle? ==> DoneIsSized(events, s.activation.m, DoneOf(s.activation)))
    && forall k :: 0 <= k < |s.acks| ==> DoneIsSized(events, s.acks[k].m, s.acks[k].done)
  }

  lemma DoneStays(events: seq<Event>, e: Event, m: Message, done: Settled)
    requires DoneIsSized(events, m, done)
    ensures DoneIsSized(events + [e], m, done)
  {
    hide Run, Enabled;
    forall j: nat | j < |done| && done[j].Some? ensures LegIsSized(events + [e], m, j, done[j].value) {
      assert LegIsSized(events, m, j, done[j].value);
      var i: nat :| SettledFrom(events, m, j, done[j].value, i);
      SizedStays(events, e, i);
      assert SettledFrom(events + [e], m, j, done[j].value, i);
    }
  }

  lemma DoneGrows(events: seq<Event>, m: Message, done: Settled, next: Option<OrderId>)
    requires DoneIsSized(events, m, done)
    requires next.Some? ==> LegIsSized(events, m, |done|, next.value)
    ensures DoneIsSized(events, m, done + [next])
  {
    hide LegIsSized;
  }

  lemma OrderSettles(events: seq<Event>, s: State)
    requires OrderIsSized(events, s) && HoldsOrder(s.activation)
    ensures LegIsSized(events, s.activation.m, |s.activation.done|, s.activation.order.clientOrderId)
  {
    hide Run, Enabled, OrderPlan, MakeOrderId;
    var i: nat, leg :| OrderFrom(events, s, i, leg);
    assert SettledFrom(events, s.activation.m, |s.activation.done|, s.activation.order.clientOrderId, i);
  }

  lemma PersistHolds(s: State, e: Event)
    requires Enabled(s, e) && e.Persist?
    ensures HoldsOrder(s.activation) && DoneOf(s.activation) == s.activation.done
  {
  }

  lemma StepDoneIsSized(events: seq<Event>, s: State, e: Event)
    requires s == Run(events) && Enabled(s, e) && ActivationSettled(s) && OrderIsSized(events, s) && SettledAreSized(events, s)
    requires !Step(s, e).activation.Idle?
    ensures DoneIsSized(events, Step(s, e).activation.m, DoneOf(Step(s, e).activation))
  {
    hide Run, Step, LegIsSized, OrderIsSized, ActivationSettled;
    StepKeepsMessage(s, e);
    if !e.Deliver? {
      StepMovesDone(s, e);
      var m, done := s.activation.m, DoneOf(s.activation);
      if e.Persist? {
        PersistHolds(s, e);
        OrderSettles(events, s);
        DoneGrows(events, m, done, Some(s.activation.order.clientOrderId));
      } else if e.SizeLeg? {
        DoneGrows(events, m, done, None);
        assert done + [] == done;
      }
    }
  }

  lemma StepKeepsSettledSized(events: seq<Event>, s: State, e: Event)
    requires s == Run(events) && Enabled(s, e) && ActivationSettled(s) && ResultsAgree(s)
    requires OrderIsSized(events, s) && SettledAreSized(events, s)
    ensures SettledAreSized(events + [e], Step(s, e))
  {
    var t := Step(s, e);
    StepKeepsSettled(s, e);
    hide Step, Enabled, OrderIsSized, ActivationSettled, ResultsAgree, DoneIsSized;
    if !t.activation.Idle? {
      StepDoneIsSized(events, s, e);
      DoneStays(events, e, t.activation.m, DoneOf(t.activation));
    }
    hide Run;
    forall k | 0 <= k < |t.acks| ensures DoneIsSized(events + [e], t.acks[k].m, t.acks[k].done) {
      assert DoneIsSized(events, t.acks[k].m, t.acks[k].done);
      DoneStays(events, e, t.acks[k].m, t.acks[k].done);
    }
  }

  lemma SettledSizedIdles(events: seq<Event>, s: State, e: Event)
    requires SettledAreSized(events, s)
    ensures SettledAreSized(events + [e], s)
  {
    hide Run, DoneIsSized;
    if !s.activation.Idle? { DoneStays(events, e, s.activation.m, DoneOf(s.activation)); }
    forall k | 0 <= k < |s.acks| ensures DoneIsSized(events + [e], s.acks[k].m, s.acks[k].done) {
      DoneStays(events, e, s.acks[k].m, s.acks[k].done);
    }
  }

  lemma {:induction false} SettledLegsAreSized(events: seq<Event>)
    ensures SettledAreSized(events, Run(events))
  {
    hide Step, Enabled, DoneIsSized, OrderIsSized, ActivationSettled, ResultsAgree;
    if events == [] {
      StartsIdle();
    } else {
      hide SettledAreSized;
      var init, e := events[..|events| - 1], events[|events| - 1];
      SettledLegsAreSized(init);
      assert init + [e] == events;
      RunKeepsInvariant(init);
      InvariantGives(Run(init));
      HeldOrderIsItsLegs(init);
      if Enabled(Run(init), e) { StepKeepsSettledSized(init, Run(init), e); } else { SettledSizedIdles(init, Run(init), e); }
    }
  }

  // ---- A fresh id belongs to one leg ----------------------------------------------------------

  lemma StepNonce(s: State, e: Event)
    requires Enabled(s, e)
    ensures Step(s, e).nonce == s.nonce + if e.SizeLeg? then 1 else 0
  {
    hide OrderPlan, Persisted, FailedResult, MakeOrderId, Recovered, Recorded, Acked, Bump, NextLeg;
    match e
    case SizeLeg(_, _, _) =>
    case ReadHalt =>
      hide Step;
      HaltCheckStep(s);
    case Persist(_, _) =>
    case Recover =>
    case Submit(_) =>
    case Return(_) =>
    case Record =>
    case SetHalt(_) =>
    case Deliver(_, _) =>
    case Acknowledge =>
    case Kill =>
  }

  lemma {:induction false} NonceGrows(events: seq<Event>, i: nat)
    requires SizedAt(events, i)
    ensures Run(events[..i]).nonce < Run(events).nonce
    decreases |events|
  {
    hide Step, Enabled;
    var init, e := events[..|events| - 1], events[|events| - 1];
    assert init + [e] == events;
    if Enabled(Run(init), e) { StepNonce(Run(init), e); }
    if i < |init| {
      SizedStays(init, e, i);
      NonceGrows(init, i);
    } else {
      assert events[..i] == init;
    }
  }

  lemma SizedPrefix(events: seq<Event>, i: nat, k: nat)
    requires SizedAt(events, i) && i < k <= |events|
    ensures SizedAt(events[..k], i) && events[..k][..i] == events[..i]
  {
    hide Run, Enabled;
    assert events[..k][..i] == events[..i];
  }

  lemma NonceIsUnique(events: seq<Event>, i: nat, k: nat)
    requires SizedAt(events, i) && SizedAt(events, k) && Run(events[..i]).nonce == Run(events[..k]).nonce
    ensures i == k
  {
    hide Run, Enabled;
    if i < k {
      SizedPrefix(events, i, k);
      NonceGrows(events[..k], i);
    } else if k < i {
      SizedPrefix(events, k, i);
      NonceGrows(events[..i], k);
    }
  }

  // ---- Acknowledged legs ------------------------------------------------------------------------

  /** No delivered opportunity id contains a colon. */
  ghost predicate ColonFree(events: seq<Event>) {
    forall d :: 0 <= d < |events| && events[d].Deliver? ==> ':' !in events[d].message.opportunity
  }

  /** Deliveries of one opportunity agree on the payload and the trading mode. */
  ghost predicate DeliveriesAgree(events: seq<Event>) {
    forall c, d :: 0 <= c < |events| && 0 <= d < |events| && events[c].Deliver? && events[d].Deliver?
                   && events[c].message.opportunity == events[d].message.opportunity != "" ==>
                     events[c].message.payload == events[d].message.payload && events[c].mode == events[d].mode
  }

  /** The row is leg j's: its side and market, and the position of the message's strategy in the
      mode of a delivery of it. */
  ghost predicate IsLegsRow(events: seq<Event>, row: TradeRow, m: Message, j: nat) {
    j < |OrderPlan(m.payload)| &&
    var leg := OrderPlan(m.payload)[j];
    && row.side == leg.side && row.key.symbol == leg.symbol
    && (m.opportunity == "" || DeliveriesAgree(events) ==>
          exists paper :: Delivered(events, m, paper) && IsLegKey(row.key, m, paper, leg))
  }

  lemma SizedDelivered(events: seq<Event>, i: nat)
    requires SizedAt(events, i)
    ensures var a := Run(events[..i]).activation; a.Sizing? && Delivered(events, a.m, a.paper)
  {
    hide Run;
    ActivationsAreDelivered(events[..i]);
    var a := Run(events[..i]).activation;
    var d :| 0 <= d < i && events[..i][d] == Deliver(a.m, a.paper);
    assert events[d] == Deliver(a.m, a.paper);
  }

  lemma FreshRowIsLegs(events: seq<Event>, row: TradeRow, m: Message, j: nat, i: nat, leg: Leg, k: nat)
    requires RowFrom(events, row, i, leg) && SettledFrom(events, m, j, row.clientOrderId, k) && m.opportunity == ""
    ensures IsLegsRow(events, row, m, j)
  {
    hide Run, Enabled, OrderPlan, DeliveriesAgree, Delivered;
    NonceIsUnique(events, i, k);
    SizedDelivered(events, i);
  }

  lemma KeyedRowIsLegs(events: seq<Event>, row: TradeRow, m: Message, j: nat, i: nat, leg: Leg, k: nat)
    requires RowFrom(events, row, i, leg) && SettledFrom(events, m, j, row.clientOrderId, k) && m.opportunity != ""
    requires ColonFree(events)
    ensures IsLegsRow(events, row, m, j)
  {
    var a, b := Run(events[..i]).activation, Run(events[..k]).activation;
    SizedDelivered(events, i);
    SizedDelivered(events, k);
    hide Run, Enabled, OrderPlan, MakeOrderId;
    var wanted := OrderPlan(m.payload)[j];
    SidesOfPlan(m.payload, j);
    SidesOfPlan(a.m.payload, |a.done|);
    assert row.clientOrderId == MakeOrderId(a.m.opportunity, |a.done|, leg.side, leg.symbol, Run(events[..i]).nonce) by {
      KeyedIsNotFresh(m.opportunity, j, wanted.side, wanted.symbol, Run(events[..k]).nonce, Run(events[..i]).nonce);
    }
    OrderIdInjective(m.opportunity, j, wanted.side, wanted.symbol, Run(events[..k]).nonce,
                     a.m.opportunity, |a.done|, leg.side, leg.symbol, Run(events[..i]).nonce);
  }

  lemma SidesOfPlan(p: Payload, j: nat)
    requires j < |OrderPlan(p)|
    ensures IsSide(OrderPlan(p)[j].side)
  {
    hide OrderPlan;
  }

  lemma KeyedIsNotFresh(o: string, j: nat, side: string, symbol: string, n: nat, k: nat)
    requires o != ""
    ensures MakeOrderId(o, j, side, symbol, n) != Random(k)
  {
  }

  /** An acknowledged execution settled every leg: either it had no tick, or a row with the leg's id
      exists.  That row holds the recorded result when the id is keyed, is some sized leg's, and,
      opportunity ids being free of colons, is this very leg's. */
  lemma AcknowledgedLegsArePersisted(events: seq<Event>, i: nat, j: nat)
    requires i < |Run(events).acks|
    requires var ack := Run(events).acks[i]; ack.executed && j < |OrderPlan(ack.m.payload)|
    ensures var s := Run(events); var ack := s.acks[i];
            && j < |ack.done|
            && (ack.done[j].Some? ==>
                  var id := ack.done[j].value;
                  && IsLegId(ack.m, j, id)
                  && exists r :: 0 <= r < |s.db.trades| && s.db.trades[r].clientOrderId == id
                                 && RowIsRecorded(s, s.db.trades[r]) && RowIsSized(events, s.db.trades[r])
                                 && (ack.m.opportunity == "" || ColonFree(events) ==> IsLegsRow(events, s.db.trades[r], ack.m, j)))
  {
    hide Run, IsLegId, OrderPlan, RowIsRecorded, RowIsSized, IsLegsRow, DoneIsSized, ColonFree;
    AcknowledgedLegsHaveRows(events, i, j);
    var s := Run(events);
    var ack := s.acks[i];
    if ack.done[j].Some? {
      var r :| 0 <= r < |s.db.trades| && s.db.trades[r].clientOrderId == ack.done[j].value && RowIsRecorded(s, s.db.trades[r]);
      EveryRowIsALegs(events);
      SettledLegsAreSized(events);
      if ack.m.opportunity == "" || ColonFree(events) {
        SettledRowIsLegs(events, s.db.trades[r], ack.m, ack.done, j);
      }
    }
  }

  lemma SettledRowIsLegs(events: seq<Event>, row: TradeRow, m: Message, done: Settled, j: nat)
    requires RowIsSized(events, row) && DoneIsSized(events, m, done)
    requires j < |done| && done[j] == Some(row.clientOrderId)
    requires m.opportunity == "" || ColonFree(events)
    ensures IsLegsRow(events, row, m, j)
  {
    hide RowFrom, SettledFrom, IsLegsRow, ColonFree;
    var i: nat, leg :| RowFrom(events, row, i, leg);
    assert LegIsSized(events, m, j, done[j].value);
    var k: nat :| SettledFrom(events, m, j, row.clientOrderId, k);
    if m.opportunity == "" {
      FreshRowIsLegs(events, row, m, j, i, leg, k);
    } else {
      KeyedRowIsLegs(events, row, m, j, i, leg, k);
    }
  }

  // ---- What the adapter returned ------------------------------------------------------------------

  /** No fill, under the order's id. */
  ghost predicate IsFailure(result: OrderResult, order: Order) {
    && result.clientOrderId == order.clientOrderId && result.status == "error" && result.filledQty == 0.0
    && result.fee == 0.0 && result.averageFillPrice == Some(0.0)
    && result.feeCurrency == Some(if order.venue == "oanda" then "USD" else "USDT")
  }

  /** Event i ended the submission under this id: the adapter returned the result, or it raised or
      the venue was unknown and the result is a failure. */
  ghost predicate ResultFrom(events: seq<Event>, id: OrderId, result: OrderResult, i: nat) {
    && i < |events| && Enabled(Run(events[..i]), events[i])
    && var a := Run(events[..i]).activation;
    && HoldsOrder(a) && a.order.clientOrderId == id
    && match events[i]
       case Return(Some(outcome)) => result == outcome
       case Return(None) => IsFailure(result, a.order)
       case Submit(venueKnown) => !venueKnown && IsFailure(result, a.order)
       case _ => false
  }

  /** The result is, up to the raw response, one that an adapter returned or a failure. */
  ghost predicate IsReturned(events: seq<Event>, id: OrderId, result: OrderResult) {
    exists i: nat, r :: ResultFrom(events, id, r, i) && Replayed(r) == Replayed(result)
  }

  ghost predicate ResultsAreReturned(events: seq<Event>, s: State) {
    var a := s.activation;
    && (a.Recording? || a.Persisting? ==> IsReturned(events, a.order.clientOrderId, a.result))
    && forall id :: Recovered(s.recorded, id).Some? ==> IsReturned(events, id, Recovered(s.recorded, id).value)
  }

  lemma ReturnedStays(events: seq<Event>, e: Event, id: OrderId, result: OrderResult)
    requires IsReturned(events, id, result)
    ensures IsReturned(events + [e], id, result)
  {
    hide Run, Enabled, IsFailure;
    var i: nat, r :| ResultFrom(events, id, r, i) && Replayed(r) == Replayed(result);
    assert (events + [e])[..i] == events[..i];
    assert ResultFrom(events + [e], id, r, i);
  }

  /** A submission that ends leaves its result in the activation. */
  lemma SubmissionEnds(events: seq<Event>, s: State, e: Event)
    requires s == Run(events) && Enabled(s, e) && (e.Return? || e.Submit?) && Step(s, e).activation.Recording?
    ensures var t := Step(s, e);
            t.recorded == s.recorded && IsReturned(events + [e], t.activation.order.clientOrderId, t.activation.result)
  {
    hide Run;
    assert (events + [e])[..|events|] == events;
    assert ResultFrom(events + [e], s.activation.order.clientOrderId, Step(s, e).activation.result, |events|);
  }

  /** Other steps hand a result on, or recover one. */
  lemma StepMovesResult(s: State, e: Event)
    requires Enabled(s, e) && !e.Return? && !e.Submit?
    ensures var a, t := s.activation, Step(s, e);
            && (!e.Record? ==> t.recorded == s.recorded)
            && (t.activation.Recording? || t.activation.Persisting? ==>
                  && HoldsOrder(a) && t.activation.order == a.order
                  && if e.Recover? then Recovered(s.recorded, a.order.clientOrderId) == Some(t.activation.result)
                     else (a.Recording? || a.Persisting?) && t.activation.result == a.result)
  {
    hide OrderPlan, Persisted, FailedResult, MakeOrderId, Recovered, Recorded, Acked, Bump, AfterHaltCheck, AfterSizing, NextLeg;
    match e
    case SizeLeg(quantity, dbOk, now) =>
      hide Step;
      SizeStep(s, quantity, dbOk, now);
    case ReadHalt =>
      hide Step;
      HaltCheckStep(s);
    case Persist(ok, at) =>
      hide Step;
      PersistStep(s, ok, at);
    case Record =>
    case Recover =>
    case SetHalt(_) =>
    case Deliver(_, _) =>
    case Acknowledge =>
    case Kill =>
  }

  lemma SubmitKeepsRecorded(s: State, e: Event)
    requires Enabled(s, e) && (e.Return? || e.Submit?)
    ensures Step(s, e).recorded == s.recorded && !Step(s, e).activation.Persisting?
  {
  }

  lemma ReplayedTwice(result: OrderResult)
    ensures Replayed(Replayed(result)) == Replayed(result)
  {
  }

  lemma ReturnedReplay(events: seq<Event>, id: OrderId, result: OrderResult)
    requires IsReturned(events, id, result)
    ensures IsReturned(events, id, Replayed(result))
  {
    hide Run, ResultFrom;
    ReplayedTwice(result);
  }

  lemma StepKeepsReturned(events: seq<Event>, s: State, e: Event)
    requires s == Run(events) && Enabled(s, e) && ResultsAreReturned(events, s)
    ensures ResultsAreReturned(events + [e], Step(s, e))
  {
    hide Run, Step, IsReturned, Recovered, Recorded;
    var a, t := s.activation, Step(s, e);
    var extended := events + [e];
    if e.Return? || e.Submit? {
      SubmitKeepsRecorded(s, e);
      if t.activation.Recording? { SubmissionEnds(events, s, e); }
    } else {
      StepMovesResult(s, e);
      if t.activation.Recording? || t.activation.Persisting? {
        ReturnedStays(events, e, t.activation.order.clientOrderId, t.activation.result);
      }
    }
    if e.Record? {
      RecordMeaning(s);
      ReturnedReplay(events, a.order.clientOrderId, a.result);
    }
    forall id | Recovered(t.recorded, id).Some? ensures IsReturned(extended, id, Recovered(t.recorded, id).value) {
      ReturnedStays(events, e, id, Recovered(t.recorded, id).value);
    }
  }

  lemma ReturnedIdles(events: seq<Event>, s: State, e: Event)
    requires ResultsAreReturned(events, s)
    ensures ResultsAreReturned(events + [e], s)
  {
    hide IsReturned, Recovered;
    var a := s.activation;
    if a.Recording? || a.Persisting? { ReturnedStays(events, e, a.order.clientOrderId, a.result); }
    forall id | Recovered(s.recorded, id).Some? ensures IsReturned(events + [e], id, Recovered(s.recorded, id).value) {
      ReturnedStays(events, e, id, Recovered(s.recorded, id).value);
    }
  }

  lemma {:induction false} RecordedResultsAreReturned(events: seq<Event>)
    ensures ResultsAreReturned(events, Run(events))
  {
    hide Step, Enabled, ResultsAreReturned;
    if events == [] {
      NothingReturned();
    } else {
      var init, e := events[..|events| - 1], events[|events| - 1];
      RecordedResultsAreReturned(init);
      assert init + [e] == events;
      if Enabled(Run(init), e) { StepKeepsReturned(init, Run(init), e); } else { ReturnedIdles(init, Run(init), e); }
    }
  }

  lemma NothingReturned()
    ensures ResultsAreReturned([], Run([]))
  {
  }

  /** Every keyed trade row stores status, quantity, price and fee as an adapter returned them under
      its id, or a failure. */
  lemma RowsStoreWhatAdaptersReturn(events: seq<Event>, r: nat)
    requires r < |Run(events).db.trades| && Run(events).db.trades[r].clientOrderId.Keyed?
    ensures var row := Run(events).db.trades[r];
            exists i: nat, result :: ResultFrom(events, row.clientOrderId, result, i) && RowMatches(row, result)
  {
    hide Run, Refines, CallsAccounted, ActivationSettled, AcksSettled, ResultsAgree, Recovered, ResultFrom;
    RunKeepsInvariant(events);
    RecordedResultsAreReturned(events);
    var s := Run(events);
    assert RowIsRecorded(s, s.db.trades[r]);
    var i: nat, result :| ResultFrom(events, s.db.trades[r].clientOrderId, result, i)
      && Replayed(result) == Replayed(Recovered(s.recorded, s.db.trades[r].clientOrderId).value);
    assert RowMatches(s.db.trades[r], result);
  }

  // ---- A redelivery in another mode -------------------------------------------------------------

  lemma ReplayedInMode(paper: bool) returns (events: seq<Event>)
    ensures DeliveriesAgree(events) <==> paper
    ensures Run(events).calls == SAMPLE_CALLS
    ensures Run(events).db == Persisted(Db([], map[]), SAMPLE_ORDER.(paperMode := paper), Replayed(SAMPLE_FILL), 0)
  {
    SamplePlan();
    hide KeyText, Run, Persisted, OrderPlan, Recorded, Recovered;
    events := KilledBeforePersist();
    var before := events;
    RecoveredAfterRecord(map[], SAMPLE_ID, SAMPLE_FILL);
    Extend(events, Deliver(SAMPLE, paper));
    events := events + [Deliver(SAMPLE, paper)];
    Extend(events, ReadHalt);
    events := events + [ReadHalt];
    Extend(events, SizeLeg(Some(1.0), true, 0));
    events := events + [SizeLeg(Some(1.0), true, 0)];
    Extend(events, Recover);
    events := events + [Recover];
    Extend(events, Persist(true, 0));
    events := events + [Persist(true, 0)];
    assert events[0] == before[0] == Deliver(SAMPLE, true) && events[|before|] == Deliver(SAMPLE, paper);
    assert forall d :: 0 <= d < |events| && events[d].Deliver? ==> d == 0 || d == |before|;
  }

  /** The clause on agreeing deliveries matters: an order submitted in paper mode, whose message is
      redelivered after a restart in live mode, is booked as a live trade. */
  lemma RedeliveryDecidesMode(paper: bool)
    ensures exists events :: Run(events).calls == SAMPLE_CALLS && |Run(events).db.trades| == 1
                             && Run(events).db.trades[0].clientOrderId == SAMPLE_ID
                             && Run(events).db.trades[0].key.paperMode == paper
  {
    var events := ReplayedInMode(paper);
    var order := SAMPLE_ORDER.(paperMode := paper);
    hide Run, KeyText;
    RowForRecords(Db([], map[]), Call(order, Replayed(SAMPLE_FILL), 0));
    hide RowFor;
    assert |Run(events).db.trades| == 1;
  }
}
