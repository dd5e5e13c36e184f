/** The execution consumer as a step machine: services/executor/app/consumer.py and
    idempotency.py.  One activation handles one delivered message; every await is a
    step boundary where the process may be killed, and an unacknowledged message may
    be delivered again.  Redis is fault-free and recorded results do not expire. */
module Executor {
  import opened Options
  import opened Decimals
  import opened Idempotency
  import opened Ledger
  import opened OrderIds
  import Text

  // ---- Messages and their order plan ----------------------------------------

  /** The fields an order plan is built from; an absent one is the empty text. */
  datatype Payload = Payload(strategyType: string, venue: string, primary: string, secondary: string,
                             tvAction: string, direction: string)

  datatype Leg = Leg(venue: string, symbol: string, side: string)

  const SINGLE_LEG := {"swing", "breakout", "momentum", "mean_reversion_scalp"}

  const BUY_TOKENS := {"buy", "long"}
  const SELL_TOKENS := {"sell", "short"}

  /** The side a direction token stands for. */
  function SideOfToken(raw: string): Option<string> {
    var token := Text.Lower(Text.Strip(raw, Text.IsSpace));
    if token in BUY_TOKENS then Some("buy")
    else if token in SELL_TOKENS then Some("sell")
    else None
  }

  /** Between white space, the text from i to j spells one of the words in any letter case. */
  ghost predicate Spells(raw: string, i: nat, j: nat, words: set<string>) {
    i <= j <= |raw| && Text.IsMiddle(raw[i..j], raw, i, j, Text.IsSpace) && Text.Lower(raw[i..j]) in words
  }

  /** A token means buy exactly when it spells buy or long, and sell exactly when it spells sell
      or short, whatever the letter case and the white space around it. */
  lemma TokenMeaning(raw: string)
    ensures SideOfToken(raw) == Some("buy") <==> exists i, j :: Spells(raw, i, j, {"buy", "long"})
    ensures SideOfToken(raw) == Some("sell") <==> exists i, j :: Spells(raw, i, j, {"sell", "short"})
    ensures SideOfToken(raw).Some? ==> IsSide(SideOfToken(raw).value)
  {
    hide Text.Strip, Text.IsMiddle, Text.IsSpace;
    var i, j := Text.StripKeepsMiddle(raw, Text.IsSpace);
    assert Text.Strip(raw, Text.IsSpace) == raw[i..j] by { Text.MiddleMeaning(Text.Strip(raw, Text.IsSpace), raw, i, j, Text.IsSpace); }
    var word := Text.Lower(raw[i..j]);
    assert word in BUY_TOKENS ==> Spells(raw, i, j, BUY_TOKENS);
    assert word in SELL_TOKENS ==> Spells(raw, i, j, SELL_TOKENS);
    forall k: nat, l: nat | Spells(raw, k, l, BUY_TOKENS) || Spells(raw, k, l, SELL_TOKENS)
      ensures Text.Strip(raw, Text.IsSpace) == raw[k..l]
    {
      SpelledIsVisible(raw[k..l]);
      Text.MiddleIsStripped(raw[k..l], raw, k, l, Text.IsSpace);
    }
  }

  lemma SpelledIsVisible(word: string)
    requires Text.Lower(word) in BUY_TOKENS || Text.Lower(word) in SELL_TOKENS
    ensures word != "" && !Text.IsSpace(word[0]) && !Text.IsSpace(word[|word| - 1])
  {
    var low := Text.Lower(word);
    assert 'a' <= low[0] <= 'z' && 'a' <= low[|low| - 1] <= 'z';
  }

  /** tv_action takes precedence over direction. */
  function ResolveSide(p: Payload): (side: Option<string>)
    ensures side.Some? ==> IsSide(side.value)
  {
    if SideOfToken(p.tvAction).Some? then SideOfToken(p.tvAction) else SideOfToken(p.direction)
  }

  /** The ordered legs of an opportunity; none when the plan cannot be built. */
  function OrderPlan(p: Payload): (legs: seq<Leg>)
    ensures |legs| <= 2
    ensures forall i :: 0 <= i < |legs| ==> IsSide(legs[i].side) && legs[i].symbol != ""
    ensures |legs| == 2 ==> legs[0].side != legs[1].side
  {
    if p.strategyType in SINGLE_LEG then
      var side := ResolveSide(p);
      if side.None? || p.primary == "" then [] else [Leg(p.venue, p.primary, side.value)]
    else if p.primary == "" || p.secondary == "" then []
    else if p.strategyType == "funding_arb" then
      [Leg(p.venue, p.primary, "buy"), Leg(p.venue, p.secondary, "sell")]
    else if p.strategyType == "stat_arb" then
      [Leg(p.venue, p.primary, "sell"), Leg(p.venue, p.secondary, "buy")]
    else []
  }

  /** Every leg trades on the payload's venue.  A directional strategy trades its primary symbol on
      the side its tokens mean, tv_action before direction; a spread trades both symbols, the
      primary one first: funding_arb buys it, stat_arb sells it.  Nothing else has a plan. */
  lemma PlanMeaning(p: Payload)
    ensures var legs := OrderPlan(p);
            && (forall i :: 0 <= i < |legs| ==> legs[i].venue == p.venue)
            && (p.strategyType in {"swing", "breakout", "momentum", "mean_reversion_scalp"} ==>
                  && (legs != [] <==> p.primary != "" && (SideOfToken(p.tvAction).Some? || SideOfToken(p.direction).Some?))
                  && (legs != [] ==>
                        |legs| == 1 && legs[0].symbol == p.primary
                        && Some(legs[0].side) == if SideOfToken(p.tvAction).Some? then SideOfToken(p.tvAction) else SideOfToken(p.direction)))
            && (p.strategyType in {"funding_arb", "stat_arb"} ==>
                  && (legs != [] <==> p.primary != "" && p.secondary != "")
                  && (legs != [] ==>
                        && |legs| == 2 && legs[0].symbol == p.primary && legs[1].symbol == p.secondary
                        && (legs[0].side == "buy" <==> p.strategyType == "funding_arb")
                        && (legs[1].side == "buy" <==> p.strategyType == "stat_arb")))
            && (p.strategyType !in {"swing", "breakout", "momentum", "mean_reversion_scalp", "funding_arb", "stat_arb"} ==> legs == [])
  {
    hide SideOfToken;
  }

  datatype Message = Message(id: nat, opportunity: string, payload: Payload)

  // ---- State -----------------------------------------------------------------

  /** What became of each leg so far: the id it was settled under, or no tick. */
  type Settled = seq<Option<OrderId>>

  datatype Activation =
    | Idle
    | Started(m: Message, paper: bool)
    | Sizing(m: Message, paper: bool, done: Settled)
    | Recovering(m: Message, paper: bool, done: Settled, order: Order)
    | Submitting(m: Message, paper: bool, done: Settled, order: Order)
    | Calling(m: Message, paper: bool, done: Settled, order: Order)
    | Recording(m: Message, paper: bool, done: Settled, order: Order, result: OrderResult, called: bool)
    | Persisting(m: Message, paper: bool, done: Settled, order: Order, result: OrderResult)
    | Finished(m: Message, done: Settled, executed: bool)

  datatype Ack = Ack(m: Message, done: Settled, executed: bool)

  datatype State = State(activation: Activation, halt: bool, recorded: map<OrderId, Blob>, db: Db,
                         calls: map<OrderId, nat>, kills: map<OrderId, nat>, acks: seq<Ack>, nonce: nat)

  const INITIAL := State(Idle, false, map[], Db([], map[]), map[], map[], [], 0)

  function Count(m: map<OrderId, nat>, id: OrderId): nat {
    if id in m then m[id] else 0
  }

  predicate Acked(s: State, m: Message) {
    exists i :: 0 <= i < |s.acks| && s.acks[i].m.id == m.id
  }

  // ---- Steps -------------------------------------------------------------------

  datatype Event =
    | SetHalt(value: bool)
    | Deliver(message: Message, mode: bool)
    | ReadHalt
    | SizeLeg(quantity: Option<real>, dbOk: bool, now: int)
    | Recover
    | Submit(venueKnown: bool)
    | Return(outcome: Option<OrderResult>)
    | Record
    | Persist(ok: bool, at: int)
    | Acknowledge
    | Kill

  /** What the consumer substitutes when no adapter result exists. */
  function FailedResult(id: OrderId, status: string, venue: string, reason: string): OrderResult {
    OrderResult(id, None, status, 0.0, Some(0.0), 0.0, Some(if venue == "oanda" then "USD" else "USDT"), 0.0,
                Some(reason), Object(map[]))
  }

  const NO_TICK := "no_tick_data_for_position_sizing"
  const ADAPTER_ERROR := "adapter error"

  function LegOrder(m: Message, paper: bool, leg: Leg, id: OrderId, quantity: real): Order {
    Order(id, leg.venue, leg.symbol, leg.side, quantity, m.payload.strategyType, paper)
  }

  function NextLeg(m: Message, paper: bool, done: Settled): Activation {
    if |done| < |OrderPlan(m.payload)| then Sizing(m, paper, done) else Finished(m, done, true)
  }

  /** The kill-switch check and the order plan. */
  function AfterHaltCheck(s: State, m: Message, paper: bool): State {
    if s.halt || OrderPlan(m.payload) == [] then s.(activation := Finished(m, [], false))
    else s.(activation := Sizing(m, paper, []))
  }

  function AfterSizing(s: State, m: Message, paper: bool, done: Settled, quantity: Option<real>, dbOk: bool, now: int): State
    requires |done| < |OrderPlan(m.payload)|
  {
    var leg := OrderPlan(m.payload)[|done|];
    if quantity.None? || quantity.value <= 0.0 then
      var id := Random(s.nonce);
      s.(activation := NextLeg(m, paper, done + [None]), nonce := s.nonce + 1,
         db := if dbOk then Persisted(s.db, LegOrder(m, paper, leg, id, 0.0), FailedResult(id, "rejected", leg.venue, NO_TICK), now) else s.db)
    else
      var id := MakeOrderId(m.opportunity, |done|, leg.side, leg.symbol, s.nonce);
      s.(activation := Recovering(m, paper, done, LegOrder(m, paper, leg, id, quantity.value)), nonce := s.nonce + 1)
  }

  predicate Enabled(s: State, e: Event) {
    match e
    case SetHalt(_) => true
    case Deliver(m, _) => s.activation.Idle? && !Acked(s, m)
    case ReadHalt => s.activation.Started?
    case SizeLeg(_, _, _) => s.activation.Sizing? && |s.activation.done| < |OrderPlan(s.activation.m.payload)|
    case Recover => s.activation.Recovering?
    case Submit(_) => s.activation.Submitting?
    case Return(outcome) =>
      s.activation.Calling? && (outcome.Some? ==> outcome.value.clientOrderId == s.activation.order.clientOrderId)
    case Record => s.activation.Recording?
    case Persist(_, _) => s.activation.Persisting?
    case Acknowledge => s.activation.Finished?
    case Kill => true
  }

  function Step(s: State, e: Event): State
    requires Enabled(s, e)
  {
    var a := s.activation;
    match e
    case SetHalt(value) => s.(halt := value)
    case Deliver(m, mode) => s.(activation := Started(m, mode))
    case ReadHalt => AfterHaltCheck(s, a.m, a.paper)
    case SizeLeg(quantity, dbOk, now) => AfterSizing(s, a.m, a.paper, a.done, quantity, dbOk, now)
    case Recover =>
      var prior := Recovered(s.recorded, a.order.clientOrderId);
      if prior.Some? then s.(activation := Persisting(a.m, a.paper, a.done, a.order, prior.value))
      else s.(activation := Submitting(a.m, a.paper, a.done, a.order))
    case Submit(venueKnown) =>
      var id := a.order.clientOrderId;
      if venueKnown then
        s.(activation := Calling(a.m, a.paper, a.done, a.order), calls := s.calls[id := Count(s.calls, id) + 1])
      else s.(activation := Recording(a.m, a.paper, a.done, a.order, FailedResult(id, "error", a.order.venue, ADAPTER_ERROR), false))
    case Return(outcome) =>
      var result := if outcome.Some? then outcome.value else FailedResult(a.order.clientOrderId, "error", a.order.venue, ADAPTER_ERROR);
      s.(activation := Recording(a.m, a.paper, a.done, a.order, result, true))
    case Record =>
      s.(activation := Persisting(a.m, a.paper, a.done, a.order, a.result),
         recorded := Recorded(s.recorded, a.order.clientOrderId, a.result))
    case Persist(ok, at) =>
      if ok then
        s.(activation := NextLeg(a.m, a.paper, a.done + [Some(a.order.clientOrderId)]),
           db := Persisted(s.db, a.order, a.result, at))
      else s.(activation := Idle)
    case Acknowledge => s.(activation := Idle, acks := s.acks + [Ack(a.m, a.done, a.executed)])
    case Kill => s.(activation := Idle, kills := if InCall(a) then Bump(s.kills, a.order.clientOrderId) else s.kills)
  }

  function Bump(m: map<OrderId, nat>, id: OrderId): map<OrderId, nat> {
    m[id := Count(m, id) + 1]
  }

  /** The adapter has been called and its result is not yet recorded. */
  predicate InCall(a: Activation) {
    a.Calling? || (a.Recording? && a.called)
  }

  /** A run: events that are not enabled do nothing. */
  function Run(events: seq<Event>): State {
    if events == [] then INITIAL
    else
      var s, e := Run(events[..|events| - 1]), events[|events| - 1];
      if Enabled(s, e) then Step(s, e) else s
  }

  /** The switch as it was set last. */
  function LastHalt(events: seq<Event>): bool {
    if events == [] then false
    else
      match events[|events| - 1]
      case SetHalt(value) => value
      case _ => LastHalt(events[..|events| - 1])
  }

  lemma StepKeepsHalt(s: State, e: Event)
    requires Enabled(s, e)
    ensures Step(s, e).halt == if e.SetHalt? then e.value else s.halt
  {
    hide Persisted, OrderPlan, MakeOrderId, FailedResult, LegOrder, Acked, Recovered, Recorded, NextLeg;
    match e
    case SetHalt(_) =>
    case SizeLeg(_, _, _) =>
    case Deliver(_, _) =>
    case ReadHalt =>
    case Recover =>
    case Submit(_) =>
    case Return(_) =>
    case Record =>
    case Persist(_, _) =>
    case Acknowledge =>
    case Kill =>
  }

  /** Nothing the executor does moves the kill switch. */
  lemma {:induction false} SwitchIsLastSet(events: seq<Event>)
    ensures Run(events).halt == LastHalt(events)
  {
    if events != [] {
      hide Step;
      var init, e := events[..|events| - 1], events[|events| - 1];
      SwitchIsLastSet(init);
      if Enabled(Run(init), e) { StepKeepsHalt(Run(init), e); }
    }
  }

  // ---- Submissions ---------------------------------------------------------------

  function InCallOf(a: Activation, id: OrderId): nat {
    if InCall(a) && a.order.clientOrderId == id then 1 else 0
  }

  function RecordedOf(s: State, id: OrderId): nat {
    if Recovered(s.recorded, id).Some? then 1 else 0
  }

  ghost predicate IdAccounted(s: State, id: OrderId) {
    Count(s.calls, id) <= Count(s.kills, id) + RecordedOf(s, id) + InCallOf(s.activation, id)
  }

  /** No result is recorded yet under the id being submitted. */
  ghost predicate SubmittingUnrecorded(s: State) {
    s.activation.Submitting? || s.activation.Calling? || s.activation.Recording? ==>
      Recovered(s.recorded, s.activation.order.clientOrderId).None?
  }

  /** Every call is recorded, still running, or was killed. */
  ghost predicate CallsAccounted(s: State) {
    (forall id :: IdAccounted(s, id)) && SubmittingUnrecorded(s)
  }

  /** Steps outside a submission move neither the counters nor the recorded results. */
  lemma QuietStep(s: State, e: Event)
    requires SubmittingUnrecorded(s) && Enabled(s, e)
    requires !e.Submit? && !e.Return? && !e.Record? && !e.Kill?
    ensures var t := Step(s, e);
            && t.calls == s.calls && t.kills == s.kills && t.recorded == s.recorded
            && (InCall(s.activation) ==> t.activation == s.activation) && (InCall(t.activation) ==> t.activation == s.activation)
            && SubmittingUnrecorded(t)
  {
    hide Persisted, OrderPlan, MakeOrderId, FailedResult, LegOrder, Acked, Recovered, Recorded, NextLeg;
    match e
    case SizeLeg(quantity, dbOk, now) =>
      hide Step;
      SizeStep(s, quantity, dbOk, now);
    case Persist(ok, at) =>
      hide Step;
      PersistStep(s, ok, at);
    case ReadHalt =>
      hide Step;
      HaltCheckStep(s);
    case SetHalt(_) =>
    case Deliver(_, _) =>
    case Recover =>
    case Acknowledge =>
  }

  lemma SizeStep(s: State, quantity: Option<real>, dbOk: bool, now: int)
    requires Enabled(s, SizeLeg(quantity, dbOk, now))
    ensures var t := Step(s, SizeLeg(quantity, dbOk, now));
            && t.calls == s.calls && t.kills == s.kills && t.recorded == s.recorded
            && (t.activation.Sizing? || t.activation.Finished? || t.activation.Recovering?)
  {
    hide Persisted, OrderPlan, MakeOrderId, FailedResult, LegOrder;
  }

  lemma HaltCheckStep(s: State)
    requires Enabled(s, ReadHalt)
    ensures var t := Step(s, ReadHalt);
            t == s.(activation := t.activation) && (t.activation.Finished? || t.activation.Sizing?)
  {
    hide OrderPlan;
  }

  lemma PersistStep(s: State, ok: bool, at: int)
    requires Enabled(s, Persist(ok, at))
    ensures var t := Step(s, Persist(ok, at));
            && t == s.(activation := t.activation, db := t.db)
            && (t.activation.Idle? || t.activation.Finished? || t.activation.Sizing?)
  {
    hide OrderPlan, Persisted;
  }

  /** Recording makes the result recoverable under its id and touches no other. */
  lemma RecordMeaning(s: State)
    requires Enabled(s, Record)
    ensures var a, t := s.activation, Step(s, Record);
            && t == s.(activation := Persisting(a.m, a.paper, a.done, a.order, a.result), recorded := t.recorded)
            && Recovered(t.recorded, a.order.clientOrderId) == Some(Replayed(a.result))
            && forall id :: id != a.order.clientOrderId ==> Recovered(t.recorded, id) == Recovered(s.recorded, id)
  {
    hide Recovered, Recorded;
    RecoveredAfterRecord(s.recorded, s.activation.order.clientOrderId, s.activation.result);
  }

  lemma SubmissionStep(s: State, e: Event, id: OrderId)
    requires IdAccounted(s, id) && SubmittingUnrecorded(s) && Enabled(s, e)
    requires e.Submit? || e.Return? || e.Record? || e.Kill?
    ensures IdAccounted(Step(s, e), id) && SubmittingUnrecorded(Step(s, e))
  {
    hide Persisted, OrderPlan, MakeOrderId, FailedResult, Recovered, Recorded, Replayed;
    match e
    case Record =>
      hide Step;
      RecordMeaning(s);
    case Submit(_) =>
    case Return(_) =>
    case Kill =>
  }

  lemma StepKeepsCallsAccounted(s: State, e: Event)
    requires CallsAccounted(s) && Enabled(s, e)
    ensures CallsAccounted(Step(s, e))
  {
    hide Step, Enabled, SubmittingUnrecorded;
    if e.Submit? || e.Return? || e.Record? || e.Kill? {
      hide IdAccounted;
      forall id ensures IdAccounted(Step(s, e), id) {
        assert IdAccounted(s, id);
        SubmissionStep(s, e, id);
      }
      SubmissionStep(s, e, Random(0)) by { assert IdAccounted(s, Random(0)); }
    } else {
      QuietStep(s, e);
      forall id ensures IdAccounted(Step(s, e), id) {
        assert IdAccounted(s, id);
      }
    }
  }

  lemma {:induction false} RunCallsAccounted(events: seq<Event>)
    ensures CallsAccounted(Run(events))
  {
    hide CallsAccounted, Step, Enabled;
    if events == [] {
      assert CallsAccounted(INITIAL) by { InitialAccounted(); }
    } else {
      RunCallsAccounted(events[..|events| - 1]);
      var s, e := Run(events[..|events| - 1]), events[|events| - 1];
      if Enabled(s, e) { StepKeepsCallsAccounted(s, e); }
    }
  }

  lemma InitialAccounted()
    ensures CallsAccounted(INITIAL)
  {
  }

  /** The adapter runs for one id at most once more than it was killed before its
      result was recorded. */
  lemma SubmissionBound(events: seq<Event>, id: OrderId)
    ensures Count(Run(events).calls, id) <= 1 + Count(Run(events).kills, id)
  {
    hide Run;
    RunCallsAccounted(events);
    assert IdAccounted(Run(events), id);
  }

  ghost predicate KillsAccounted(s: State, id: OrderId) {
    Count(s.kills, id) + InCallOf(s.activation, id) <= Count(s.calls, id)
  }

  lemma SubmissionKeepsKills(s: State, e: Event, id: OrderId)
    requires KillsAccounted(s, id) && Enabled(s, e) && (e.Submit? || e.Return? || e.Record? || e.Kill?)
    ensures KillsAccounted(Step(s, e), id)
  {
    hide FailedResult, Recorded, Recovered;
  }

  /** Other steps count nothing and start no call. */
  lemma QuietCounts(s: State, e: Event)
    requires Enabled(s, e) && !e.Submit? && !e.Return? && !e.Record? && !e.Kill?
    ensures var t := Step(s, e);
            t.calls == s.calls && t.kills == s.kills && (InCall(t.activation) ==> t.activation == s.activation)
  {
    hide Persisted, OrderPlan, MakeOrderId, FailedResult, LegOrder, Acked, Recovered, Recorded, NextLeg, AfterHaltCheck, AfterSizing;
    match e
    case SizeLeg(quantity, dbOk, now) =>
      hide Step;
      SizeStep(s, quantity, dbOk, now);
    case ReadHalt =>
      hide Step;
      HaltCheckStep(s);
    case Persist(ok, at) =>
      hide Step;
      PersistStep(s, ok, at);
    case Recover =>
    case SetHalt(_) =>
    case Deliver(_, _) =>
    case Acknowledge =>
  }

  lemma StepKeepsKills(s: State, e: Event, id: OrderId)
    requires KillsAccounted(s, id) && Enabled(s, e)
    ensures KillsAccounted(Step(s, e), id)
  {
    hide Step, Enabled;
    if e.Submit? || e.Return? || e.Record? || e.Kill? {
      SubmissionKeepsKills(s, e, id);
    } else {
      QuietCounts(s, e);
    }
  }

  /** Only a call can be killed before its result is recorded: the bound counts no other kill. */
  lemma {:induction false} KillsAreCalls(events: seq<Event>, id: OrderId)
    ensures KillsAccounted(Run(events), id)
  {
    hide Step, Enabled;
    if events != [] {
      var init, e := events[..|events| - 1], events[|events| - 1];
      KillsAreCalls(init, id);
      hide KillsAccounted;
      if Enabled(Run(init), e) { StepKeepsKills(Run(init), e, id); }
    }
  }

  /** With no kill between a call and its record, no id is ever submitted twice. */
  lemma NoKillNoResubmission(events: seq<Event>, id: OrderId)
    requires Count(Run(events).kills, id) == 0
    ensures Count(Run(events).calls, id) <= 1
  {
    hide Run;
    SubmissionBound(events, id);
  }

  // ---- Recorded results and trade rows ---------------------------------------------

  /** The row stores this result's fill. */
  predicate RowMatches(row: TradeRow, result: OrderResult) {
    && row.status == result.status && row.filledQty == result.filledQty && row.fee == result.fee
    && row.feeCurrency == result.feeCurrency
    && row.averageFillPrice == (if result.averageFillPrice == Some(0.0) then None else result.averageFillPrice)
  }

  /** Every trade row of a keyed id stores the result recorded under that id. */
  ghost predicate RowsAreRecorded(s: State) {
    forall i :: 0 <= i < |s.db.trades| ==> RowIsRecorded(s, s.db.trades[i])
  }

  ghost predicate RowIsRecorded(s: State, row: TradeRow) {
    row.clientOrderId.Keyed? ==>
      var result := Recovered(s.recorded, row.clientOrderId);
      result.Some? && RowMatches(row, result.value)
  }

  /** A result carries its order's id, and is on record by the time it is persisted. */
  ghost predicate ResultsAgree(s: State) {
    var a := s.activation;
    && (forall id :: Recovered(s.recorded, id).Some? ==> Recovered(s.recorded, id).value.clientOrderId == id)
    && (a.Recording? || a.Persisting? ==> a.result.clientOrderId == a.order.clientOrderId)
    && (a.Persisting? ==>
          Recovered(s.recorded, a.order.clientOrderId) == Some(Replayed(a.result)))
  }

  /** Whatever a submission comes back with is filed under the order's id. */
  lemma SubmitCarriesId(s: State, e: Event)
    requires Enabled(s, e) && (e.Submit? || e.Return?)
    ensures var t := Step(s, e);
            && t.recorded == s.recorded && (t.activation.Calling? || t.activation.Recording?)
            && (t.activation.Recording? ==> t.activation.result.clientOrderId == t.activation.order.clientOrderId)
  {
  }

  lemma StepKeepsResults(s: State, e: Event)
    requires SubmittingUnrecorded(s) && ResultsAgree(s) && Enabled(s, e)
    ensures ResultsAgree(Step(s, e))
  {
    hide Persisted, OrderPlan, MakeOrderId, Acked, Recovered, Recorded, NextLeg, AfterHaltCheck, AfterSizing, FailedResult;
    match e
    case SizeLeg(quantity, dbOk, now) =>
      hide Step;
      SizeStep(s, quantity, dbOk, now);
    case Record =>
      hide Step;
      RecordMeaning(s);
    case Submit(_) =>
      SubmitCarriesId(s, e);
      hide Step;
    case Return(_) =>
      SubmitCarriesId(s, e);
      hide Step;
    case Kill =>
    case SetHalt(_) =>
    case Deliver(_, _) =>
    case ReadHalt =>
      hide Step;
      HaltCheckStep(s);
    case Recover =>
    case Persist(ok, at) =>
      hide Step;
      PersistStep(s, ok, at);
    case Acknowledge =>
  }

  /** The table changes only by committing a result under its own id. */
  ghost predicate CommitsOne(s: State, t: State, order: Order, result: OrderResult, now: int) {
    t.db == Persisted(s.db, order, result, now)
  }

  /** What a step may do to the tables and the recorded results. */
  ghost predicate TablesStep(s: State, t: State) {
    || (t.db == s.db && t.recorded == s.recorded)
    || (t.db == s.db && s.activation.Recording?
        && t.recorded == Recorded(s.recorded, s.activation.order.clientOrderId, s.activation.result))
    || (t.recorded == s.recorded
        && (exists order, result, now ::
              CommitsOne(s, t, order, result, now)
              && (result == FailedResult(Random(s.nonce), "rejected", order.venue, NO_TICK)
                  || (s.activation.Persisting? && result == s.activation.result))))
  }

  lemma StepMovesTables(s: State, e: Event)
    requires Enabled(s, e)
    ensures TablesStep(s, Step(s, e))
  {
    hide Persisted, OrderPlan, MakeOrderId, Acked, Recovered, Recorded, NextLeg, AfterHaltCheck, AfterSizing, FailedResult;
    var t := Step(s, e);
    match e
    case SizeLeg(quantity, dbOk, now) =>
      hide Step;
      SizeTables(s, quantity, dbOk, now);
    case Persist(ok, at) =>
      if ok {
        assert CommitsOne(s, t, s.activation.order, s.activation.result, at);
      }
    case Submit(_) =>
    case Return(_) =>
    case Record =>
    case Kill =>
    case SetHalt(_) =>
    case Deliver(_, _) =>
    case ReadHalt =>
      hide Step;
      HaltCheckStep(s);
    case Recover =>
    case Acknowledge =>
  }

  lemma SizeTables(s: State, quantity: Option<real>, dbOk: bool, now: int)
    requires Enabled(s, SizeLeg(quantity, dbOk, now))
    ensures TablesStep(s, Step(s, SizeLeg(quantity, dbOk, now)))
  {
    hide Persisted, OrderPlan, MakeOrderId, NextLeg;
    var a, t := s.activation, Step(s, SizeLeg(quantity, dbOk, now));
    var leg, id := OrderPlan(a.m.payload)[|a.done|], Random(s.nonce);
    if dbOk && (quantity.None? || quantity.value <= 0.0) {
      assert CommitsOne(s, t, LegOrder(a.m, a.paper, leg, id, 0.0), FailedResult(id, "rejected", leg.venue, NO_TICK), now);
    }
  }

  lemma CommitKeepsRows(s: State, t: State, order: Order, result: OrderResult, now: int)
    requires RowsAreRecorded(s) && CommitsOne(s, t, order, result, now) && t.recorded == s.recorded
    requires result.clientOrderId.Keyed? ==>
               Recovered(s.recorded, result.clientOrderId) == Some(Replayed(result))
    ensures RowsAreRecorded(t)
  {
    hide RowFor, PositionFor;
    if !HasTrade(s.db.trades, result.clientOrderId) {
      PersistAppends(s.db, order, result, now);
      RowStoresResult(s.db, order, result, now);
      forall i | 0 <= i < |t.db.trades| ensures RowIsRecorded(t, t.db.trades[i]) {
        if i < |s.db.trades| { assert RowIsRecorded(s, s.db.trades[i]); }
      }
    }
  }

  lemma RowStoresResult(db: Db, order: Order, result: OrderResult, now: int)
    ensures RowMatches(RowFor(db, order, result, now), result)
  {
  }

  lemma StepKeepsRows(s: State, e: Event)
    requires SubmittingUnrecorded(s) && ResultsAgree(s) && RowsAreRecorded(s) && Enabled(s, e)
    ensures RowsAreRecorded(Step(s, e))
  {
    hide Step, Enabled, Persisted, CommitsOne;
    StepMovesTables(s, e);
    var t := Step(s, e);
    if t.recorded != s.recorded {
      forall i | 0 <= i < |t.db.trades| ensures RowIsRecorded(t, t.db.trades[i]) {
        assert RowIsRecorded(s, s.db.trades[i]);
      }
    } else if t.db != s.db {
      var order, result, now :| CommitsOne(s, t, order, result, now)
        && (result == FailedResult(Random(s.nonce), "rejected", order.venue, NO_TICK)
            || (s.activation.Persisting? && result == s.activation.result));
      CommitKeepsRows(s, t, order, result, now);
    } else {
      forall i | 0 <= i < |t.db.trades| ensures RowIsRecorded(t, t.db.trades[i]) {
        assert RowIsRecorded(s, s.db.trades[i]);
      }
    }
  }

  lemma StepKeepsLedger(s: State, e: Event)
    requires Refines(s.db) && Enabled(s, e)
    ensures Refines(Step(s, e).db)
    ensures forall id :: HasTrade(s.db.trades, id) ==> HasTrade(Step(s, e).db.trades, id)
  {
    hide Step, Enabled, Persisted, CommitsOne, Refines;
    StepMovesTables(s, e);
    var t := Step(s, e);
    if t.db != s.db {
      var order, result, now :| CommitsOne(s, t, order, result, now);
      assert t.db == Persisted(s.db, order, result, now) by { CommitMeaning(s, t, order, result, now); }
      PersistRefines(s.db, order, result, now);
      PersistKeepsTrades(s.db, order, result, now);
    }
  }

  lemma CommitMeaning(s: State, t: State, order: Order, result: OrderResult, now: int)
    requires CommitsOne(s, t, order, result, now)
    ensures t.db == Persisted(s.db, order, result, now)
  {
  }

  lemma PersistKeepsTrades(db: Db, order: Order, result: OrderResult, now: int)
    ensures forall id :: HasTrade(db.trades, id) ==> HasTrade(Persisted(db, order, result, now).trades, id)
    ensures HasTrade(Persisted(db, order, result, now).trades, result.clientOrderId)
  {
    hide RowFor, PositionFor;
    if !HasTrade(db.trades, result.clientOrderId) {
      var row := RowFor(db, order, result, now);
      PersistAppends(db, order, result, now);
      forall id ensures HasTrade(db.trades + [row], id) <==> HasTrade(db.trades, id) || row.clientOrderId == id {
        HasTradeAppend(db.trades, row, id);
      }
    }
  }

  // ---- Acknowledged messages ---------------------------------------------------------

  /** The id of leg j of the message. */
  predicate IsLegId(m: Message, j: nat, id: OrderId) {
    j < |OrderPlan(m.payload)| &&
    var leg := OrderPlan(m.payload)[j];
    if m.opportunity == "" then id.Random? else id == Keyed(KeyText(m.opportunity, j, leg.side, leg.symbol))
  }

  /** Every leg settled so far under an id has its trade row. */
  ghost predicate LegsSettled(m: Message, done: Settled, trades: seq<TradeRow>) {
    && |done| <= |OrderPlan(m.payload)|
    && forall j :: 0 <= j < |done| && done[j].Some? ==> IsLegId(m, j, done[j].value) && HasTrade(trades, done[j].value)
  }

  ghost predicate ActivationSettled(s: State) {
    var a := s.activation;
    match a
    case Idle => true
    case Started(_, _) => true
    case Sizing(m, _, done) => LegsSettled(m, done, s.db.trades)
    case Finished(m, done, executed) =>
      LegsSettled(m, done, s.db.trades) && (if executed then |done| == |OrderPlan(m.payload)| else done == [])
    case _ => LegsSettled(a.m, a.done, s.db.trades) && IsLegId(a.m, |a.done|, a.order.clientOrderId)
  }

  ghost predicate AckSettled(ack: Ack, trades: seq<TradeRow>) {
    LegsSettled(ack.m, ack.done, trades) && (ack.executed ==> |ack.done| == |OrderPlan(ack.m.payload)|)
  }

  ghost predicate AcksSettled(s: State) {
    forall i :: 0 <= i < |s.acks| ==> AckSettled(s.acks[i], s.db.trades)
  }

  lemma SettledGrows(m: Message, done: Settled, trades: seq<TradeRow>, next: Option<OrderId>, trades': seq<TradeRow>)
    requires LegsSettled(m, done, trades) && |done| < |OrderPlan(m.payload)|
    requires next.Some? ==> IsLegId(m, |done|, next.value) && HasTrade(trades', next.value)
    requires forall id :: HasTrade(trades, id) ==> HasTrade(trades', id)
    ensures LegsSettled(m, done + [next], trades')
  {
  }

  lemma SizeSettles(s: State, quantity: Option<real>, dbOk: bool, now: int)
    requires ActivationSettled(s) && Enabled(s, SizeLeg(quantity, dbOk, now))
    ensures ActivationSettled(Step(s, SizeLeg(quantity, dbOk, now)))
    ensures Step(s, SizeLeg(quantity, dbOk, now)).acks == s.acks
  {
    hide Persisted, OrderPlan, HasTrade;
    var a, t := s.activation, Step(s, SizeLeg(quantity, dbOk, now));
    if quantity.None? || quantity.value <= 0.0 {
      hide IsLegId;
      var id := Random(s.nonce);
      var leg := OrderPlan(a.m.payload)[|a.done|];
      PersistKeepsTrades(s.db, LegOrder(a.m, a.paper, leg, id, 0.0), FailedResult(id, "rejected", leg.venue, NO_TICK), now);
      SettledGrows(a.m, a.done, s.db.trades, None, t.db.trades);
    }
  }

  lemma PersistSettles(s: State, ok: bool, at: int)
    requires ActivationSettled(s) && ResultsAgree(s) && Enabled(s, Persist(ok, at))
    ensures ActivationSettled(Step(s, Persist(ok, at))) && Step(s, Persist(ok, at)).acks == s.acks
  {
    hide Persisted, OrderPlan, HasTrade;
    var a, t := s.activation, Step(s, Persist(ok, at));
    if ok {
      assert IsLegId(a.m, |a.done|, a.order.clientOrderId) && |a.done| < |OrderPlan(a.m.payload)|;
      hide IsLegId;
      PersistKeepsTrades(s.db, a.order, a.result, at);
      SettledGrows(a.m, a.done, s.db.trades, Some(a.order.clientOrderId), t.db.trades);
    }
  }

  lemma HaltCheckSettles(s: State)
    requires Enabled(s, ReadHalt)
    ensures ActivationSettled(Step(s, ReadHalt)) && Step(s, ReadHalt).acks == s.acks
  {
    hide OrderPlan, IsLegId, HasTrade;
  }

  lemma StepKeepsSettled(s: State, e: Event)
    requires ActivationSettled(s) && ResultsAgree(s) && Enabled(s, e)
    ensures ActivationSettled(Step(s, e))
    ensures e.Acknowledge? ==> s.activation.Finished?
    ensures Step(s, e).acks == s.acks + (if e.Acknowledge? then [Ack(s.activation.m, s.activation.done, s.activation.executed)] else [])
  {
    hide Persisted, HasTrade, IsLegId, Acked, FailedResult, Recovered, Recorded, AfterSizing, AfterHaltCheck, MakeOrderId, OrderPlan,
         NextLeg;
    match e
    case SizeLeg(quantity, dbOk, now) =>
      hide Step;
      SizeSettles(s, quantity, dbOk, now);
    case Persist(ok, at) =>
      hide Step;
      PersistSettles(s, ok, at);
    case Submit(_) =>
    case Return(_) =>
    case Record =>
    case Kill =>
    case SetHalt(_) =>
    case Deliver(_, _) =>
    case ReadHalt =>
      hide Step;
      HaltCheckSettles(s);
    case Recover =>
    case Acknowledge =>
  }

  lemma StepKeepsAcks(s: State, e: Event)
    requires ActivationSettled(s) && ResultsAgree(s) && Refines(s.db) && AcksSettled(s) && Enabled(s, e)
    ensures AcksSettled(Step(s, e))
  {
    hide Step, Enabled, Refines, HasTrade, IsLegId, OrderPlan, ResultsAgree;
    StepKeepsSettled(s, e);
    StepKeepsLedger(s, e);
    var t := Step(s, e);
    forall i | 0 <= i < |t.acks| ensures AckSettled(t.acks[i], t.db.trades) {
      if i < |s.acks| {
        assert AckSettled(s.acks[i], s.db.trades);
      }
    }
  }

  // ---- Every reachable state ------------------------------------------------------------

  ghost predicate Invariant(s: State) {
    && CallsAccounted(s) && ResultsAgree(s) && RowsAreRecorded(s)
    && Refines(s.db) && ActivationSettled(s) && AcksSettled(s)
  }

  lemma StepKeepsInvariant(s: State, e: Event)
    requires Invariant(s) && Enabled(s, e)
    ensures Invariant(Step(s, e))
  {
    hide Step, Enabled, IdAccounted, SubmittingUnrecorded, ResultsAgree, RowsAreRecorded, Refines, ActivationSettled, AcksSettled;
    StepKeepsCallsAccounted(s, e);
    StepKeepsResults(s, e);
    StepKeepsRows(s, e);
    StepKeepsLedger(s, e);
    StepKeepsSettled(s, e);
    StepKeepsAcks(s, e);
  }

  lemma InitialInvariant()
    ensures Invariant(INITIAL)
  {
    EmptyRefines();
    InitialAccounted();
    hide Refines;
  }

  lemma {:induction false} RunKeepsInvariant(events: seq<Event>)
    ensures Invariant(Run(events))
  {
    hide Invariant, Step, Enabled;
    if events == [] {
      InitialInvariant();
    } else {
      RunKeepsInvariant(events[..|events| - 1]);
      var s, e := Run(events[..|events| - 1]), events[|events| - 1];
      if Enabled(s, e) { StepKeepsInvariant(s, e); }
    }
  }

  /** In every reachable state, crashes and redeliveries included: one trade row per id,
      each position the fold of its key's fills, each trade row the P&L of its own fill, each keyed
      row the result recorded first, and the columns of the two tables within the rounding drift. */
  lemma LedgerSurvivesReplays(events: seq<Event>)
    ensures var s := Run(events); Refines(s.db) && RowsAreRecorded(s) && forall key :: ColumnsAgree(s.db, key)
  {
    hide Run, Refines, RowsAreRecorded, ColumnsAgree;
    RunKeepsInvariant(events);
    forall key ensures ColumnsAgree(Run(events).db, key) {
      StoredColumnsAgree(Run(events).db, key);
    }
  }

  /** An acknowledged execution settled every leg: either it had no tick, or a row with
      the leg's id exists, holding the recorded result when the id is keyed. */
  lemma AcknowledgedLegsHaveRows(events: seq<Event>, i: nat, j: nat)
    requires i < |Run(events).acks|
    requires var ack := Run(events).acks[i]; ack.executed && j < |OrderPlan(ack.m.payload)|
    ensures var s := Run(events); var ack := s.acks[i];
            && j < |ack.done|
            && (ack.done[j].Some? ==>
                  var id := ack.done[j].value;
                  && IsLegId(ack.m, j, id)
                  && exists r :: 0 <= r < |s.db.trades| && s.db.trades[r].clientOrderId == id && RowIsRecorded(s, s.db.trades[r]))
  {
    hide Run, Refines, IsLegId, OrderPlan, CallsAccounted, ActivationSettled, ResultsAgree, RowIsRecorded;
    RunKeepsInvariant(events);
    var s := Run(events);
    assert AckSettled(s.acks[i], s.db.trades);
    if s.acks[i].done[j].Some? {
      var r :| 0 <= r < |s.db.trades| && s.db.trades[r].clientOrderId == s.acks[i].done[j].value;
      assert RowIsRecorded(s, s.db.trades[r]);
    }
  }

  // ---- Quantities on the 1e-8 grid ----------------------------------------------------

  ghost predicate OnGridResult(result: OrderResult) {
    IsFill(result) ==> OnGrid8(result.filledQty)
  }

  /** The adapters fill quantities with at most eight decimals. */
  ghost predicate GridEvent(e: Event) {
    e.Return? && e.outcome.Some? ==> OnGridResult(e.outcome.value)
  }

  ghost predicate GridState(s: State) {
    && (forall id :: Recovered(s.recorded, id).Some? ==> OnGridResult(Recovered(s.recorded, id).value))
    && (s.activation.Recording? || s.activation.Persisting? ==> OnGridResult(s.activation.result))
  }

  /** Whatever a submission comes back with is on the grid; a failure is no fill. */
  lemma SubmitOnGrid(s: State, e: Event)
    requires Enabled(s, e) && (e.Submit? || e.Return?) && GridEvent(e)
    ensures var t := Step(s, e);
            && t.recorded == s.recorded && (t.activation.Calling? || t.activation.Recording?)
            && (t.activation.Recording? ==> OnGridResult(t.activation.result))
  {
    hide OnGrid8;
  }

  lemma StepKeepsGrid(s: State, e: Event)
    requires GridState(s) && GridEvent(e) && SubmittingUnrecorded(s) && Enabled(s, e)
    ensures GridState(Step(s, e))
  {
    hide Persisted, OrderPlan, MakeOrderId, Acked, Recovered, Recorded, NextLeg, AfterHaltCheck, OnGrid8;
    match e
    case SizeLeg(quantity, dbOk, now) =>
      hide Step;
      SizeStep(s, quantity, dbOk, now);
    case Record =>
      hide Step;
      RecordMeaning(s);
    case Persist(ok, at) =>
      hide Step;
      PersistStep(s, ok, at);
    case ReadHalt =>
      hide Step;
      HaltCheckStep(s);
    case Submit(_) =>
      SubmitOnGrid(s, e);
      hide Step;
    case Return(_) =>
      SubmitOnGrid(s, e);
      hide Step;
    case Kill =>
    case SetHalt(_) =>
    case Deliver(_, _) =>
    case Recover =>
      hide Count, Bump;
    case Acknowledge =>
  }

  lemma StepFollowsLifecycle(s: State, e: Event)
    requires GridState(s) && Refines(s.db) && FollowsLifecycle(s.db) && Enabled(s, e)
    ensures FollowsLifecycle(Step(s, e).db)
  {
    hide Step, Enabled, Persisted, CommitsOne, Refines, FollowsLifecycle, OnGrid8;
    StepMovesTables(s, e);
    var t := Step(s, e);
    if t.db != s.db {
      var order, result, now :| CommitsOne(s, t, order, result, now)
        && (result == FailedResult(Random(s.nonce), "rejected", order.venue, NO_TICK)
            || (s.activation.Persisting? && result == s.activation.result));
      CommitMeaning(s, t, order, result, now);
      PersistFollowsLifecycle(s.db, order, result, now);
    }
  }

  /** Position status and open/close times follow the net quantity in every reachable state. */
  lemma {:induction false} RunsFollowLifecycle(events: seq<Event>)
    requires forall i :: 0 <= i < |events| ==> GridEvent(events[i])
    ensures FollowsLifecycle(Run(events).db) && GridState(Run(events))
  {
    hide Step, Enabled, GridState, GridEvent, FollowsLifecycle, Refines;
    if events == [] {
      EmptyRefines();
      assert GridState(INITIAL) by { InitialOnGrid(); }
    } else {
      var init := events[..|events| - 1];
      assert forall i :: 0 <= i < |init| ==> init[i] == events[i];
      RunsFollowLifecycle(init);
      LedgerSurvivesReplays(init);
      RunCallsAccounted(init);
      var s, e := Run(init), events[|events| - 1];
      if Enabled(s, e) {
        StepKeepsGrid(s, e);
        StepFollowsLifecycle(s, e);
      }
    }
  }

  lemma InitialOnGrid()
    ensures GridState(INITIAL)
  {
  }

  // ---- When a leg has its trade row -----------------------------------------------------

  /** Event i commits the result held under an id. */
  ghost predicate CommitsAt(events: seq<Event>, i: nat, id: OrderId) {
    && i < |events| && events[i].Persist? && events[i].ok
    && var s := Run(events[..i]);
    Enabled(s, events[i]) && s.activation.order.clientOrderId == id
  }

  ghost predicate Committed(events: seq<Event>, id: OrderId) {
    exists i: nat :: CommitsAt(events, i, id)
  }

  lemma CommittedStep(events: seq<Event>, id: OrderId)
    requires events != []
    ensures Committed(events, id) <==> Committed(events[..|events| - 1], id) || CommitsAt(events, |events| - 1, id)
  {
    hide Run, Enabled;
    var init := events[..|events| - 1];
    if i: nat :| CommitsAt(events, i, id) && i < |events| - 1 {
      assert events[..i] == init[..i];
      assert CommitsAt(init, i, id);
    }
    if i: nat :| CommitsAt(init, i, id) {
      assert events[..i] == init[..i];
      assert CommitsAt(events, i, id);
    }
  }

  lemma PersistedTrades(db: Db, order: Order, result: OrderResult, now: int, id: OrderId)
    ensures HasTrade(Persisted(db, order, result, now).trades, id) <==> HasTrade(db.trades, id) || id == result.clientOrderId
  {
    hide RowFor, PositionFor;
    if !HasTrade(db.trades, result.clientOrderId) {
      PersistAppends(db, order, result, now);
      HasTradeAppend(db.trades, RowFor(db, order, result, now), id);
    }
  }

  /** The only step that gives a keyed id its row is the commit of its own result. */
  lemma StepGivesRow(s: State, e: Event, id: OrderId)
    requires ResultsAgree(s) && Enabled(s, e) && id.Keyed?
    ensures HasTrade(Step(s, e).db.trades, id)
            <==> HasTrade(s.db.trades, id) || (e.Persist? && e.ok && s.activation.order.clientOrderId == id)
  {
    hide Persisted, OrderPlan, MakeOrderId, Acked, Recovered, Recorded, NextLeg, AfterHaltCheck, HasTrade, FailedResult;
    match e
    case SizeLeg(quantity, dbOk, now) =>
      hide Step;
      SizeGivesNoRow(s, quantity, dbOk, now, id);
    case Persist(ok, at) =>
      PersistedTrades(s.db, s.activation.order, s.activation.result, at, id);
    case ReadHalt =>
      hide Step;
      HaltCheckStep(s);
    case Record =>
    case Submit(_) =>
    case Return(_) =>
    case Kill =>
    case SetHalt(_) =>
    case Deliver(_, _) =>
    case Recover =>
    case Acknowledge =>
  }

  lemma SizeGivesNoRow(s: State, quantity: Option<real>, dbOk: bool, now: int, id: OrderId)
    requires Enabled(s, SizeLeg(quantity, dbOk, now)) && id.Keyed?
    ensures HasTrade(Step(s, SizeLeg(quantity, dbOk, now)).db.trades, id) <==> HasTrade(s.db.trades, id)
  {
    hide Persisted, OrderPlan, NextLeg, HasTrade, MakeOrderId;
    var a := s.activation;
    var leg, dummy := OrderPlan(a.m.payload)[|a.done|], Random(s.nonce);
    PersistedTrades(s.db, LegOrder(a.m, a.paper, leg, dummy, 0.0), FailedResult(dummy, "rejected", leg.venue, NO_TICK), now, id);
  }

  /** A keyed id has a trade row exactly when some activation committed its result. */
  lemma {:induction false} KeyedRowIffCommitted(events: seq<Event>, id: OrderId)
    requires id.Keyed?
    ensures HasTrade(Run(events).db.trades, id) <==> Committed(events, id)
  {
    hide Step, Enabled, HasTrade, Committed;
    if events == [] {
      NoRowsAtFirst(id);
    } else {
      var init, e := events[..|events| - 1], events[|events| - 1];
      KeyedRowIffCommitted(init, id);
      CommittedStep(events, id);
      RunKeepsInvariant(init);
      if Enabled(Run(init), e) { StepGivesRow(Run(init), e, id); }
    }
  }

  lemma NoRowsAtFirst(id: OrderId)
    ensures !HasTrade(Run([]).db.trades, id) && !Committed([], id)
  {
  }

  /** The events before the current activation's delivery. */
  function ActivationStart(events: seq<Event>): seq<Event> {
    if events == [] then []
    else
      var init, e := events[..|events| - 1], events[|events| - 1];
      if e.Deliver? && Enabled(Run(init), e) then init else ActivationStart(init)
  }

  function DoneOf(a: Activation): Settled {
    if a.Idle? || a.Started? then [] else a.done
  }

  ghost predicate SettledAs(done: Settled, id: OrderId) {
    exists j :: 0 <= j < |done| && done[j] == Some(id)
  }

  /** The rows are those from before the activation and those of the legs it settled. */
  ghost predicate RowsSince(trades: seq<TradeRow>, s: State, id: OrderId) {
    !s.activation.Idle? ==>
      (HasTrade(s.db.trades, id) <==> HasTrade(trades, id) || SettledAs(DoneOf(s.activation), id))
  }

  lemma SettledAsAppend(done: Settled, next: Option<OrderId>, id: OrderId)
    ensures SettledAs(done + [next], id) <==> SettledAs(done, id) || next == Some(id)
  {
    assert (done + [next])[|done|] == next;
    assert forall j :: 0 <= j < |done| ==> (done + [next])[j] == done[j];
  }

  /** How a step moves the settled legs of an activation that goes on. */
  lemma StepMovesDone(s: State, e: Event)
    requires Enabled(s, e) && !e.Deliver? && ActivationSettled(s)
    ensures var t := Step(s, e);
            !t.activation.Idle? ==>
              && !s.activation.Idle?
              && DoneOf(t.activation) == (match e
                                          case Persist(_, _) => DoneOf(s.activation) + [Some(s.activation.order.clientOrderId)]
                                          case SizeLeg(q, _, _) => DoneOf(s.activation) + if q.None? || q.value <= 0.0 then [None] else []
                                          case _ => DoneOf(s.activation))
  {
    hide Persisted, OrderPlan, MakeOrderId, Acked, Recovered, Recorded, HasTrade, FailedResult, LegsSettled, IsLegId;
    match e
    case SizeLeg(q, _, _) =>
      assert s.activation.done + [] == s.activation.done;
    case Persist(_, _) =>
    case ReadHalt =>
    case Record =>
    case Submit(_) =>
    case Return(_) =>
    case Kill =>
    case SetHalt(_) =>
    case Recover =>
    case Acknowledge =>
  }

  lemma StepKeepsRowsSince(trades: seq<TradeRow>, s: State, e: Event, id: OrderId)
    requires ResultsAgree(s) && ActivationSettled(s) && Enabled(s, e) && !e.Deliver? && id.Keyed?
    requires RowsSince(trades, s, id)
    ensures RowsSince(trades, Step(s, e), id)
  {
    hide Step, HasTrade, SettledAs, DoneOf, ResultsAgree, ActivationSettled;
    StepGivesRow(s, e, id);
    StepMovesDone(s, e);
    match e
    case Persist(ok, _) =>
      SettledAsAppend(DoneOf(s.activation), Some(s.activation.order.clientOrderId), id);
      if !ok { FailedPersistIdles(s, e); }
    case SizeLeg(q, _, _) =>
      SettledAsAppend(DoneOf(s.activation), None, id);
      assert DoneOf(s.activation) + [] == DoneOf(s.activation);
    case _ =>
  }

  lemma FailedPersistIdles(s: State, e: Event)
    requires Enabled(s, e) && e.Persist? && !e.ok
    ensures Step(s, e).activation.Idle?
  {
  }

  lemma DeliverStarts(s: State, e: Event, id: OrderId)
    requires Enabled(s, e) && e.Deliver?
    ensures RowsSince(s.db.trades, Step(s, e), id)
  {
    hide HasTrade, Acked;
  }

  lemma {:induction false} RunRowsSince(events: seq<Event>, id: OrderId)
    requires id.Keyed?
    ensures RowsSince(Run(ActivationStart(events)).db.trades, Run(events), id)
  {
    hide Step, Enabled, RowsSince, Invariant;
    if events == [] {
      assert Run([]).activation.Idle?;
      IdleIsFine(Run(ActivationStart([])).db.trades, Run([]), id);
    } else {
      var init, e := events[..|events| - 1], events[|events| - 1];
      RunRowsSince(init, id);
      RunKeepsInvariant(init);
      InvariantGives(Run(init));
      if Enabled(Run(init), e) {
        if e.Deliver? { DeliverStarts(Run(init), e, id); }
        else { StepKeepsRowsSince(Run(ActivationStart(init)).db.trades, Run(init), e, id); }
      }
    }
  }

  lemma IdleIsFine(trades: seq<TradeRow>, s: State, id: OrderId)
    requires s.activation.Idle?
    ensures RowsSince(trades, s, id)
  {
  }

  lemma InvariantGives(s: State)
    requires Invariant(s)
    ensures ResultsAgree(s) && ActivationSettled(s)
  {
    hide ResultsAgree, ActivationSettled;
  }

  /** The id of leg j of a message that names its opportunity. */
  function LegId(m: Message, j: nat): OrderId
    requires j < |OrderPlan(m.payload)|
  {
    Keyed(KeyText(m.opportunity, j, OrderPlan(m.payload)[j].side, OrderPlan(m.payload)[j].symbol))
  }

  lemma LegIdsDiffer(m: Message, j: nat, k: nat)
    requires j < |OrderPlan(m.payload)| && k < |OrderPlan(m.payload)| && LegId(m, j) == LegId(m, k)
    ensures j == k
  {
    hide LegText, OrderPlan, IsSide;
    var p, q := OrderPlan(m.payload)[j], OrderPlan(m.payload)[k];
    var x, y := LegText(j, p.side, p.symbol), LegText(k, q.side, q.symbol);
    assert Join(m.opportunity, x)[|m.opportunity| + 1..] == x;
    assert Join(m.opportunity, y)[|m.opportunity| + 1..] == y;
    LegTextInjective(j, p.side, p.symbol, k, q.side, q.symbol);
  }

  /** The kill switch as the current activation read it. */
  function HaltRead(events: seq<Event>): bool {
    if events == [] then false
    else
      var init, e := events[..|events| - 1], events[|events| - 1];
      if e.ReadHalt? && Enabled(Run(init), e) then Run(init).halt else HaltRead(init)
  }

  ghost predicate StoppedIff(a: Activation, halted: bool) {
    a.Idle? || a.Started? || ((a.Finished? && !a.executed) <==> halted || OrderPlan(a.m.payload) == [])
  }

  /** Settling a leg neither starts nor finishes an activation without executing it. */
  lemma LegGoesOn(s: State, e: Event)
    requires Enabled(s, e) && (e.SizeLeg? || e.Persist?)
    ensures var a := Step(s, e).activation;
            a.Idle? || (!a.Started? && a.m == s.activation.m && (a.Finished? ==> a.executed))
  {
    hide Persisted, OrderPlan, MakeOrderId, FailedResult, LegOrder;
  }

  lemma StepKeepsStopped(s: State, e: Event, halted: bool)
    requires Enabled(s, e) && StoppedIff(s.activation, halted)
    ensures StoppedIff(Step(s, e).activation, if e.ReadHalt? then s.halt else halted)
  {
    hide Persisted, OrderPlan, Acked, Recovered, Recorded, FailedResult, NextLeg, AfterSizing, Bump;
    match e
    case SizeLeg(_, _, _) =>
      LegGoesOn(s, e);
      hide Step;
    case Persist(_, _) =>
      LegGoesOn(s, e);
      hide Step;
    case ReadHalt =>
    case SetHalt(_) =>
    case Deliver(_, _) =>
    case Recover =>
    case Submit(_) =>
    case Return(_) =>
    case Record =>
    case Acknowledge =>
    case Kill =>
  }

  /** An activation executes unless it read the switch as set or has no order plan. */
  lemma {:induction false} RunStoppedIff(events: seq<Event>)
    ensures StoppedIff(Run(events).activation, HaltRead(events))
  {
    hide Step, Enabled, StoppedIff;
    if events == [] {
      IdleIsNotStopped();
    } else {
      var init, e := events[..|events| - 1], events[|events| - 1];
      RunStoppedIff(init);
      if Enabled(Run(init), e) { StepKeepsStopped(Run(init), e, HaltRead(init)); }
    }
  }

  lemma IdleIsNotStopped()
    ensures StoppedIff(Run([]).activation, false)
  {
  }

  /** When an activation finishes, a leg's row exists exactly when this activation was not halted
      and found a quantity for the leg, or an earlier activation had committed the leg's result. */
  lemma RowExistsIff(events: seq<Event>, j: nat)
    requires Run(events).activation.Finished? && Run(events).activation.m.opportunity != ""
    requires j < |OrderPlan(Run(events).activation.m.payload)|
    ensures var s := Run(events);
            var a, id := s.activation, LegId(s.activation.m, j);
            && a.executed == !HaltRead(events)
            && (a.executed ==> j < |a.done|)
            && (HasTrade(s.db.trades, id)
                <==> (!HaltRead(events) && a.done[j].Some?) || Committed(ActivationStart(events), id))
  {
    var s := Run(events);
    RunKeepsInvariant(events);
    InvariantGives(s);
    RunRowsSince(events, LegId(s.activation.m, j));
    KeyedRowIffCommitted(ActivationStart(events), LegId(s.activation.m, j));
    RunStoppedIff(events);
    hide Run, HasTrade, OrderPlan, LegId, Invariant, Committed, HaltRead;
    FinishedSettles(s, j);
  }

  lemma FinishedSettles(s: State, j: nat)
    requires ActivationSettled(s) && s.activation.Finished? && s.activation.m.opportunity != ""
    requires j < |OrderPlan(s.activation.m.payload)|
    ensures var a := s.activation;
            && (a.executed ==> j < |a.done|)
            && (SettledAs(DoneOf(a), LegId(a.m, j)) <==> a.executed && a.done[j].Some?)
  {
    hide OrderPlan, HasTrade, KeyText;
    var a := s.activation;
    if k :| 0 <= k < |a.done| && a.done[k] == Some(LegId(a.m, j)) {
      assert IsLegId(a.m, k, a.done[k].value);
      LegIdsDiffer(a.m, j, k);
    }
    if a.executed && a.done[j].Some? {
      assert IsLegId(a.m, j, a.done[j].value);
    }
  }

  // ---- What an acknowledgement does not promise -----------------------------------------

  lemma Extend(events: seq<Event>, e: Event)
    ensures Run(events + [e]) == if Enabled(Run(events), e) then Step(Run(events), e) else Run(events)
  {
    assert (events + [e])[..|events|] == events;
  }

  const SAMPLE := Message(1, "o", Payload("swing", "v", "S", "", "", "buy"))
  const SAMPLE_ID := Keyed(KeyText("o", 0, "buy", "S"))
  const SAMPLE_FILL := OrderResult(SAMPLE_ID, None, "filled", 1.0, Some(1.0), 0.0, Some("USDT"), 0.0, None, Null)

  /** Called once, recorded as a fill, its message acknowledged, yet no trade row. */
  ghost predicate FillDropped(s: State, m: Message, id: OrderId) {
    && IsLegId(m, 0, id) && Acked(s, m)
    && Count(s.calls, id) == 1 && Count(s.kills, id) == 0
    && Recovered(s.recorded, id).Some? && IsFill(Recovered(s.recorded, id).value)
    && !HasTrade(s.db.trades, id)
  }

  const SAMPLE_ORDER := Order(SAMPLE_ID, "v", "S", "buy", 1.0, "swing", true)

  lemma SamplePlan()
    ensures OrderPlan(SAMPLE.payload) == [Leg("v", "S", "buy")]
  {
    assert Text.Strip("", Text.IsSpace) == "" && Text.Strip("buy", Text.IsSpace) == "buy";
    assert Text.Lower("") == "" && Text.Lower("buy") == "buy";
  }

  ghost predicate DeliveredOnce(events: seq<Event>) {
    events != [] && events[0] == Deliver(SAMPLE, true) && forall d :: 0 < d < |events| ==> !events[d].Deliver?
  }

  lemma SampleReachesSubmission() returns (events: seq<Event>)
    ensures Run(events) == State(Submitting(SAMPLE, true, [], SAMPLE_ORDER), false, map[], Db([], map[]), map[], map[], [], 1)
    ensures DeliveredOnce(events)
  {
    SamplePlan();
    hide KeyText, Run, Persisted, OrderPlan;
    assert Run([]) == INITIAL by { EmptyRun(); }
    events := [];
    Extend(events, Deliver(SAMPLE, true));
    events := events + [Deliver(SAMPLE, true)];
    Extend(events, ReadHalt);
    events := events + [ReadHalt];
    Extend(events, SizeLeg(Some(1.0), true, 0));
    events := events + [SizeLeg(Some(1.0), true, 0)];
    Extend(events, Recover);
    events := events + [Recover];
  }

  /** Submitted and recorded, then killed before the trade was persisted. */
  lemma KilledBeforePersist() returns (events: seq<Event>)
    ensures Run(events) == State(Idle, false, Recorded(map[], SAMPLE_ID, SAMPLE_FILL), Db([], map[]), SAMPLE_CALLS, map[], [], 1)
    ensures DeliveredOnce(events)
  {
    hide KeyText, Run, Persisted, OrderPlan;
    events := SampleReachesSubmission();
    Extend(events, Submit(true));
    events := events + [Submit(true)];
    Extend(events, Return(Some(SAMPLE_FILL)));
    events := events + [Return(Some(SAMPLE_FILL))];
    Extend(events, Record);
    events := events + [Record];
    Extend(events, Kill);
    events := events + [Kill];
  }

  lemma EmptyRun()
    ensures Run([]) == INITIAL
  {
  }

  /** The redelivery met the halt, or found no quantity for the leg. */
  ghost predicate DroppedBy(s: State, m: Message, halted: bool) {
    exists i :: 0 <= i < |s.acks| && s.acks[i].m == m
                && if halted then s.halt && !s.acks[i].executed else s.acks[i].executed && s.acks[i].done == [None]
  }

  const SAMPLE_CALLS: map<OrderId, nat> := map[SAMPLE_ID := 1]

  lemma HaltedRedelivery() returns (events: seq<Event>)
    ensures Run(events) == State(Idle, true, Recorded(map[], SAMPLE_ID, SAMPLE_FILL), Db([], map[]), SAMPLE_CALLS, map[],
                                 [Ack(SAMPLE, [], false)], 1)
  {
    hide KeyText, Run, Persisted, OrderPlan, Recorded;
    events := KilledBeforePersist();
    Extend(events, SetHalt(true));
    events := events + [SetHalt(true)];
    Extend(events, Deliver(SAMPLE, true));
    events := events + [Deliver(SAMPLE, true)];
    Extend(events, ReadHalt);
    events := events + [ReadHalt];
    Extend(events, Acknowledge);
    events := events + [Acknowledge];
  }

  lemma TicklessLegSettles(s: State)
    requires s.activation == Sizing(SAMPLE, true, [])
    ensures Enabled(s, SizeLeg(None, false, 0))
    ensures Step(s, SizeLeg(None, false, 0)) == s.(activation := Finished(SAMPLE, [None], true), nonce := s.nonce + 1)
  {
    SamplePlan();
    hide OrderPlan, Persisted;
    var done: Settled := [];
    assert done + [None] == [None];
  }

  lemma TicklessRedelivery() returns (events: seq<Event>)
    ensures Run(events) == State(Idle, false, Recorded(map[], SAMPLE_ID, SAMPLE_FILL), Db([], map[]), SAMPLE_CALLS, map[],
                                 [Ack(SAMPLE, [None], true)], 2)
  {
    SamplePlan();
    hide KeyText, Run, Persisted, OrderPlan, Recorded;
    events := KilledBeforePersist();
    Extend(events, Deliver(SAMPLE, true));
    events := events + [Deliver(SAMPLE, true)];
    Extend(events, ReadHalt);
    events := events + [ReadHalt];
    Extend(events, SizeLeg(None, false, 0));
    TicklessLegSettles(Run(events));
    events := events + [SizeLeg(None, false, 0)];
    Extend(events, Acknowledge);
    events := events + [Acknowledge];
  }

  lemma SampleDropped(s: State)
    requires s.recorded == Recorded(map[], SAMPLE_ID, SAMPLE_FILL) && s.db == Db([], map[]) && s.calls == SAMPLE_CALLS
    requires s.kills == map[] && |s.acks| == 1 && s.acks[0].m == SAMPLE
    ensures FillDropped(s, SAMPLE, SAMPLE_ID)
  {
    SamplePlan();
    hide KeyText, Recorded, OrderPlan;
    RecoveredAfterRecord(map[], SAMPLE_ID, SAMPLE_FILL);
    assert s.acks[0].m.id == SAMPLE.id;
  }

  /** A redelivery that meets a halt, and one that finds no tick to size the leg, acknowledge the
      message without persisting the fill that was recorded. */
  lemma ReplayCanDropFill(halted: bool)
    ensures exists events :: FillDropped(Run(events), SAMPLE, SAMPLE_ID) && DroppedBy(Run(events), SAMPLE, halted)
  {
    var events;
    if halted { events := HaltedRedelivery(); } else { events := TicklessRedelivery(); }
    hide Run, FillDropped;
    var s := Run(events);
    SampleDropped(s);
    assert s.acks[0].m == SAMPLE;
  }
}
