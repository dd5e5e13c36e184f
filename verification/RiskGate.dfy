/** The pre-trade risk gate: services/risk/app/checker.py, state.py and consumer.py,
    interleaved with the journal reconciler, the operator, and the executor's own
    kill-switch check.  Every await is a step boundary. */
module RiskGate {

  // ---- The checks -----------------------------------------------------------------

  datatype RiskHash = RiskHash(dailyDrawdownPct: real, dailyPnlUsd: real, openPositionCount: int, consecutiveLosses: int)

  datatype Settings = Settings(maxDailyDrawdownPct: real, dailyLossLimitUsd: real, maxOpenPositions: int,
                               maxGrossExposureUsd: real, maxStrategyExposureUsd: real, maxConsecutiveLosses: int,
                               positionUsd: real)

  /** What a check reads besides the risk hash and the halt flag. */
  datatype Context = Context(enabled: bool, onCooldown: bool, grossExposureUsd: real, strategyExposureUsd: real,
                             netEdgeBps: real)

  datatype CheckResult = CheckResult(approved: bool, passed: seq<string>, failed: seq<string>,
                                     autoHalt: bool, triggerCooldown: bool)

  function Rejection(passed: seq<string>, check: string, autoHalt: bool, cooldown: bool): CheckResult {
    CheckResult(false, passed, [check], autoHalt, cooldown)
  }

  /** Early-return checks in priority order; a rejection reports no passed checks. */
  function RunChecks(hash: RiskHash, halted: bool, c: Context, s: Settings): CheckResult {
    if halted then Rejection([], "kill_switch", false, false)
    else if !c.enabled then Rejection([], "strategy_enabled", false, false)
    else if c.onCooldown then Rejection([], "strategy_cooldown", false, false)
    else if hash.dailyDrawdownPct >= s.maxDailyDrawdownPct then Rejection([], "daily_drawdown", true, false)
    else if s.dailyLossLimitUsd > 0.0 && hash.dailyPnlUsd <= -s.dailyLossLimitUsd then
      Rejection([], "daily_loss_limit", true, false)
    else if hash.openPositionCount >= s.maxOpenPositions then Rejection([], "max_open_positions", false, false)
    else if s.maxGrossExposureUsd > 0.0 && c.grossExposureUsd + s.positionUsd > s.maxGrossExposureUsd then
      Rejection([], "gross_exposure", false, false)
    else if s.maxStrategyExposureUsd > 0.0 && c.strategyExposureUsd + s.positionUsd > s.maxStrategyExposureUsd then
      Rejection([], "strategy_exposure", false, false)
    else if hash.consecutiveLosses >= s.maxConsecutiveLosses then Rejection([], "consecutive_losses", false, true)
    else if c.netEdgeBps <= 0.0 then Rejection([], "net_edge_positive", false, false)
    else CheckResult(true, ORDER, [], false, false)
  }

  /** Highest priority first. */
  const ORDER := ["kill_switch", "strategy_enabled", "strategy_cooldown", "daily_drawdown", "daily_loss_limit",
                  "max_open_positions", "gross_exposure", "strategy_exposure", "consecutive_losses", "net_edge_positive"]

  /** Whether check i refuses on its own, whatever the others say. */
  predicate Refuses(i: nat, hash: RiskHash, halted: bool, c: Context, s: Settings)
    requires i < |ORDER|
  {
    match i
    case 0 => halted
    case 1 => !c.enabled
    case 2 => c.onCooldown
    case 3 => hash.dailyDrawdownPct >= s.maxDailyDrawdownPct
    case 4 => s.dailyLossLimitUsd > 0.0 && hash.dailyPnlUsd <= -s.dailyLossLimitUsd
    case 5 => hash.openPositionCount >= s.maxOpenPositions
    case 6 => s.maxGrossExposureUsd > 0.0 && c.grossExposureUsd + s.positionUsd > s.maxGrossExposureUsd
    case 7 => s.maxStrategyExposureUsd > 0.0 && c.strategyExposureUsd + s.positionUsd > s.maxStrategyExposureUsd
    case 8 => hash.consecutiveLosses >= s.maxConsecutiveLosses
    case _ => c.netEdgeBps <= 0.0
  }

  /** Check i is the first to refuse. */
  ghost predicate FirstRefusal(i: nat, hash: RiskHash, halted: bool, c: Context, s: Settings) {
    i < |ORDER| && Refuses(i, hash, halted, c, s) && forall j :: 0 <= j < i ==> !Refuses(j, hash, halted, c, s)
  }

  /** Approval means no check refuses; a rejection names the first that does, and only
      the two daily limits halt, only the loss streak cools down. */
  lemma ChecksAreInPriorityOrder(hash: RiskHash, halted: bool, c: Context, s: Settings)
    ensures var r := RunChecks(hash, halted, c, s);
            && (r.approved <==> forall i :: 0 <= i < |ORDER| ==> !Refuses(i, hash, halted, c, s))
            && (r.approved ==> r.passed == ORDER && r.failed == [] && !r.autoHalt && !r.triggerCooldown)
    ensures forall i: nat :: FirstRefusal(i, hash, halted, c, s) ==>
              RunChecks(hash, halted, c, s) == CheckResult(false, [], [ORDER[i]], i == 3 || i == 4, i == 8)
  {
    var r := RunChecks(hash, halted, c, s);
    if r.approved {
      forall i | 0 <= i < |ORDER| ensures !Refuses(i, hash, halted, c, s) {
      }
    }
    if forall i :: 0 <= i < |ORDER| ==> !Refuses(i, hash, halted, c, s) {
      assert !Refuses(0, hash, halted, c, s) && !Refuses(1, hash, halted, c, s) && !Refuses(2, hash, halted, c, s);
      assert !Refuses(3, hash, halted, c, s) && !Refuses(4, hash, halted, c, s) && !Refuses(5, hash, halted, c, s);
      assert !Refuses(6, hash, halted, c, s) && !Refuses(7, hash, halted, c, s) && !Refuses(8, hash, halted, c, s);
      assert !Refuses(9, hash, halted, c, s);
    }
    forall i: nat | FirstRefusal(i, hash, halted, c, s)
      ensures r == CheckResult(false, [], [ORDER[i]], i == 3 || i == 4, i == 8)
    {
      assert 0 < i ==> !Refuses(0, hash, halted, c, s);
      assert 1 < i ==> !Refuses(1, hash, halted, c, s);
      assert 2 < i ==> !Refuses(2, hash, halted, c, s);
      assert 3 < i ==> !Refuses(3, hash, halted, c, s);
      assert 4 < i ==> !Refuses(4, hash, halted, c, s);
      assert 5 < i ==> !Refuses(5, hash, halted, c, s);
      assert 6 < i ==> !Refuses(6, hash, halted, c, s);
      assert 7 < i ==> !Refuses(7, hash, halted, c, s);
      assert 8 < i ==> !Refuses(8, hash, halted, c, s);
    }
  }

  // ---- The interleaved machine ---------------------------------------------------------

  /** The serialised risk consumer, by its last completed await. */
  datatype Consumer =
    | Waiting
    | Fetched(m: nat)
    | DayChecked(m: nat)
    | HashRead(m: nat, hash: RiskHash)
    | HaltRead(m: nat, hash: RiskHash, halted: bool)
    | Approved(m: nat, evidence: Evidence)
    | Counted(m: nat, evidence: Evidence)
    | Rejected(m: nat, autoHalt: bool)

  /** What an approval was based on. */
  datatype Evidence = Evidence(hash: RiskHash, halted: bool, context: Context)

  datatype Queued = Queued(m: nat, evidence: Evidence)

  /** The executor: idle, about to check the kill switch, or with legs left to submit. */
  datatype Executor = Resting | Dequeued(q: Queued) | Executing(q: Queued, legs: nat, haltRead: bool)

  /** An adapter call: the message it is for, and the halt flag its activation read. */
  datatype Submission = Submission(q: Queued, haltRead: bool)

  /** latest is the reconciler's most recent write, straddled whether it fell between
      a hash read and the decision's increment. */
  datatype State = State(hash: RiskHash, halt: bool, day: int, consumer: Consumer, queue: seq<Queued>,
                         executor: Executor, calls: seq<Submission>, latest: int, straddled: bool)

  datatype Event =
    | Fetch(message: nat)
    | CheckDay(today: int)
    | ReadHash
    | ReadHalt
    | Decide(context: Context)
    | IncrementOpen
    | Enqueue
    | FinishRejection
    | KillConsumer
    | Reconcile(open: nat)
    | RecordPnl(drawdownPct: real, pnlUsd: real, losses: int)
    | OperatorHalt
    | ExternalReset
    | Dequeue(index: nat)
    | CheckSwitch(plan: nat)
    | CallAdapter
    | StopExecutor

  function DailyReset(h: RiskHash): RiskHash {
    h.(dailyDrawdownPct := 0.0, dailyPnlUsd := 0.0)
  }

  /** The consumer's decision is under way: a write now falls between read and increment. */
  predicate Deciding(c: Consumer) {
    c.HashRead? || c.HaltRead? || c.Approved?
  }

  function Step(s: State, e: Event, settings: Settings): State {
    match e
    case Fetch(m) => if s.consumer.Waiting? then s.(consumer := Fetched(m)) else s
    case CheckDay(today) =>
      if s.consumer.Fetched? then
        var t := s.(consumer := DayChecked(s.consumer.m));
        if s.day == today then t else t.(day := today, hash := DailyReset(s.hash))
      else s
    case ReadHash => if s.consumer.DayChecked? then s.(consumer := HashRead(s.consumer.m, s.hash)) else s
    case ReadHalt =>
      if s.consumer.HashRead? then s.(consumer := HaltRead(s.consumer.m, s.consumer.hash, s.halt)) else s
    case Decide(context) =>
      if s.consumer.HaltRead? then
        var r := RunChecks(s.consumer.hash, s.consumer.halted, context, settings);
        if r.approved then s.(consumer := Approved(s.consumer.m, Evidence(s.consumer.hash, s.consumer.halted, context)))
        else s.(consumer := Rejected(s.consumer.m, r.autoHalt))
      else s
    case IncrementOpen =>
      if s.consumer.Approved? then
        s.(consumer := Counted(s.consumer.m, s.consumer.evidence),
           hash := s.hash.(openPositionCount := s.hash.openPositionCount + 1))
      else s
    case Enqueue =>
      if s.consumer.Counted? then
        s.(consumer := Waiting, queue := s.queue + [Queued(s.consumer.m, s.consumer.evidence)])
      else s
    case FinishRejection =>
      if s.consumer.Rejected? then s.(consumer := Waiting, halt := s.halt || s.consumer.autoHalt) else s
    case KillConsumer => s.(consumer := Waiting)
    case Reconcile(open) =>
      s.(hash := s.hash.(openPositionCount := open), latest := open, straddled := Deciding(s.consumer))
    case RecordPnl(drawdown, pnl, losses) =>
      s.(hash := s.hash.(dailyDrawdownPct := drawdown, dailyPnlUsd := pnl, consecutiveLosses := losses))
    case OperatorHalt => s.(halt := true)
    case ExternalReset => s.(halt := false)
    case Dequeue(i) => if s.executor.Resting? && i < |s.queue| then s.(executor := Dequeued(s.queue[i])) else s
    case CheckSwitch(plan) =>
      if s.executor.Dequeued? then
        s.(executor := if s.halt || plan > 2 then Resting else Executing(s.executor.q, plan, s.halt))
      else s
    case CallAdapter =>
      if s.executor.Executing? && s.executor.legs > 0 then
        s.(executor := Executing(s.executor.q, s.executor.legs - 1, s.executor.haltRead),
           calls := s.calls + [Submission(s.executor.q, s.executor.haltRead)])
      else s
    case StopExecutor => s.(executor := Resting)
  }

  function RunFrom(s: State, events: seq<Event>, settings: Settings): State {
    if events == [] then s
    else Step(RunFrom(s, events[..|events| - 1], settings), events[|events| - 1], settings)
  }

  /** Startup with whatever counters Redis holds. */
  predicate Initial(s: State) {
    && s.consumer.Waiting? && s.executor.Resting? && s.queue == [] && s.calls == []
    && s.latest == s.hash.openPositionCount && !s.straddled
  }

  // ---- The position limit under interleaving -----------------------------------------------

  function Ceiling(s: State, settings: Settings): int {
    var v := if s.straddled then s.latest + 1 else s.latest;
    if v < settings.maxOpenPositions then settings.maxOpenPositions else v
  }

  /** While a decision is under way the counter is the one read, or the one written since. */
  ghost predicate CounterInvariant(s: State, settings: Settings) {
    var count := s.hash.openPositionCount;
    && count <= Ceiling(s, settings)
    && (s.consumer.HashRead? || s.consumer.HaltRead? ==>
          count == s.consumer.hash.openPositionCount || (count == s.latest && s.straddled))
    && (s.consumer.Approved? ==> count < settings.maxOpenPositions || (count == s.latest && s.straddled))
  }

  lemma StepKeepsCounter(s: State, e: Event, settings: Settings)
    requires CounterInvariant(s, settings)
    ensures CounterInvariant(Step(s, e, settings), settings)
  {
    if e.Decide? && s.consumer.HaltRead? {
      assert RunChecks(s.consumer.hash, s.consumer.halted, e.context, settings).approved ==>
          s.consumer.hash.openPositionCount < settings.maxOpenPositions;
    }
    hide RunChecks;
  }

  /** In every reachable state the counter is at most the limit or the reconciler's latest
      write, plus one only if that write fell inside a decision. */
  lemma {:induction false} PositionLimit(s: State, events: seq<Event>, settings: Settings)
    requires Initial(s)
    ensures CounterInvariant(RunFrom(s, events, settings), settings)
  {
    if events != [] {
      hide Step, CounterInvariant;
      PositionLimit(s, events[..|events| - 1], settings);
      StepKeepsCounter(RunFrom(s, events[..|events| - 1], settings), events[|events| - 1], settings);
    }
  }

  /** The counter never falls below the reconciler's latest write. */
  ghost predicate CountsFromLatest(s: State) {
    s.latest <= s.hash.openPositionCount
  }

  lemma StepCountsFromLatest(s: State, e: Event, settings: Settings)
    requires CountsFromLatest(s)
    ensures CountsFromLatest(Step(s, e, settings))
  {
    hide RunChecks;
  }

  lemma {:induction false} RunCountsFromLatest(s: State, events: seq<Event>, settings: Settings)
    requires Initial(s)
    ensures CountsFromLatest(RunFrom(s, events, settings))
  {
    if events != [] {
      RunCountsFromLatest(s, events[..|events| - 1], settings);
      hide Step, CountsFromLatest;
      StepCountsFromLatest(RunFrom(s, events[..|events| - 1], settings), events[|events| - 1], settings);
    }
  }

  /** In every reachable state, the increment of an approved message takes the counter past the
      limit exactly when the reconciler wrote during the decision, and wrote the limit or more. */
  lemma IncrementExceedsLimitIff(s: State, events: seq<Event>, settings: Settings)
    requires Initial(s) && RunFrom(s, events, settings).consumer.Approved?
    ensures var t := RunFrom(s, events, settings);
            Step(t, IncrementOpen, settings).hash.openPositionCount > settings.maxOpenPositions
            <==> t.straddled && t.latest >= settings.maxOpenPositions
  {
    hide RunFrom, RunChecks;
    PositionLimit(s, events, settings);
    RunCountsFromLatest(s, events, settings);
  }

  const OPEN_SETTINGS := Settings(0.03, 0.0, 5, 0.0, 0.0, 5, 50.0)
  const CLEAR := Context(true, false, 0.0, 0.0, 1.0)
  const START := State(RiskHash(0.0, 0.0, 4, 0), false, 0, Waiting, [], Resting, [], 4, false)

  lemma Extend(s: State, events: seq<Event>, e: Event, settings: Settings)
    ensures RunFrom(s, events + [e], settings) == Step(RunFrom(s, events, settings), e, settings)
  {
  }

  /** Such a run exists: with a limit of 5, four positions read, and 5 written before the
      increment, the counter reaches 6. */
  lemma StraddlingWriteExceedsLimit()
    ensures Initial(START)
    ensures exists events :: var s := RunFrom(START, events, OPEN_SETTINGS);
              s.straddled && s.hash.openPositionCount == 6 == s.latest + 1 && OPEN_SETTINGS.maxOpenPositions == 5
  {
    hide RunFrom;
    var script := [Fetch(1), CheckDay(0), ReadHash, ReadHalt, Decide(CLEAR), Reconcile(5), IncrementOpen];
    assert RunFrom(START, [], OPEN_SETTINGS) == START by { EmptyRun(); }
    Extend(START, [], script[0], OPEN_SETTINGS);
    Extend(START, [] + [script[0]], script[1], OPEN_SETTINGS);
    Extend(START, [] + [script[0]] + [script[1]], script[2], OPEN_SETTINGS);
    Extend(START, [] + [script[0]] + [script[1]] + [script[2]], script[3], OPEN_SETTINGS);
    Extend(START, [] + [script[0]] + [script[1]] + [script[2]] + [script[3]], script[4], OPEN_SETTINGS);
    Extend(START, [] + [script[0]] + [script[1]] + [script[2]] + [script[3]] + [script[4]], script[5], OPEN_SETTINGS);
    Extend(START, [] + [script[0]] + [script[1]] + [script[2]] + [script[3]] + [script[4]] + [script[5]], script[6], OPEN_SETTINGS);
  }

  lemma EmptyRun()
    ensures RunFrom(START, [], OPEN_SETTINGS) == START
  {
  }

  // ---- The halt latch --------------------------------------------------------------------------

  /** A decision that read the switch before the halt and may still queue its message. */
  function InFlight(s: State): nat {
    if (s.consumer.HaltRead? && !s.consumer.halted) || s.consumer.Approved? || s.consumer.Counted? then 1 else 0
  }

  function LegsLeft(s: State): nat {
    if s.executor.Executing? then s.executor.legs else 0
  }

  ghost predicate NoReset(events: seq<Event>) {
    forall i :: 0 <= i < |events| ==> !events[i].ExternalReset?
  }

  /** Under a halt nothing enters the pipeline: what may still be queued or called only shrinks. */
  lemma HaltedStep(s: State, e: Event, settings: Settings)
    requires s.halt && !e.ExternalReset?
    ensures var t := Step(s, e, settings);
            && t.halt
            && |t.queue| + InFlight(t) <= |s.queue| + InFlight(s)
            && |t.calls| + LegsLeft(t) <= |s.calls| + LegsLeft(s)
  {
    if e.Decide? && s.consumer.HaltRead? {
      assert s.consumer.halted ==> !RunChecks(s.consumer.hash, s.consumer.halted, e.context, settings).approved;
    }
    hide RunChecks;
  }

  /** From a halt until an external reset, daily resets included: at most the decision in
      flight is queued, and at most the legs of the running activation are submitted. */
  lemma {:induction false} HaltLatches(s: State, events: seq<Event>, settings: Settings)
    requires s.halt && NoReset(events)
    ensures var t := RunFrom(s, events, settings);
            && t.halt
            && |t.queue| + InFlight(t) <= |s.queue| + InFlight(s)
            && |t.calls| + LegsLeft(t) <= |s.calls| + LegsLeft(s)
  {
    if events != [] {
      hide Step, InFlight, LegsLeft;
      var init := events[..|events| - 1];
      assert forall i :: 0 <= i < |init| ==> init[i] == events[i];
      HaltLatches(s, init, settings);
      HaltedStep(RunFrom(s, init, settings), events[|events| - 1], settings);
    }
  }

  lemma StepKeepsLegs(s: State, e: Event, settings: Settings)
    requires LegsLeft(s) <= 2
    ensures LegsLeft(Step(s, e, settings)) <= 2
  {
    hide RunChecks, DailyReset, Deciding;
  }

  lemma {:induction false} LegsBounded(s: State, events: seq<Event>, settings: Settings)
    requires Initial(s)
    ensures LegsLeft(RunFrom(s, events, settings)) <= 2
  {
    if events != [] {
      LegsBounded(s, events[..|events| - 1], settings);
      StepKeepsLegs(RunFrom(s, events[..|events| - 1], settings), events[|events| - 1], settings);
      hide Step, LegsLeft;
    }
  }

  /** Whatever led to the halt: at most one more message queued, two more orders submitted. */
  lemma HaltStopsTrading(s: State, before: seq<Event>, after: seq<Event>, settings: Settings)
    requires Initial(s) && RunFrom(s, before, settings).halt && NoReset(after)
    ensures var halted := RunFrom(s, before, settings);
            var later := RunFrom(halted, after, settings);
            |later.queue| <= |halted.queue| + 1 && |later.calls| <= |halted.calls| + 2
  {
    hide RunFrom;
    LegsBounded(s, before, settings);
    HaltLatches(RunFrom(s, before, settings), after, settings);
  }

  lemma {:induction false} QueueOnlyGrows(s: State, events: seq<Event>, settings: Settings)
    ensures s.queue <= RunFrom(s, events, settings).queue
  {
    if events != [] {
      QueueOnlyGrows(s, events[..|events| - 1], settings);
      QueueGrowsByStep(RunFrom(s, events[..|events| - 1], settings), events[|events| - 1], settings);
      hide Step;
    }
  }

  lemma QueueGrowsByStep(s: State, e: Event, settings: Settings)
    ensures s.queue <= Step(s, e, settings).queue
  {
    hide RunChecks;
  }

  /** Once a daily-limit rejection has been processed the queue is frozen until a reset. */
  lemma RejectionFreezesQueue(s: State, events: seq<Event>, settings: Settings)
    requires s.consumer.Rejected? && s.consumer.autoHalt && NoReset(events)
    ensures var t := Step(s, FinishRejection, settings);
            t.halt && RunFrom(t, events, settings).queue == s.queue
  {
    hide RunFrom;
    var t := Step(s, FinishRejection, settings);
    HaltLatches(t, events, settings);
    QueueOnlyGrows(t, events, settings);
  }

  /** A refusal halts trading exactly when the first check to refuse is a daily limit; until then
      and otherwise the switch stays as it is. */
  lemma RefusalHaltsIff(s: State, context: Context, settings: Settings, i: nat)
    requires s.consumer.HaltRead? && FirstRefusal(i, s.consumer.hash, s.consumer.halted, context, settings)
    ensures var t := Step(s, Decide(context), settings);
            && t.halt == s.halt && t.queue == s.queue && t.consumer.Rejected?
            && (Step(t, FinishRejection, settings).halt <==> s.halt || i == 3 || i == 4)
            && Step(t, FinishRejection, settings).queue == s.queue
  {
    ChecksAreInPriorityOrder(s.consumer.hash, s.consumer.halted, context, settings);
    hide RunChecks, Refuses;
  }

  /** The switch moves only by an operator, an external reset, or a finished refusal that halts. */
  lemma SwitchMoves(s: State, e: Event, settings: Settings)
    ensures Step(s, e, settings).halt
            == ((s.halt && !e.ExternalReset?) || e.OperatorHalt? || (e.FinishRejection? && s.consumer.Rejected? && s.consumer.autoHalt))
  {
    hide RunChecks;
  }

  // ---- The daily reset -------------------------------------------------------------------------

  ghost predicate NoPnl(events: seq<Event>) {
    forall i :: 0 <= i < |events| ==> !events[i].RecordPnl?
  }

  ghost predicate ZeroDay(h: RiskHash, losses: int) {
    h.dailyDrawdownPct == 0.0 && h.dailyPnlUsd == 0.0 && h.consecutiveLosses == losses
  }

  /** The figures kept, and any that a decision has read, are those of a day without trades. */
  ghost predicate FreshDay(s: State, losses: int) {
    ZeroDay(s.hash, losses) && (s.consumer.HashRead? || s.consumer.HaltRead? ==> ZeroDay(s.consumer.hash, losses))
  }

  lemma StepKeepsFreshDay(s: State, e: Event, settings: Settings, losses: int)
    requires FreshDay(s, losses) && !e.RecordPnl?
    ensures FreshDay(Step(s, e, settings), losses)
  {
    hide RunChecks;
  }

  /** The day check keeps the open count and the loss streak.  On a new day it zeroes the daily
      figures, and until P&L is recorded every later decision reads zero; on the same day it
      changes none. */
  lemma {:induction false} DayChangeResets(s: State, today: int, after: seq<Event>, settings: Settings)
    requires s.consumer.Fetched? && NoPnl(after)
    ensures var t := Step(s, CheckDay(today), settings);
            && t.day == today && t.consumer == DayChecked(s.consumer.m)
            && t.hash.openPositionCount == s.hash.openPositionCount && t.hash.consecutiveLosses == s.hash.consecutiveLosses
            && (s.day == today ==> t.hash == s.hash)
            && (s.day != today ==> FreshDay(RunFrom(t, after, settings), s.hash.consecutiveLosses))
  {
    var t := Step(s, CheckDay(today), settings);
    if after != [] {
      var init := after[..|after| - 1];
      assert forall i :: 0 <= i < |init| ==> init[i] == after[i];
      DayChangeResets(s, today, init, settings);
      if s.day != today {
        StepKeepsFreshDay(RunFrom(t, init, settings), after[|after| - 1], settings, s.hash.consecutiveLosses);
        assert RunFrom(t, after, settings) == Step(RunFrom(t, init, settings), after[|after| - 1], settings);
      }
    }
  }

  /** The daily figures are those recorded last. */
  ghost predicate Figures(h: RiskHash, drawdownPct: real, pnlUsd: real, losses: int) {
    h.dailyDrawdownPct == drawdownPct && h.dailyPnlUsd == pnlUsd && h.consecutiveLosses == losses
  }

  ghost predicate NoFigures(events: seq<Event>) {
    forall i :: 0 <= i < |events| ==> !events[i].RecordPnl? && !events[i].CheckDay?
  }

  lemma StepKeepsFigures(s: State, e: Event, settings: Settings, drawdownPct: real, pnlUsd: real, losses: int)
    requires Figures(s.hash, drawdownPct, pnlUsd, losses) && !e.RecordPnl? && !e.CheckDay?
    requires s.consumer.HashRead? || s.consumer.HaltRead? ==> Figures(s.consumer.hash, drawdownPct, pnlUsd, losses)
    ensures var t := Step(s, e, settings);
            && Figures(t.hash, drawdownPct, pnlUsd, losses)
            && (t.consumer.HashRead? || t.consumer.HaltRead? ==> Figures(t.consumer.hash, drawdownPct, pnlUsd, losses))
  {
    hide RunChecks;
  }

  /** Recorded figures are what later decisions read, until others are recorded or a day is checked. */
  lemma {:induction false} RecordedFiguresAreRead(s: State, drawdownPct: real, pnlUsd: real, losses: int, after: seq<Event>, settings: Settings)
    requires !s.consumer.HashRead? && !s.consumer.HaltRead? && NoFigures(after)
    ensures var t := RunFrom(Step(s, RecordPnl(drawdownPct, pnlUsd, losses), settings), after, settings);
            && Figures(t.hash, drawdownPct, pnlUsd, losses)
            && (t.consumer.HashRead? || t.consumer.HaltRead? ==> Figures(t.consumer.hash, drawdownPct, pnlUsd, losses))
  {
    if after != [] {
      var init := after[..|after| - 1];
      assert forall i :: 0 <= i < |init| ==> init[i] == after[i];
      RecordedFiguresAreRead(s, drawdownPct, pnlUsd, losses, init, settings);
      var t := Step(s, RecordPnl(drawdownPct, pnlUsd, losses), settings);
      StepKeepsFigures(RunFrom(t, init, settings), after[|after| - 1], settings, drawdownPct, pnlUsd, losses);
      hide Step;
    }
  }

  // ---- Only approved messages reach an adapter -----------------------------------------------------

  /** The state after the first k events. */
  function At(s: State, events: seq<Event>, k: nat, settings: Settings): State
    requires k <= |events|
  {
    RunFrom(s, events[..k], settings)
  }

  /** Event f fetched m, and the consumer has been at it ever since. */
  ghost predicate FetchedBy(s: State, events: seq<Event>, settings: Settings, f: nat, m: nat) {
    && f < |events| && events[f] == Fetch(m) && At(s, events, f, settings).consumer.Waiting?
    && forall k :: f < k <= |events| ==> !At(s, events, k, settings).consumer.Waiting?
  }

  /** Events f, r and h of one activation fetched m and read the hash and the halt flag. */
  ghost predicate Gathered(s: State, events: seq<Event>, settings: Settings, f: nat, r: nat, h: nat,
                           m: nat, hash: RiskHash, halted: bool) {
    && FetchedBy(s, events, settings, f, m) && f < r < h < |events|
    && events[r] == ReadHash && hash == At(s, events, r, settings).hash
    && events[h] == ReadHalt && halted == At(s, events, h, settings).halt
  }

  /** Event i is the decision that approved q, on what its own activation fetched and read. */
  ghost predicate ApprovedAt(s: State, events: seq<Event>, settings: Settings, i: nat, q: Queued) {
    && i < |events| && events[i] == Decide(q.evidence.context)
    && RunChecks(q.evidence.hash, q.evidence.halted, q.evidence.context, settings).approved
    && exists f, r, h :: Gathered(s, events[..i], settings, f, r, h, q.m, q.evidence.hash, q.evidence.halted)
  }

  /** What the history says of the consumer's present phase. */
  ghost predicate ConsumerTraced(s: State, events: seq<Event>, settings: Settings) {
    match RunFrom(s, events, settings).consumer
    case Fetched(m) => exists f: nat :: FetchedBy(s, events, settings, f, m)
    case DayChecked(m) => exists f: nat :: FetchedBy(s, events, settings, f, m)
    case HashRead(m, hash) => exists f: nat, r: nat :: HashGathered(s, events, settings, f, r, m, hash)
    case HaltRead(m, hash, halted) => exists f: nat, r: nat, h: nat :: Gathered(s, events, settings, f, r, h, m, hash, halted)
    case _ => true
  }

  ghost predicate HashGathered(s: State, events: seq<Event>, settings: Settings, f: nat, r: nat, m: nat, hash: RiskHash) {
    && FetchedBy(s, events, settings, f, m) && f < r < |events|
    && events[r] == ReadHash && hash == At(s, events, r, settings).hash
  }

  lemma PrefixAt(s: State, events: seq<Event>, e: Event, settings: Settings)
    ensures forall k :: 0 <= k <= |events| ==> At(s, events + [e], k, settings) == At(s, events, k, settings)
    ensures At(s, events + [e], |events| + 1, settings) == Step(RunFrom(s, events, settings), e, settings)
    ensures At(s, events, |events|, settings) == RunFrom(s, events, settings)
  {
    hide Step;
    forall k | 0 <= k <= |events| ensures At(s, events + [e], k, settings) == At(s, events, k, settings) {
      assert (events + [e])[..k] == events[..k];
    }
    assert (events + [e])[..|events| + 1] == events + [e];
    assert events[..|events|] == events;
    Extend(s, events, e, settings);
  }

  lemma FetchedStays(s: State, events: seq<Event>, e: Event, settings: Settings, f: nat, m: nat)
    requires FetchedBy(s, events, settings, f, m)
    requires !Step(RunFrom(s, events, settings), e, settings).consumer.Waiting?
    ensures FetchedBy(s, events + [e], settings, f, m)
  {
    hide Step, RunFrom, At;
    PrefixAt(s, events, e, settings);
  }

  /** How the consumer's phase comes about in one step. */
  lemma StepPhase(s: State, e: Event, settings: Settings)
    ensures var c, t := s.consumer, Step(s, e, settings);
            match t.consumer
            case Fetched(m) => c == t.consumer || (c.Waiting? && e == Fetch(m))
            case DayChecked(m) => c == t.consumer || c == Fetched(m)
            case HashRead(m, hash) => c == t.consumer || (c == DayChecked(m) && e == ReadHash && hash == s.hash)
            case HaltRead(m, hash, halted) => c == t.consumer || (c == HashRead(m, hash) && e == ReadHalt && halted == s.halt)
            case _ => true
  {
    hide RunChecks;
  }

  lemma StepKeepsTraced(s: State, events: seq<Event>, e: Event, settings: Settings)
    requires ConsumerTraced(s, events, settings)
    ensures ConsumerTraced(s, events + [e], settings)
  {
    hide Step, RunFrom, At, FetchedBy;
    var u := RunFrom(s, events, settings);
    PrefixAt(s, events, e, settings);
    Extend(s, events, e, settings);
    StepPhase(u, e, settings);
    match Step(u, e, settings).consumer
    case Fetched(m) =>
      if u.consumer.Waiting? {
        FetchStarts(s, events, e, settings, m);
      } else {
        var f: nat :| FetchedBy(s, events, settings, f, m);
        FetchedStays(s, events, e, settings, f, m);
      }
    case DayChecked(m) =>
      var f: nat :| FetchedBy(s, events, settings, f, m);
      FetchedStays(s, events, e, settings, f, m);
    case HashRead(m, hash) =>
      if u.consumer.DayChecked? {
        var f: nat :| FetchedBy(s, events, settings, f, m);
        FetchedStays(s, events, e, settings, f, m);
        FetchedInside(s, events, settings, f, m);
        assert HashGathered(s, events + [e], settings, f, |events|, m, hash);
      } else {
        var f: nat, r: nat :| HashGathered(s, events, settings, f, r, m, hash);
        FetchedStays(s, events, e, settings, f, m);
        assert HashGathered(s, events + [e], settings, f, r, m, hash);
      }
    case HaltRead(m, hash, halted) =>
      if u.consumer.HashRead? {
        var f: nat, r: nat :| HashGathered(s, events, settings, f, r, m, hash);
        FetchedStays(s, events, e, settings, f, m);
        assert Gathered(s, events + [e], settings, f, r, |events|, m, hash, halted);
      } else {
        var f: nat, r: nat, h: nat :| Gathered(s, events, settings, f, r, h, m, hash, halted);
        FetchedStays(s, events, e, settings, f, m);
        assert Gathered(s, events + [e], settings, f, r, h, m, hash, halted);
      }
    case _ =>
  }

  lemma FetchedInside(s: State, events: seq<Event>, settings: Settings, f: nat, m: nat)
    requires FetchedBy(s, events, settings, f, m)
    ensures f < |events|
  {
  }

  lemma FetchStarts(s: State, events: seq<Event>, e: Event, settings: Settings, m: nat)
    requires RunFrom(s, events, settings).consumer.Waiting? && e == Fetch(m)
    requires !Step(RunFrom(s, events, settings), e, settings).consumer.Waiting?
    ensures FetchedBy(s, events + [e], settings, |events|, m)
  {
    hide Step, RunFrom, At;
    PrefixAt(s, events, e, settings);
  }

  lemma {:induction false} RunTraced(s: State, events: seq<Event>, settings: Settings)
    requires Initial(s)
    ensures ConsumerTraced(s, events, settings)
  {
    hide ConsumerTraced, Step;
    if events == [] {
      WaitingIsTraced(s, settings);
    } else {
      var init, e := events[..|events| - 1], events[|events| - 1];
      RunTraced(s, init, settings);
      assert init + [e] == events;
      StepKeepsTraced(s, init, e, settings);
    }
  }

  lemma WaitingIsTraced(s: State, settings: Settings)
    requires Initial(s)
    ensures ConsumerTraced(s, [], settings)
  {
  }

  // ---- Every queued message has its own decision -------------------------------------------------------

  predicate Approves(s: State, e: Event, settings: Settings) {
    e.Decide? && s.consumer.HaltRead? && RunChecks(s.consumer.hash, s.consumer.halted, e.context, settings).approved
  }

  /** The index of the latest decision that approved. */
  function LatestApproval(s: State, events: seq<Event>, settings: Settings): nat {
    if events == [] then 0
    else
      var init, e := events[..|events| - 1], events[|events| - 1];
      if Approves(RunFrom(s, init, settings), e, settings) then |init| else LatestApproval(s, init, settings)
  }

  /** The decisions behind the queue's entries, in queue order. */
  function Decisions(s: State, events: seq<Event>, settings: Settings): seq<nat> {
    if events == [] then []
    else
      var init, e := events[..|events| - 1], events[|events| - 1];
      if e.Enqueue? && RunFrom(s, init, settings).consumer.Counted? then
        Decisions(s, init, settings) + [LatestApproval(s, init, settings)]
      else Decisions(s, init, settings)
  }

  ghost predicate Ascending(indices: seq<nat>, end: nat) {
    && (forall j, k :: 0 <= j < k < |indices| ==> indices[j] < indices[k])
    && forall k :: 0 <= k < |indices| ==> indices[k] < end
  }

  ghost predicate QueueDecided(s: State, events: seq<Event>, settings: Settings, queue: seq<Queued>, decisions: seq<nat>) {
    && |decisions| == |queue|
    && forall k :: 0 <= k < |queue| ==> ApprovedAt(s, events, settings, decisions[k], queue[k])
  }

  /** The decision in hand is later than those behind the queue. */
  ghost predicate DecisionsTraced(s: State, events: seq<Event>, settings: Settings) {
    var t, decisions, latest := RunFrom(s, events, settings), Decisions(s, events, settings), LatestApproval(s, events, settings);
    && QueueDecided(s, events, settings, t.queue, decisions)
    && Ascending(decisions, |events|)
    && HandDecided(s, events, settings, t.consumer, latest, decisions)
  }

  ghost predicate HandDecided(s: State, events: seq<Event>, settings: Settings, c: Consumer, latest: nat, decisions: seq<nat>) {
    c.Approved? || c.Counted? ==>
      ApprovedAt(s, events, settings, latest, Queued(c.m, c.evidence)) && Ascending(decisions, latest)
  }

  lemma ApprovedStays(s: State, events: seq<Event>, e: Event, settings: Settings, i: nat, q: Queued)
    requires ApprovedAt(s, events, settings, i, q)
    ensures ApprovedAt(s, events + [e], settings, i, q)
  {
    hide Gathered, RunChecks;
    assert (events + [e])[..i] == events[..i];
  }

  lemma QueueStaysDecided(s: State, events: seq<Event>, e: Event, settings: Settings, queue: seq<Queued>, decisions: seq<nat>)
    requires QueueDecided(s, events, settings, queue, decisions)
    ensures QueueDecided(s, events + [e], settings, queue, decisions)
  {
    hide ApprovedAt;
    forall k | 0 <= k < |queue| ensures ApprovedAt(s, events + [e], settings, decisions[k], queue[k]) {
      ApprovedStays(s, events, e, settings, decisions[k], queue[k]);
    }
  }

  /** How an approval in hand comes about, and what a step adds to the queue. */
  lemma StepQueues(s: State, e: Event, settings: Settings)
    ensures var c, t := s.consumer, Step(s, e, settings);
            && (t.queue == s.queue + if e.Enqueue? && c.Counted? then [Queued(c.m, c.evidence)] else [])
            && (e.Enqueue? && c.Counted? ==> t.consumer.Waiting?)
            && (t.consumer.Approved? ==>
                  if Approves(s, e, settings) then
                    t.consumer == Approved(c.m, Evidence(c.hash, c.halted, e.context))
                  else c == t.consumer)
            && (t.consumer.Counted? ==>
                  !Approves(s, e, settings) && (c == t.consumer || c == Approved(t.consumer.m, t.consumer.evidence)))
  {
    hide RunChecks;
  }

  lemma ApprovalTraced(s: State, events: seq<Event>, e: Event, settings: Settings)
    requires ConsumerTraced(s, events, settings) && Approves(RunFrom(s, events, settings), e, settings)
    ensures var c := RunFrom(s, events, settings).consumer;
            ApprovedAt(s, events + [e], settings, |events|, Queued(c.m, Evidence(c.hash, c.halted, e.context)))
  {
    hide RunFrom, RunChecks, Gathered;
    assert (events + [e])[..|events|] == events;
  }

  lemma HistoryStep(s: State, events: seq<Event>, e: Event, settings: Settings)
    ensures var u, latest := RunFrom(s, events, settings), LatestApproval(s, events, settings);
            && RunFrom(s, events + [e], settings) == Step(u, e, settings)
            && LatestApproval(s, events + [e], settings) == (if Approves(u, e, settings) then |events| else latest)
            && Decisions(s, events + [e], settings)
               == Decisions(s, events, settings) + if e.Enqueue? && u.consumer.Counted? then [latest] else []
  {
    hide Step, Approves;
    assert (events + [e])[..|events|] == events;
  }

  lemma QueueGrowsDecided(s: State, events: seq<Event>, settings: Settings, queue: seq<Queued>, decisions: seq<nat>, q: Queued, i: nat)
    requires QueueDecided(s, events, settings, queue, decisions) && ApprovedAt(s, events, settings, i, q)
    ensures QueueDecided(s, events, settings, queue + [q], decisions + [i])
  {
    hide ApprovedAt;
  }

  lemma StepKeepsHand(s: State, events: seq<Event>, e: Event, settings: Settings)
    requires ConsumerTraced(s, events, settings) && DecisionsTraced(s, events, settings)
    ensures var next := events + [e];
            HandDecided(s, next, settings, RunFrom(s, next, settings).consumer, LatestApproval(s, next, settings), Decisions(s, next, settings))
  {
    var u := RunFrom(s, events, settings);
    HistoryStep(s, events, e, settings);
    StepQueues(u, e, settings);
    if u.consumer.Approved? || u.consumer.Counted? {
      ApprovedStays(s, events, e, settings, LatestApproval(s, events, settings), Queued(u.consumer.m, u.consumer.evidence));
    }
    if Approves(u, e, settings) {
      ApprovalTraced(s, events, e, settings);
    }
    hide Step, Approves, ApprovedAt, ConsumerTraced, RunFrom, LatestApproval, Decisions, QueueDecided, Ascending;
    assert Decisions(s, events, settings) + [] == Decisions(s, events, settings);
  }

  lemma AscendingGrows(indices: seq<nat>, end: nat, next: nat)
    requires Ascending(indices, end) && end < next
    ensures Ascending(indices, next) && Ascending(indices + [end], next)
  {
  }

  lemma StepKeepsDecisions(s: State, events: seq<Event>, e: Event, settings: Settings)
    requires ConsumerTraced(s, events, settings) && DecisionsTraced(s, events, settings)
    ensures DecisionsTraced(s, events + [e], settings)
  {
    var u := RunFrom(s, events, settings);
    StepKeepsHand(s, events, e, settings);
    HistoryStep(s, events, e, settings);
    StepQueues(u, e, settings);
    var decisions, latest := Decisions(s, events, settings), LatestApproval(s, events, settings);
    hide Step, Approves, ApprovedAt, ConsumerTraced, RunFrom, LatestApproval, Decisions, QueueDecided, Ascending;
    QueueStaysDecided(s, events, e, settings, u.queue, decisions);
    AscendingGrows(decisions, |events|, |events| + 1);
    if e.Enqueue? && u.consumer.Counted? {
      var q := Queued(u.consumer.m, u.consumer.evidence);
      ApprovedStays(s, events, e, settings, latest, q);
      ApprovedInside(s, events, settings, latest, q);
      QueueGrowsDecided(s, events + [e], settings, u.queue, decisions, q, latest);
      AscendingGrows(decisions, latest, |events| + 1);
    } else {
      assert u.queue + [] == u.queue && decisions + [] == decisions;
    }
  }

  lemma ApprovedInside(s: State, events: seq<Event>, settings: Settings, i: nat, q: Queued)
    requires ApprovedAt(s, events, settings, i, q)
    ensures i < |events|
  {
  }

  /** Every queued message was approved by a decision of its own: made on the hash and the halt flag
      that the very activation which fetched the message had read, and queued once. */
  lemma {:induction false} QueuedMessagesWereApproved(s: State, events: seq<Event>, settings: Settings)
    requires Initial(s)
    ensures DecisionsTraced(s, events, settings)
  {
    hide Step, DecisionsTraced, ConsumerTraced;
    if events == [] {
      EmptyQueueTraced(s, settings);
    } else {
      var init, e := events[..|events| - 1], events[|events| - 1];
      QueuedMessagesWereApproved(s, init, settings);
      RunTraced(s, init, settings);
      assert init + [e] == events;
      StepKeepsDecisions(s, init, e, settings);
    }
  }

  lemma EmptyQueueTraced(s: State, settings: Settings)
    requires Initial(s)
    ensures DecisionsTraced(s, [], settings)
  {
  }

  /** A kill forgets the work in hand: nothing is queued or called for it, and the switch, the
      counters, the queue and the calls stay.  A dequeue takes the message asked for. */
  lemma KillsForget(s: State, settings: Settings, i: nat)
    ensures Step(s, KillConsumer, settings) == s.(consumer := Waiting)
    ensures Step(s, StopExecutor, settings) == s.(executor := Resting)
    ensures s.executor.Resting? && i < |s.queue| ==> Step(s, Dequeue(i), settings) == s.(executor := Dequeued(s.queue[i]))
  {
  }

  // ---- Every call is for a queued message ----------------------------------------------------------

  /** Event x found the switch clear for this message. */
  ghost predicate SwitchClear(s: State, events: seq<Event>, settings: Settings, x: nat, q: Queued) {
    x < |events| && events[x].CheckSwitch? && At(s, events, x, settings).executor == Dequeued(q) && !At(s, events, x, settings).halt
  }

  ghost predicate Cleared(s: State, events: seq<Event>, settings: Settings, q: Queued) {
    exists x: nat :: SwitchClear(s, events, settings, x, q)
  }

  ghost predicate ExecutorTraced(s: State, events: seq<Event>, settings: Settings) {
    var t := RunFrom(s, events, settings);
    && (!t.executor.Resting? ==> t.executor.q in t.queue)
    && (t.executor.Executing? ==> Cleared(s, events, settings, t.executor.q))
    && forall c :: 0 <= c < |t.calls| ==> t.calls[c].q in t.queue && !t.calls[c].haltRead && Cleared(s, events, settings, t.calls[c].q)
  }

  lemma ClearedStays(s: State, events: seq<Event>, e: Event, settings: Settings, q: Queued)
    requires Cleared(s, events, settings, q)
    ensures Cleared(s, events + [e], settings, q)
  {
    hide RunFrom;
    var x: nat :| SwitchClear(s, events, settings, x, q);
    assert (events + [e])[..x] == events[..x];
    assert SwitchClear(s, events + [e], settings, x, q);
  }

  /** What a step does to the executor and its calls. */
  lemma StepExecutes(s: State, e: Event, settings: Settings)
    ensures var x, t := s.executor, Step(s, e, settings);
            && s.queue <= t.queue
            && (t.executor.Dequeued? ==> t.executor == x || t.executor.q in s.queue)
            && (t.executor.Executing? ==>
                  if e.CheckSwitch? && x.Dequeued? then !s.halt && t.executor.q == x.q && !t.executor.haltRead
                  else x.Executing? && t.executor.q == x.q && t.executor.haltRead == x.haltRead)
            && (t.calls == s.calls
                || (x.Executing? && t.calls == s.calls + [Submission(x.q, x.haltRead)]))
  {
    hide RunChecks;
  }

  lemma SwitchStarts(s: State, events: seq<Event>, e: Event, settings: Settings)
    requires e.CheckSwitch? && RunFrom(s, events, settings).executor.Dequeued? && !RunFrom(s, events, settings).halt
    ensures Cleared(s, events + [e], settings, RunFrom(s, events, settings).executor.q)
  {
    hide RunFrom;
    assert (events + [e])[..|events|] == events;
    assert SwitchClear(s, events + [e], settings, |events|, RunFrom(s, events, settings).executor.q);
  }

  ghost predicate ReadClear(s: State) {
    s.executor.Executing? ==> !s.executor.haltRead
  }

  lemma StepKeepsExecutor(s: State, events: seq<Event>, e: Event, settings: Settings)
    requires ExecutorTraced(s, events, settings) && ReadClear(RunFrom(s, events, settings))
    ensures ExecutorTraced(s, events + [e], settings) && ReadClear(RunFrom(s, events + [e], settings))
  {
    var u := RunFrom(s, events, settings);
    var t := Step(u, e, settings);
    Extend(s, events, e, settings);
    StepExecutes(u, e, settings);
    hide Step, RunFrom, Cleared;
    if e.CheckSwitch? && u.executor.Dequeued? && !u.halt { SwitchStarts(s, events, e, settings); }
    if u.executor.Executing? { ClearedStays(s, events, e, settings, u.executor.q); }
    assert forall q :: q in u.queue ==> q in t.queue;
    forall c | 0 <= c < |t.calls|
      ensures t.calls[c].q in t.queue && !t.calls[c].haltRead && Cleared(s, events + [e], settings, t.calls[c].q)
    {
      if c < |u.calls| { ClearedStays(s, events, e, settings, u.calls[c].q); }
    }
  }

  lemma {:induction false} RunExecutorTraced(s: State, events: seq<Event>, settings: Settings)
    requires Initial(s)
    ensures ExecutorTraced(s, events, settings) && ReadClear(RunFrom(s, events, settings))
  {
    hide Step, ExecutorTraced;
    if events == [] {
      RestingIsTraced(s, settings);
    } else {
      var init, e := events[..|events| - 1], events[|events| - 1];
      RunExecutorTraced(s, init, settings);
      assert init + [e] == events;
      StepKeepsExecutor(s, init, e, settings);
    }
  }

  lemma RestingIsTraced(s: State, settings: Settings)
    requires Initial(s)
    ensures ExecutorTraced(s, [], settings)
  {
  }

  /** Every adapter call, in every run, is for a message that a decision approved on what its own
      activation had read, by an activation that found the switch clear. */
  lemma CallsAreApproved(s: State, events: seq<Event>, settings: Settings, c: nat)
    requires Initial(s) && c < |RunFrom(s, events, settings).calls|
    ensures var call := RunFrom(s, events, settings).calls[c];
            && !call.haltRead && Cleared(s, events, settings, call.q)
            && exists i: nat :: ApprovedAt(s, events, settings, i, call.q)
  {
    hide RunFrom, Cleared, ApprovedAt, Decisions, LatestApproval, Ascending;
    RunExecutorTraced(s, events, settings);
    QueuedMessagesWereApproved(s, events, settings);
    var t := RunFrom(s, events, settings);
    var k :| 0 <= k < |t.queue| && t.queue[k] == t.calls[c].q;
    assert ApprovedAt(s, events, settings, Decisions(s, events, settings)[k], t.queue[k]);
  }
}
