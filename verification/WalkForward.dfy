/** Walk-forward analysis: services/backtest/app/walk_forward.py. */
module WalkForward {
  import opened Options
  import opened Integers
  import opened Candles
  import opened Decimals
  import opened Sums
  import opened Signals
  import opened Backtest
  import opened Drawdown
  import M = Metrics

  // ---- Windows --------------------------------------------------------------------------

  datatype Window = Window(isStart: nat, isEnd: nat, oosStart: nat, oosEnd: nat)

  /** How many windows fit. */
  function WindowCount(n: nat, isSize: int, oosSize: int, step: int): int
    requires step > 0
  {
    if isSize + oosSize > n then 0 else (n - isSize - oosSize) / step + 1
  }

  /** Window k is counted exactly when it ends inside the data. */
  lemma CountedIffFits(n: nat, isSize: int, oosSize: int, step: int, k: nat)
    requires step > 0 && isSize > 0 && oosSize > 0
    ensures k < WindowCount(n, isSize, oosSize, step) <==> k * step + isSize + oosSize <= n
  {
    var room := n - isSize - oosSize;
    if room >= 0 {
      var q, r := room / step, room % step;
      assert room == q * step + r;
      if k <= q {
        ScaleMonotone(k, q, step);
      } else {
        ScaleMonotone(q + 1, k, step);
        assert (q + 1) * step == q * step + step;
      }
    } else {
      ScaleMonotone(0, k, step);
    }
  }

  /** The k-th window starts k steps in; its out-of-sample part follows its in-sample part. */
  ghost predicate IsWindow(w: Window, k: int, isSize: int, oosSize: int, step: int) {
    w.isStart == k * step && w.isEnd == w.isStart + isSize && w.oosStart == w.isEnd && w.oosEnd == w.oosStart + oosSize
  }

  /** None stands for the ValueError on a non-positive size or step. */
  method WfaWindows(n: nat, isSize: int, oosSize: int, step: int) returns (windows: Option<seq<Window>>)
    ensures windows.None? <==> isSize <= 0 || oosSize <= 0 || step <= 0
    ensures windows.Some? ==> |windows.value| == WindowCount(n, isSize, oosSize, step)
    ensures windows.Some? ==>
              forall k :: 0 <= k < |windows.value| ==> IsWindow(windows.value[k], k, isSize, oosSize, step)
  {
    if isSize <= 0 || oosSize <= 0 || step <= 0 {
      return None;
    }
    var out: seq<Window> := [];
    var isStart := 0;
    while isStart + isSize + oosSize <= n
      invariant isStart == |out| * step >= 0
      invariant |out| > 0 ==> (|out| - 1) * step + isSize + oosSize <= n
      invariant forall k :: 0 <= k < |out| ==> IsWindow(out[k], k, isSize, oosSize, step)
      decreases n - isStart
    {
      var isEnd := isStart + isSize;
      var oosEnd := isEnd + oosSize;
      out := out + [Window(isStart, isEnd, isEnd, oosEnd)];
      NextMultiple(|out| - 1, step);
      isStart := isStart + step;
    }
    if |out| > 0 {
      NextMultiple(|out| - 1, step);
      DivModUnique(n - isSize - oosSize, step, |out| - 1, n - isSize - oosSize - (|out| - 1) * step);
    }
    return Some(out);
  }

  lemma NextMultiple(k: int, step: int)
    ensures (k + 1) * step == k * step + step
  {
  }

  /** All windows lie inside the data. */
  lemma WindowsFit(n: nat, isSize: nat, oosSize: nat, step: nat, w: Window, k: nat)
    requires isSize > 0 && oosSize > 0 && step > 0
    requires k < WindowCount(n, isSize, oosSize, step) && IsWindow(w, k, isSize, oosSize, step)
    ensures w.isStart < w.isEnd == w.oosStart < w.oosEnd <= n
  {
    var room := n - isSize - oosSize;
    ScaleMonotone(k, room / step, step);
  }

  /** Out-of-sample ranges are pairwise disjoint exactly when the step covers them. */
  lemma OutOfSampleDisjointIff(n: nat, isSize: nat, oosSize: nat, step: nat, windows: seq<Window>)
    requires isSize > 0 && oosSize > 0 && step > 0 && |windows| >= 2
    requires forall k :: 0 <= k < |windows| ==> IsWindow(windows[k], k, isSize, oosSize, step)
    ensures (forall j, k :: 0 <= j < k < |windows| ==> windows[j].oosEnd <= windows[k].oosStart) <==> step >= oosSize
  {
    if step >= oosSize {
      forall j, k | 0 <= j < k < |windows| ensures windows[j].oosEnd <= windows[k].oosStart {
        assert IsWindow(windows[j], j, isSize, oosSize, step) && IsWindow(windows[k], k, isSize, oosSize, step);
        ScaleMonotone(j + 1, k, step);
        NextMultiple(j, step);
      }
    } else {
      assert IsWindow(windows[0], 0, isSize, oosSize, step) && IsWindow(windows[1], 1, isSize, oosSize, step);
      NextMultiple(0, step);
      assert windows[0].oosEnd > windows[1].oosStart;
    }
  }

  // ---- In-sample choice ---------------------------------------------------------------------

  datatype Config = Config(exitZ: real, sizing: Sizing, score: Score, ratios: M.Ratios)

  datatype Choice = Choice(window: nat, entryZ: real, isSharpe: real, isTrades: nat)

  /** The metrics of a run; an insufficient run keeps the defaults. None: the run raised. */
  function Report(out: Outcome, cfg: Config): Option<M.Metrics> {
    match out
    case Raised => None
    case Insufficient => Some(M.NoTrades())
    case Done(trades) => Some(M.MetricsOf(trades, cfg.sizing.capital, cfg.ratios))
  }

  function RunOn(pairs: seq<Pair>, window: nat, entryZ: real, cfg: Config): Option<M.Metrics> {
    Report(StatArb(pairs, Params(window, entryZ, cfg.exitZ, cfg.sizing), cfg.score), cfg)
  }

  function Candidate(pairs: seq<Pair>, window: nat, entryZ: real, cfg: Config): Option<Choice> {
    match RunOn(pairs, window, entryZ, cfg)
    case None => None
    case Some(m) => Some(Choice(window, entryZ, m.sharpe, m.totalTrades))
  }

  /** The grid in the order of the nested loops. */
  function Row(pairs: seq<Pair>, window: nat, zGrid: seq<real>, cfg: Config): (row: seq<Option<Choice>>)
    ensures |row| == |zGrid|
  {
    if zGrid == [] then []
    else Row(pairs, window, zGrid[..|zGrid| - 1], cfg) + [Candidate(pairs, window, zGrid[|zGrid| - 1], cfg)]
  }

  function Candidates(pairs: seq<Pair>, windowGrid: seq<nat>, zGrid: seq<real>, cfg: Config): seq<Option<Choice>> {
    if windowGrid == [] then []
    else
      Candidates(pairs, windowGrid[..|windowGrid| - 1], zGrid, cfg)
      + Row(pairs, windowGrid[|windowGrid| - 1], zGrid, cfg)
  }

  /** c is the earliest of the candidates with the highest in-sample Sharpe ratio. */
  ghost predicate FirstBest(c: Choice, candidates: seq<Option<Choice>>) {
    && (forall j :: 0 <= j < |candidates| ==> candidates[j].Some? && candidates[j].value.isSharpe <= c.isSharpe)
    && (exists k :: 0 <= k < |candidates| && candidates[k] == Some(c)
                    && forall j :: 0 <= j < k ==> candidates[j].value.isSharpe < c.isSharpe)
  }

  datatype Selection = RunRaised | GridEmpty | Chosen(choice: Choice)

  /** Exactly one of: some run raised, nothing to choose from, the first best candidate. */
  ghost predicate Selects(sel: Selection, candidates: seq<Option<Choice>>) {
    match sel
    case RunRaised => exists j :: 0 <= j < |candidates| && candidates[j].None?
    case GridEmpty => candidates == []
    case Chosen(c) => FirstBest(c, candidates)
  }

  lemma SelectsUnique(a: Selection, b: Selection, candidates: seq<Option<Choice>>)
    requires Selects(a, candidates) && Selects(b, candidates)
    ensures a == b
  {
  }

  /** What the loop keeps: the best of the candidates seen, or none before the first. */
  ghost predicate BestSoFar(best: Option<Choice>, seen: seq<Option<Choice>>) {
    if best.None? then seen == [] else FirstBest(best.value, seen)
  }

  lemma BestSoFarStep(best: Option<Choice>, seen: seq<Option<Choice>>, c: Choice)
    requires BestSoFar(best, seen)
    ensures BestSoFar(if best.None? || c.isSharpe > best.value.isSharpe then Some(c) else best, seen + [Some(c)])
  {
    var all := seen + [Some(c)];
    if best.None? || c.isSharpe > best.value.isSharpe {
      assert all[|seen|] == Some(c);
    } else {
      var k :| 0 <= k < |seen| && seen[k] == best && forall j :: 0 <= j < k ==> seen[j].value.isSharpe < best.value.isSharpe;
      assert all[k] == best;
      assert forall j :: 0 <= j < k ==> all[j] == seen[j];
    }
  }

  method RunWindow(pairs: seq<Pair>, window: nat, entryZ: real, cfg: Config) returns (r: Option<M.Metrics>)
    requires Aligned(pairs)
    ensures r == RunOn(pairs, window, entryZ, cfg)
  {
    hide StatArb, Align, Aligned, M.MetricsOf;
    RealignIsIdentity(pairs);
    var out := RunStatArb(Spots(pairs), Perps(pairs), Params(window, entryZ, cfg.exitZ, cfg.sizing), cfg.score);
    match out
    case Raised => r := None;
    case Insufficient => r := Some(M.NoTrades());
    case Done(trades) =>
      var m := M.ComputeMetrics(trades, cfg.sizing.capital, cfg.ratios);
      r := Some(m);
  }

  /** Grid search: the two nested loops with a strict comparison. */
  method Optimise(pairs: seq<Pair>, windowGrid: seq<nat>, zGrid: seq<real>, cfg: Config) returns (sel: Selection)
    requires Aligned(pairs)
    ensures Selects(sel, Candidates(pairs, windowGrid, zGrid, cfg))
  {
    hide RunOn, FirstBest, Aligned, BestSoFar;
    var best: Option<Choice> := None;
    NothingSeen();
    ghost var all := Candidates(pairs, windowGrid, zGrid, cfg);
    for a := 0 to |windowGrid|
      invariant BestSoFar(best, Candidates(pairs, windowGrid[..a], zGrid, cfg))
    {
      ghost var seen := Candidates(pairs, windowGrid[..a], zGrid, cfg);
      assert seen + Row(pairs, windowGrid[a], [], cfg) == seen;
      for b := 0 to |zGrid|
        invariant BestSoFar(best, seen + Row(pairs, windowGrid[a], zGrid[..b], cfg))
      {
        var r := RunWindow(pairs, windowGrid[a], zGrid[b], cfg);
        if r.None? {
          RaisedCandidate(pairs, windowGrid, zGrid, cfg, a, b);
          return RunRaised;
        }
        var c := Choice(windowGrid[a], zGrid[b], r.value.sharpe, r.value.totalTrades);
        BestSoFarStep(best, seen + Row(pairs, windowGrid[a], zGrid[..b], cfg), c);
        RowGrows(pairs, windowGrid[a], zGrid, cfg, b, seen);
        if best.None? || c.isSharpe > best.value.isSharpe {
          best := Some(c);
        }
      }
      CandidatesGrow(pairs, windowGrid, zGrid, cfg, a);
      assert zGrid[..|zGrid|] == zGrid;
    }
    assert windowGrid[..|windowGrid|] == windowGrid;
    BestIsSelection(best, all);
    sel := if best.Some? then Chosen(best.value) else GridEmpty;
  }

  lemma NothingSeen()
    ensures BestSoFar(None, [])
  {
  }

  lemma BestIsSelection(best: Option<Choice>, all: seq<Option<Choice>>)
    requires BestSoFar(best, all)
    ensures Selects(if best.Some? then Chosen(best.value) else GridEmpty, all)
  {
  }

  lemma RowGrows(pairs: seq<Pair>, window: nat, zGrid: seq<real>, cfg: Config, b: nat, seen: seq<Option<Choice>>)
    requires b < |zGrid|
    ensures seen + Row(pairs, window, zGrid[..b + 1], cfg)
            == seen + Row(pairs, window, zGrid[..b], cfg) + [Candidate(pairs, window, zGrid[b], cfg)]
  {
    hide Candidate;
    assert zGrid[..b + 1][..b] == zGrid[..b];
  }

  lemma CandidatesGrow(pairs: seq<Pair>, windowGrid: seq<nat>, zGrid: seq<real>, cfg: Config, a: nat)
    requires a < |windowGrid|
    ensures Candidates(pairs, windowGrid[..a + 1], zGrid, cfg)
            == Candidates(pairs, windowGrid[..a], zGrid, cfg) + Row(pairs, windowGrid[a], zGrid, cfg)
  {
    assert windowGrid[..a + 1][..a] == windowGrid[..a];
  }

  lemma {:induction false} RowPrefix(pairs: seq<Pair>, window: nat, zGrid: seq<real>, cfg: Config, b: nat)
    requires b < |zGrid|
    ensures Row(pairs, window, zGrid, cfg)[b] == Candidate(pairs, window, zGrid[b], cfg)
  {
    hide Candidate;
    var n := |zGrid| - 1;
    if b < n { RowPrefix(pairs, window, zGrid[..n], cfg, b); }
  }

  lemma RaisedCandidate(pairs: seq<Pair>, windowGrid: seq<nat>, zGrid: seq<real>, cfg: Config, a: nat, b: nat)
    requires a < |windowGrid| && b < |zGrid| && Candidate(pairs, windowGrid[a], zGrid[b], cfg).None?
    ensures Selects(RunRaised, Candidates(pairs, windowGrid, zGrid, cfg))
  {
    hide Candidate, Candidates;
    CandidateListed(pairs, windowGrid, zGrid, cfg, a, b);
  }

  lemma {:induction false} CandidateListed(pairs: seq<Pair>, windowGrid: seq<nat>, zGrid: seq<real>, cfg: Config, a: nat, b: nat)
    requires a < |windowGrid| && b < |zGrid|
    ensures exists j :: 0 <= j < |Candidates(pairs, windowGrid, zGrid, cfg)|
                        && Candidates(pairs, windowGrid, zGrid, cfg)[j] == Candidate(pairs, windowGrid[a], zGrid[b], cfg)
  {
    hide Candidate;
    var n := |windowGrid| - 1;
    var init, row := Candidates(pairs, windowGrid[..n], zGrid, cfg), Row(pairs, windowGrid[n], zGrid, cfg);
    if a < n {
      CandidateListed(pairs, windowGrid[..n], zGrid, cfg, a, b);
      assert windowGrid[..n][a] == windowGrid[a];
      var j :| 0 <= j < |init| && init[j] == Candidate(pairs, windowGrid[a], zGrid[b], cfg);
      assert Candidates(pairs, windowGrid, zGrid, cfg)[j] == init[j];
    } else {
      RowPrefix(pairs, windowGrid[n], zGrid, cfg, b);
      assert Candidates(pairs, windowGrid, zGrid, cfg)[|init| + b] == row[b];
    }
  }

  /** Too few in-sample candles for the look-back: the run is the empty result. */
  predicate Insufficient(pairs: seq<Pair>, c: Choice) {
    |pairs| < c.window + 10
  }

  /** An insufficient run is not rejected: it is a candidate with Sharpe 0 and no trades. */
  ghost predicate InsufficientScoresZero(pairs: seq<Pair>, candidates: seq<Option<Choice>>) {
    forall k :: 0 <= k < |candidates| && candidates[k].Some? && Insufficient(pairs, candidates[k].value) ==>
      candidates[k].value.isSharpe == 0.0 && candidates[k].value.isTrades == 0
  }

  lemma {:induction false} RowScoresZero(pairs: seq<Pair>, window: nat, zGrid: seq<real>, cfg: Config)
    ensures InsufficientScoresZero(pairs, Row(pairs, window, zGrid, cfg))
  {
    hide StatArb;
    if zGrid != [] {
      var z := zGrid[|zGrid| - 1];
      RowScoresZero(pairs, window, zGrid[..|zGrid| - 1], cfg);
      if |pairs| < window + 10 { StatArbInsufficient(pairs, Params(window, z, cfg.exitZ, cfg.sizing), cfg.score); }
    }
  }

  lemma {:induction false} CandidatesScoreZero(pairs: seq<Pair>, windowGrid: seq<nat>, zGrid: seq<real>, cfg: Config)
    ensures InsufficientScoresZero(pairs, Candidates(pairs, windowGrid, zGrid, cfg))
  {
    hide Candidate;
    if windowGrid != [] {
      CandidatesScoreZero(pairs, windowGrid[..|windowGrid| - 1], zGrid, cfg);
      RowScoresZero(pairs, windowGrid[|windowGrid| - 1], zGrid, cfg);
    }
  }

  /** Candidate k is the first with Sharpe 0. */
  ghost predicate FirstZero(k: nat, candidates: seq<Option<Choice>>) {
    && k < |candidates| && candidates[k].Some? && candidates[k].value.isSharpe == 0.0
    && forall j :: 0 <= j < k ==> candidates[j].Some? && candidates[j].value.isSharpe != 0.0
  }

  ghost predicate NonePositive(candidates: seq<Option<Choice>>) {
    forall j :: 0 <= j < |candidates| ==> candidates[j].Some? && candidates[j].value.isSharpe <= 0.0
  }

  /** Parameters that were never run in sample are chosen exactly when no candidate has a
      positive Sharpe ratio and the first with Sharpe 0 is one of them. */
  lemma InsufficientChosenIff(pairs: seq<Pair>, windowGrid: seq<nat>, zGrid: seq<real>, cfg: Config, c: Choice)
    requires Selects(Chosen(c), Candidates(pairs, windowGrid, zGrid, cfg))
    ensures var candidates := Candidates(pairs, windowGrid, zGrid, cfg);
            Insufficient(pairs, c)
            <==> NonePositive(candidates)
                 && exists k: nat :: FirstZero(k, candidates) && Insufficient(pairs, candidates[k].value)
  {
    hide Candidates;
    var candidates := Candidates(pairs, windowGrid, zGrid, cfg);
    CandidatesScoreZero(pairs, windowGrid, zGrid, cfg);
    FirstBestIffFirstZero(pairs, candidates, c);
  }

  lemma FirstBestIffFirstZero(pairs: seq<Pair>, candidates: seq<Option<Choice>>, c: Choice)
    requires FirstBest(c, candidates) && InsufficientScoresZero(pairs, candidates)
    ensures Insufficient(pairs, c)
            <==> NonePositive(candidates)
                 && exists k: nat :: FirstZero(k, candidates) && Insufficient(pairs, candidates[k].value)
  {
    hide Insufficient;
    var k: nat :| k < |candidates| && candidates[k] == Some(c) && forall j :: 0 <= j < k ==> candidates[j].value.isSharpe < c.isSharpe;
    if Insufficient(pairs, c) {
      assert c.isSharpe == 0.0;
      assert FirstZero(k, candidates);
    }
    if l: nat :| NonePositive(candidates) && FirstZero(l, candidates) && Insufficient(pairs, candidates[l].value) {
      assert candidates[l].value.isSharpe <= c.isSharpe <= 0.0;
      assert k == l;
    }
  }

  // ---- Folds ------------------------------------------------------------------------------------

  datatype Fold = Fold(choice: Choice, oosSharpe: real, oosNetPnl: real, oosTrades: nat, oosWinRate: real,
                       oosMaxDrawdownPct: real)

  /** A fold: chosen on the in-sample slice, evaluated on the out-of-sample slice. */
  ghost predicate IsFold(fold: Fold, pairs: seq<Pair>, w: Window, windowGrid: seq<nat>, zGrid: seq<real>, cfg: Config) {
    && w.isStart <= w.isEnd <= |pairs| && w.oosStart <= w.oosEnd <= |pairs|
    && Selects(Chosen(fold.choice), Candidates(pairs[w.isStart..w.isEnd], windowGrid, zGrid, cfg))
    && var oos := RunOn(pairs[w.oosStart..w.oosEnd], fold.choice.window, fold.choice.entryZ, cfg);
    oos.Some? && fold == Fold(fold.choice, oos.value.sharpe, oos.value.netPnl, oos.value.totalTrades, oos.value.winRate, oos.value.maxDrawdownPct)
  }

  method RunFold(pairs: seq<Pair>, w: Window, windowGrid: seq<nat>, zGrid: seq<real>, cfg: Config) returns (fold: Option<Fold>)
    requires Aligned(pairs) && w.isStart <= w.isEnd <= |pairs| && w.oosStart <= w.oosEnd <= |pairs|
    ensures fold.Some? ==> IsFold(fold.value, pairs, w, windowGrid, zGrid, cfg)
    ensures fold.None? ==> forall f :: !IsFold(f, pairs, w, windowGrid, zGrid, cfg)
  {
    hide Aligned, RunOn, Candidates, Selects;
    SliceIsAligned(pairs, w.isStart, w.isEnd);
    SliceIsAligned(pairs, w.oosStart, w.oosEnd);
    var sel := Optimise(pairs[w.isStart..w.isEnd], windowGrid, zGrid, cfg);
    if !sel.Chosen? {
      forall f ensures !IsFold(f, pairs, w, windowGrid, zGrid, cfg) {
        NotAlsoChosen(sel, f.choice, Candidates(pairs[w.isStart..w.isEnd], windowGrid, zGrid, cfg));
      }
      return None;
    }
    var best := sel.choice;
    var oos := RunWindow(pairs[w.oosStart..w.oosEnd], best.window, best.entryZ, cfg);
    if oos.None? {
      forall f ensures !IsFold(f, pairs, w, windowGrid, zGrid, cfg) {
        SameChoice(best, f.choice, Candidates(pairs[w.isStart..w.isEnd], windowGrid, zGrid, cfg));
      }
      return None;
    }
    return Some(Fold(best, oos.value.sharpe, oos.value.netPnl, oos.value.totalTrades, oos.value.winRate, oos.value.maxDrawdownPct));
  }

  lemma NotAlsoChosen(sel: Selection, c: Choice, candidates: seq<Option<Choice>>)
    requires Selects(sel, candidates) && !sel.Chosen?
    ensures !Selects(Chosen(c), candidates)
  {
  }

  lemma SameChoice(best: Choice, c: Choice, candidates: seq<Option<Choice>>)
    requires Selects(Chosen(best), candidates)
    ensures Selects(Chosen(c), candidates) ==> c == best
  {
  }

  /** A fold of the data is determined by it. */
  lemma FoldUnique(f: Fold, g: Fold, pairs: seq<Pair>, w: Window, windowGrid: seq<nat>, zGrid: seq<real>, cfg: Config)
    requires IsFold(f, pairs, w, windowGrid, zGrid, cfg) && IsFold(g, pairs, w, windowGrid, zGrid, cfg)
    ensures f == g
  {
    hide Selects, Candidates, RunOn;
    SameChoice(f.choice, g.choice, Candidates(pairs[w.isStart..w.isEnd], windowGrid, zGrid, cfg));
  }

  // ---- What the candidates and folds say --------------------------------------------------------------

  /** The trades of the run with these parameters: the first crossings of the thresholds. */
  ghost predicate AreRunTrades(trades: seq<TradeRecord>, pairs: seq<Pair>, window: nat, entryZ: real, cfg: Config) {
    exists signals, book :: CrossesAt(signals, book, pairs, window, entryZ, cfg) && Tradable(book, pairs)
                            && TradesFollow(trades, book.rounds, pairs, window, cfg.score, cfg.sizing)
  }

  ghost predicate CrossesAt(signals: seq<Signal>, book: Book, pairs: seq<Pair>, window: nat, entryZ: real, cfg: Config) {
    ThresholdSignals(signals, pairs, window, entryZ, cfg.exitZ, cfg.score) && Crossings(book, signals)
  }

  /** Some position opens at a spot price of zero. */
  ghost predicate Untradable(pairs: seq<Pair>, window: nat, entryZ: real, cfg: Config) {
    |pairs| >= window + 10 && exists signals, book :: CrossesAt(signals, book, pairs, window, entryZ, cfg) && !Tradable(book, pairs)
  }

  /** The Sharpe ratio and the number of trades of the run with these parameters. */
  ghost predicate Scores(sharpe: real, trades: nat, pairs: seq<Pair>, window: nat, entryZ: real, cfg: Config) {
    if |pairs| < window + 10 then sharpe == 0.0 && trades == 0
    else exists run, gains :: ScoredBy(sharpe, trades, run, gains, pairs, window, entryZ, cfg)
  }

  ghost predicate ScoredBy(sharpe: real, trades: nat, run: seq<TradeRecord>, gains: seq<real>, pairs: seq<Pair>,
                           window: nat, entryZ: real, cfg: Config) {
    && AreRunTrades(run, pairs, window, entryZ, cfg) && M.AreGains(gains, run, cfg.sizing.capital)
    && trades == |run| && sharpe == if |run| < 2 then 0.0 else Round4(cfg.ratios.sharpe(gains))
  }

  /** The other figures of the run. */
  ghost predicate Earns(netPnl: real, winRate: real, maxDrawdownPct: real, pairs: seq<Pair>, window: nat, entryZ: real, cfg: Config) {
    if |pairs| < window + 10 then netPnl == winRate == maxDrawdownPct == 0.0
    else exists run :: AreRunTrades(run, pairs, window, entryZ, cfg) && EarnedBy(netPnl, winRate, maxDrawdownPct, run, cfg)
  }

  ghost predicate EarnedBy(netPnl: real, winRate: real, maxDrawdownPct: real, run: seq<TradeRecord>, cfg: Config) {
    && netPnl == Round4(Total(M.NetPnls(run)))
    && winRate == (if run == [] then 0.0 else Round4(M.Wins(M.NetPnls(run)) as real / |run| as real))
    && maxDrawdownPct == (if run == [] then 0.0 else Round4(Worst(Curve(cfg.sizing.capital, M.NetPnls(run))) * 100.0))
  }

  lemma StatArbCrosses(pairs: seq<Pair>, p: Params, cfg: Config)
    requires p.exitZ == cfg.exitZ && p.sizing == cfg.sizing
    ensures exists signals, book :: CrossesAt(signals, book, pairs, p.window, p.entryZ, cfg) && book == StatBook(pairs, p, cfg.score)
  {
    hide ThresholdSignals, Crossings, Simulate, StatSignals;
    var signals := StatSignals(pairs, p, cfg.score);
    SignalsFollowThresholds(signals, pairs, p, cfg.score);
    SimulateIffCrossings(StatBook(pairs, p, cfg.score), signals);
    assert CrossesAt(signals, StatBook(pairs, p, cfg.score), pairs, p.window, p.entryZ, cfg);
  }

  lemma RaisedIsUntradable(pairs: seq<Pair>, p: Params, cfg: Config)
    requires p.exitZ == cfg.exitZ && p.sizing == cfg.sizing
    ensures StatArb(pairs, p, cfg.score).Raised? <==> Untradable(pairs, p.window, p.entryZ, cfg)
  {
    hide ThresholdSignals, Crossings, Simulate, StatSignals, Tradable, StatTrades;
    StatArbCrosses(pairs, p, cfg);
    if signals, book :| CrossesAt(signals, book, pairs, p.window, p.entryZ, cfg) && !Tradable(book, pairs) {
      SignalsFollowThresholds(signals, pairs, p, cfg.score);
      SimulateIffCrossings(book, signals);
    }
  }

  lemma DoneAreRunTrades(pairs: seq<Pair>, p: Params, cfg: Config)
    requires p.exitZ == cfg.exitZ && p.sizing == cfg.sizing && StatArb(pairs, p, cfg.score).Done?
    ensures AreRunTrades(StatArb(pairs, p, cfg.score).trades, pairs, p.window, p.entryZ, cfg)
  {
    hide ThresholdSignals, Crossings, Simulate, StatSignals, Tradable, TradesFollow, StatTrades;
    StatArbCrosses(pairs, p, cfg);
    var signals, book :| CrossesAt(signals, book, pairs, p.window, p.entryZ, cfg) && book == StatBook(pairs, p, cfg.score);
    TradesAreCrossings(pairs, p, cfg.score, signals, book);
  }

  /** What a run with these parameters reports; none exactly when a position opens at price zero. */
  lemma RunMeaning(pairs: seq<Pair>, window: nat, entryZ: real, cfg: Config)
    ensures var r := RunOn(pairs, window, entryZ, cfg);
            && (r.None? <==> Untradable(pairs, window, entryZ, cfg))
            && (r.Some? ==> Scores(r.value.sharpe, r.value.totalTrades, pairs, window, entryZ, cfg)
                            && Earns(r.value.netPnl, r.value.winRate, r.value.maxDrawdownPct, pairs, window, entryZ, cfg))
  {
    hide StatBook, Tradable, AreRunTrades, StatTrades, Untradable, M.MetricsOf, M.AreGains;
    var p := Params(window, entryZ, cfg.exitZ, cfg.sizing);
    RaisedIsUntradable(pairs, p, cfg);
    var out := StatArb(pairs, p, cfg.score);
    if out.Done? {
      DoneAreRunTrades(pairs, p, cfg);
      var gains := M.Returns(Curve(cfg.sizing.capital, M.NetPnls(out.trades)));
      M.GainsOfCurve(out.trades, cfg.sizing.capital);
      M.RatiosAreReported(out.trades, cfg.sizing.capital, cfg.ratios, gains);
      FiguresReported(out.trades, cfg);
      var m := M.MetricsOf(out.trades, cfg.sizing.capital, cfg.ratios);
      assert ScoredBy(m.sharpe, m.totalTrades, out.trades, gains, pairs, window, entryZ, cfg);
    }
  }

  lemma FiguresReported(trades: seq<TradeRecord>, cfg: Config)
    ensures var m := M.MetricsOf(trades, cfg.sizing.capital, cfg.ratios);
            m.totalTrades == |trades| && EarnedBy(m.netPnl, m.winRate, m.maxDrawdownPct, trades, cfg)
  {
    M.NetPnlIsTotal(trades, cfg.sizing.capital, cfg.ratios);
    hide Round4, Round2, Worst, Curve, M.Returns, Total, M.Wins, M.NetPnls, M.RatioOf;
  }

  lemma {:induction false} CandidatesSize(pairs: seq<Pair>, windowGrid: seq<nat>, zGrid: seq<real>, cfg: Config)
    ensures |Candidates(pairs, windowGrid, zGrid, cfg)| == |windowGrid| * |zGrid|
  {
    hide Candidate;
    if windowGrid != [] {
      var n := |windowGrid| - 1;
      CandidatesSize(pairs, windowGrid[..n], zGrid, cfg);
      assert (n + 1) * |zGrid| == n * |zGrid| + |zGrid|;
    }
  }

  /** The grid is searched window by window. */
  lemma {:induction false} CandidateAt(pairs: seq<Pair>, windowGrid: seq<nat>, zGrid: seq<real>, cfg: Config, a: nat, b: nat)
    requires a < |windowGrid| && b < |zGrid|
    ensures var k := a * |zGrid| + b;
            0 <= k < |Candidates(pairs, windowGrid, zGrid, cfg)|
            && Candidates(pairs, windowGrid, zGrid, cfg)[k] == Candidate(pairs, windowGrid[a], zGrid[b], cfg)
  {
    hide Candidate;
    var n := |windowGrid| - 1;
    CandidatesSize(pairs, windowGrid[..n], zGrid, cfg);
    RowPrefix(pairs, windowGrid[n], zGrid, cfg, b);
    if a < n {
      CandidateAt(pairs, windowGrid[..n], zGrid, cfg, a, b);
    }
  }

  /** Position a * |zGrid| + b of the candidates is the pair (windowGrid[a], zGrid[b]) with what its
      run scores; it raised exactly when a position opens at price zero. */
  lemma CandidateMeaning(pairs: seq<Pair>, windowGrid: seq<nat>, zGrid: seq<real>, cfg: Config, a: nat, b: nat)
    requires a < |windowGrid| && b < |zGrid|
    ensures var k := a * |zGrid| + b;
            0 <= k < |Candidates(pairs, windowGrid, zGrid, cfg)|
            && var c := Candidates(pairs, windowGrid, zGrid, cfg)[k];
            && (c.None? <==> Untradable(pairs, windowGrid[a], zGrid[b], cfg))
            && (c.Some? ==>
                  && c.value.window == windowGrid[a] && c.value.entryZ == zGrid[b]
                  && Scores(c.value.isSharpe, c.value.isTrades, pairs, windowGrid[a], zGrid[b], cfg))
  {
    hide RunOn, Candidates, Untradable, Scores, Earns;
    CandidateAt(pairs, windowGrid, zGrid, cfg, a, b);
    RunMeaning(pairs, windowGrid[a], zGrid[b], cfg);
  }

  lemma GridPosition(k: nat, rows: nat, cols: nat) returns (a: nat, b: nat)
    requires k < rows * cols
    ensures a < rows && b < cols && k == a * cols + b
  {
    a, b := 0, k;
    while b >= cols
      invariant k == a * cols + b && a <= rows
      decreases b
    {
      a, b := a + 1, b - cols;
      assert a * cols == (a - 1) * cols + cols;
      if a >= rows { RowsBound(rows, a, cols); }
    }
    if a >= rows { RowsBound(rows, a, cols); }
  }

  lemma RowsBound(rows: nat, a: nat, cols: nat)
    requires rows <= a
    ensures rows * cols <= a * cols
  {
  }

  /** The pair (c, d) is no earlier in the grid than (a, b). */
  predicate NotBefore(c: nat, d: nat, a: nat, b: nat) {
    a < c || (a == c && b <= d)
  }

  lemma EarlierPosition(c: nat, d: nat, a: nat, b: nat, cols: nat)
    requires d < cols && !NotBefore(c, d, a, b)
    ensures c * cols + d < a * cols + b
  {
    if c < a { RowsBound(c + 1, a, cols); }
  }

  /** The choice is pair (a, b) of the grid: no other pair scores more, no earlier one as much. */
  ghost predicate IsGridBest(choice: Choice, pairs: seq<Pair>, windowGrid: seq<nat>, zGrid: seq<real>, cfg: Config, a: nat, b: nat) {
    && a < |windowGrid| && b < |zGrid| && choice.window == windowGrid[a] && choice.entryZ == zGrid[b]
    && Scores(choice.isSharpe, choice.isTrades, pairs, choice.window, choice.entryZ, cfg)
    && forall c: nat, d: nat :: c < |windowGrid| && d < |zGrid| ==>
         NoBetter(choice.isSharpe, !NotBefore(c, d, a, b), pairs, windowGrid[c], zGrid[d], cfg)
  }

  /** The run with these parameters scores at most this much, less if the comparison is strict. */
  ghost predicate NoBetter(best: real, strict: bool, pairs: seq<Pair>, window: nat, entryZ: real, cfg: Config) {
    exists sharpe, trades :: Scores(sharpe, trades, pairs, window, entryZ, cfg) && sharpe <= best && (strict ==> sharpe < best)
  }

  lemma ChosenIsGridBest(choice: Choice, pairs: seq<Pair>, windowGrid: seq<nat>, zGrid: seq<real>, cfg: Config) returns (a: nat, b: nat)
    requires Selects(Chosen(choice), Candidates(pairs, windowGrid, zGrid, cfg))
    ensures IsGridBest(choice, pairs, windowGrid, zGrid, cfg, a, b)
  {
    hide Candidates, Scores, Untradable;
    var candidates := Candidates(pairs, windowGrid, zGrid, cfg);
    var k: nat :| k < |candidates| && candidates[k] == Some(choice) && forall j :: 0 <= j < k ==> candidates[j].value.isSharpe < choice.isSharpe;
    CandidatesSize(pairs, windowGrid, zGrid, cfg);
    a, b := GridPosition(k, |windowGrid|, |zGrid|);
    CandidateMeaning(pairs, windowGrid, zGrid, cfg, a, b);
    forall c: nat, d: nat | c < |windowGrid| && d < |zGrid|
      ensures NoBetter(choice.isSharpe, !NotBefore(c, d, a, b), pairs, windowGrid[c], zGrid[d], cfg)
    {
      CandidateMeaning(pairs, windowGrid, zGrid, cfg, c, d);
      var other := candidates[c * |zGrid| + d].value;
      if !NotBefore(c, d, a, b) { EarlierPosition(c, d, a, b, |zGrid|); }
      assert Scores(other.isSharpe, other.isTrades, pairs, windowGrid[c], zGrid[d], cfg);
    }
  }

  /** A fold chose the first pair of the grid that scores best on its in-sample slice, and reports
      what the run with that pair earned on its out-of-sample slice. */
  lemma FoldMeaning(fold: Fold, pairs: seq<Pair>, w: Window, windowGrid: seq<nat>, zGrid: seq<real>, cfg: Config)
    requires IsFold(fold, pairs, w, windowGrid, zGrid, cfg)
    ensures w.isStart <= w.isEnd <= |pairs| && w.oosStart <= w.oosEnd <= |pairs|
    ensures exists a, b :: IsGridBest(fold.choice, pairs[w.isStart..w.isEnd], windowGrid, zGrid, cfg, a, b)
    ensures var c, oos := fold.choice, pairs[w.oosStart..w.oosEnd];
            && Scores(fold.oosSharpe, fold.oosTrades, oos, c.window, c.entryZ, cfg)
            && Earns(fold.oosNetPnl, fold.oosWinRate, fold.oosMaxDrawdownPct, oos, c.window, c.entryZ, cfg)
  {
    hide Candidates, RunOn, Scores, Earns, IsGridBest, Selects;
    var a, b := ChosenIsGridBest(fold.choice, pairs[w.isStart..w.isEnd], windowGrid, zGrid, cfg);
    RunMeaning(pairs[w.oosStart..w.oosEnd], fold.choice.window, fold.choice.entryZ, cfg);
  }

  datatype WfaResult = BadSizes | Failed | Folds(alignedCandles: nat, folds: seq<Fold>)

  /** Folds of every window in order. */
  method WalkForwardStatArb(spot: seq<Candle>, perp: seq<Candle>, windowGrid: seq<nat>, zGrid: seq<real>, cfg: Config,
                            isSize: int, oosSize: int, step: int)
    returns (result: WfaResult, ghost windows: seq<Window>)
    ensures result == BadSizes <==> isSize <= 0 || oosSize <= 0 || step <= 0
    ensures !result.BadSizes? ==>
              |windows| == WindowCount(|Align(spot, perp)|, isSize, oosSize, step)
              && forall k :: 0 <= k < |windows| ==> IsWindow(windows[k], k, isSize, oosSize, step)
    ensures result.Folds? ==>
              result.alignedCandles == |Align(spot, perp)| && |result.folds| == |windows|
              && forall k :: 0 <= k < |windows| ==> IsFold(result.folds[k], Align(spot, perp), windows[k], windowGrid, zGrid, cfg)
    ensures result.Failed? ==>
              exists k :: 0 <= k < |windows| && forall f :: !IsFold(f, Align(spot, perp), windows[k], windowGrid, zGrid, cfg)
  {
    hide Align, Aligned, IsFold, WindowCount;
    var pairs := AlignByTs(spot, perp);
    AlignIsAligned(spot, perp);
    var wins := WfaWindows(|pairs|, isSize, oosSize, step);
    if wins.None? {
      return BadSizes, [];
    }
    windows := wins.value;
    var folds: seq<Fold> := [];
    for k := 0 to |wins.value|
      invariant |folds| == k
      invariant forall j :: 0 <= j < k ==> IsFold(folds[j], pairs, wins.value[j], windowGrid, zGrid, cfg)
    {
      var w := wins.value[k];
      WindowsFit(|pairs|, isSize, oosSize, step, w, k);
      var fold := RunFold(pairs, w, windowGrid, zGrid, cfg);
      if fold.None? {
        return Failed, windows;
      }
      folds := folds + [fold.value];
    }
    return Folds(|pairs|, folds), windows;
  }

  // ---- Non-interference ------------------------------------------------------------------------

  /** Data that agree before the out-of-sample start lead to the same choice. */
  lemma ChoiceIgnoresOutOfSample(f: Fold, g: Fold, pairs: seq<Pair>, pairs': seq<Pair>, w: Window,
                                 windowGrid: seq<nat>, zGrid: seq<real>, cfg: Config)
    requires w.isEnd == w.oosStart && w.oosStart <= |pairs| && w.oosStart <= |pairs'|
    requires pairs[..w.oosStart] == pairs'[..w.oosStart]
    requires IsFold(f, pairs, w, windowGrid, zGrid, cfg) && IsFold(g, pairs', w, windowGrid, zGrid, cfg)
    ensures f.choice == g.choice
  {
    hide Selects, Candidates, RunOn;
    assert pairs[w.isStart..w.isEnd] == pairs[..w.oosStart][w.isStart..w.isEnd];
    assert pairs'[w.isStart..w.isEnd] == pairs'[..w.oosStart][w.isStart..w.isEnd];
    SameChoice(f.choice, g.choice, Candidates(pairs[w.isStart..w.isEnd], windowGrid, zGrid, cfg));
  }

  /** Appending candles changes no earlier fold. */
  lemma FoldsAreStable(f: Fold, g: Fold, pairs: seq<Pair>, k: nat, w: Window,
                       windowGrid: seq<nat>, zGrid: seq<real>, cfg: Config)
    requires k <= |pairs|
    requires IsFold(f, pairs[..k], w, windowGrid, zGrid, cfg) && IsFold(g, pairs, w, windowGrid, zGrid, cfg)
    ensures f == g
  {
    hide Selects, Candidates, RunOn;
    assert pairs[..k][w.isStart..w.isEnd] == pairs[w.isStart..w.isEnd];
    assert pairs[..k][w.oosStart..w.oosEnd] == pairs[w.oosStart..w.oosEnd];
    SameChoice(f.choice, g.choice, Candidates(pairs[w.isStart..w.isEnd], windowGrid, zGrid, cfg));
  }

  /** The same over raw candles: two data sets that agree before time t lead to the same choice
      in every window whose in-sample part ends before t, whatever candles follow in either
      series, although alignment indexes all of them. */
  lemma FutureCandlesDoNotChoose(spot: seq<Candle>, perp: seq<Candle>, spot': seq<Candle>, perp': seq<Candle>, t: int,
                                 f: Fold, g: Fold, w: Window, windowGrid: seq<nat>, zGrid: seq<real>, cfg: Config)
    requires Chronological(spot) && Chronological(spot')
    requires Before(spot, t) == Before(spot', t) && Before(perp, t) == Before(perp', t)
    requires w.isEnd == w.oosStart <= |Align(Before(spot, t), Before(perp, t))|
    requires IsFold(f, Align(spot, perp), w, windowGrid, zGrid, cfg)
    requires IsFold(g, Align(spot', perp'), w, windowGrid, zGrid, cfg)
    ensures f.choice == g.choice
  {
    hide Align, Before, IsFold;
    AlignBeforeIsPrefix(spot, perp, t);
    AlignBeforeIsPrefix(spot', perp', t);
    var early := Align(Before(spot, t), Before(perp, t));
    assert early[..w.oosStart] == Align(spot, perp)[..w.oosStart];
    assert early[..w.oosStart] == Align(spot', perp')[..w.oosStart];
    ChoiceIgnoresOutOfSample(f, g, Align(spot, perp), Align(spot', perp'), w, windowGrid, zGrid, cfg);
  }
}
