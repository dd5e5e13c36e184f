/** One position at a time over a series of signals: the in_position machine that both
    simulations in services/backtest/app/engine.py run, and the declarative reading of it
    as alternating first crossings. */
module Signals {

  /** What one candle or funding period permits. */
  datatype Signal = Signal(enter: bool, exit: bool)

  datatype Round = Round(entry: nat, exit: nat)

  datatype Phase = Flat | Holding(entry: nat)

  datatype Book = Book(rounds: seq<Round>, phase: Phase)

  /** One iteration: enter when flat, else leave when holding; never both on one candle. */
  function Next(book: Book, s: Signal, i: nat): Book {
    if book.phase.Flat? && s.enter then Book(book.rounds, Holding(i))
    else if book.phase.Holding? && s.exit then Book(book.rounds + [Round(book.phase.entry, i)], Flat)
    else book
  }

  function Simulate(signals: seq<Signal>): Book {
    if signals == [] then Book([], Flat)
    else Next(Simulate(signals[..|signals| - 1]), signals[|signals| - 1], |signals| - 1)
  }

  // ---- First crossings -------------------------------------------------------------------

  ghost predicate NoEntry(signals: seq<Signal>, from: nat, to: nat) {
    forall i :: from <= i < to && i < |signals| ==> !signals[i].enter
  }

  ghost predicate NoExit(signals: seq<Signal>, from: nat, to: nat) {
    forall i :: from <= i < to && i < |signals| ==> !signals[i].exit
  }

  /** The first index at which a new position may open after k rounds. */
  function FreeFrom(rounds: seq<Round>, k: nat): nat
    requires k <= |rounds|
  {
    if k == 0 then 0 else rounds[k - 1].exit + 1
  }

  /** e is the first entry signal from index `from` on. */
  ghost predicate FirstEntry(signals: seq<Signal>, from: nat, e: nat) {
    from <= e < |signals| && signals[e].enter && NoEntry(signals, from, e)
  }

  /** x is the first exit signal after the entry at e. */
  ghost predicate FirstExit(signals: seq<Signal>, e: nat, x: nat) {
    e < x < |signals| && signals[x].exit && NoExit(signals, e + 1, x)
  }

  ghost predicate RoundAt(rounds: seq<Round>, k: nat, signals: seq<Signal>)
    requires k < |rounds|
  {
    FirstEntry(signals, FreeFrom(rounds, k), rounds[k].entry) && FirstExit(signals, rounds[k].entry, rounds[k].exit)
  }

  /** After the last exit: no entry signal, or one open position without an exit signal. */
  ghost predicate Tail(phase: Phase, from: nat, signals: seq<Signal>) {
    match phase
    case Flat => from <= |signals| && NoEntry(signals, from, |signals|)
    case Holding(e) => FirstEntry(signals, from, e) && NoExit(signals, e + 1, |signals|)
  }

  /** Every round opens at the first entry signal after the previous round and closes at the
      first exit signal after that; what follows the last round is one open position at
      most, and no signal that would have been taken was missed. */
  ghost predicate Crossings(book: Book, signals: seq<Signal>) {
    && (forall k :: 0 <= k < |book.rounds| ==> RoundAt(book.rounds, k, signals))
    && Tail(book.phase, FreeFrom(book.rounds, |book.rounds|), signals)
  }

  /** Adding one signal and one round keeps every round found so far. */
  lemma RoundAtGrows(rounds: seq<Round>, rounds': seq<Round>, k: nat, signals: seq<Signal>, s: Signal)
    requires k < |rounds| && rounds <= rounds' && RoundAt(rounds, k, signals)
    ensures RoundAt(rounds', k, signals + [s])
  {
  }

  lemma FirstsGrow(signals: seq<Signal>, s: Signal, from: nat, e: nat, x: nat)
    ensures FirstEntry(signals, from, e) ==> FirstEntry(signals + [s], from, e)
    ensures FirstExit(signals, e, x) ==> FirstExit(signals + [s], e, x)
  {
  }

  lemma NoneGrow(signals: seq<Signal>, s: Signal, from: nat)
    requires from <= |signals|
    ensures NoEntry(signals, from, |signals|) && !s.enter ==> NoEntry(signals + [s], from, |signals| + 1)
    ensures NoEntry(signals, from, |signals|) && s.enter ==> FirstEntry(signals + [s], from, |signals|)
    ensures NoExit(signals, from, |signals|) && !s.exit ==> NoExit(signals + [s], from, |signals| + 1)
    ensures NoExit(signals, from, |signals|) && s.exit && from > 0 ==> FirstExit(signals + [s], from - 1, |signals|)
  {
  }

  lemma NothingAfterEnd(signals: seq<Signal>)
    ensures NoEntry(signals, |signals|, |signals|) && NoExit(signals, |signals|, |signals|)
  {
  }

  lemma CrossingsStep(book: Book, signals: seq<Signal>, s: Signal)
    requires Crossings(book, signals)
    ensures Crossings(Next(book, s, |signals|), signals + [s])
  {
    hide NoEntry, NoExit, FirstEntry, FirstExit, RoundAt, FreeFrom;
    var after, n := Next(book, s, |signals|), |book.rounds|;
    forall k | 0 <= k < n ensures RoundAt(after.rounds, k, signals + [s]) {
      RoundAtGrows(book.rounds, after.rounds, k, signals, s);
    }
    TailStep(book, signals, s);
  }

  /** A step that closes a round closes it at its first exit, and leaves the right tail. */
  lemma TailStep(book: Book, signals: seq<Signal>, s: Signal)
    requires Tail(book.phase, FreeFrom(book.rounds, |book.rounds|), signals)
    ensures var after, n := Next(book, s, |signals|), |book.rounds|;
            && Tail(after.phase, FreeFrom(after.rounds, |after.rounds|), signals + [s])
            && (|after.rounds| > n ==> RoundAt(after.rounds, n, signals + [s]))
  {
    hide NoEntry, NoExit, FirstExit;
    var from := FreeFrom(book.rounds, |book.rounds|);
    NothingAfterEnd(signals + [s]);
    match book.phase
    case Flat =>
      NoneGrow(signals, s, from);
    case Holding(e) =>
      FirstsGrow(signals, s, from, e, e);
      NoneGrow(signals, s, e + 1);
  }

  lemma NoSignals()
    ensures Crossings(Simulate([]), [])
  {
  }

  lemma {:induction false} SimulateCrosses(signals: seq<Signal>)
    ensures Crossings(Simulate(signals), signals)
  {
    hide Crossings, Next;
    if signals == [] {
      NoSignals();
    } else {
      var init := signals[..|signals| - 1];
      SimulateCrosses(init);
      CrossingsStep(Simulate(init), init, signals[|signals| - 1]);
      assert init + [signals[|signals| - 1]] == signals;
    }
  }

  /** The first index with a property is unique. */
  lemma FirstEntryUnique(signals: seq<Signal>, from: nat, e: nat, e': nat)
    requires FirstEntry(signals, from, e) && FirstEntry(signals, from, e')
    ensures e == e'
  {
  }

  lemma FirstExitUnique(signals: seq<Signal>, e: nat, x: nat, x': nat)
    requires FirstExit(signals, e, x) && FirstExit(signals, e, x')
    ensures x == x'
  {
  }

  lemma FreeFromPrefix(a: seq<Round>, b: seq<Round>, k: nat)
    requires k <= |a| && k <= |b| && a[..k] == b[..k]
    ensures FreeFrom(a, k) == FreeFrom(b, k)
  {
  }

  lemma {:induction false} RoundsAgree(a: Book, b: Book, signals: seq<Signal>, k: nat)
    requires Crossings(a, signals) && Crossings(b, signals)
    requires k <= |a.rounds| && k <= |b.rounds|
    ensures a.rounds[..k] == b.rounds[..k]
  {
    hide FirstEntry, FirstExit, FreeFrom, Tail;
    if k > 0 {
      RoundsAgree(a, b, signals, k - 1);
      FreeFromPrefix(a.rounds, b.rounds, k - 1);
      assert RoundAt(a.rounds, k - 1, signals) && RoundAt(b.rounds, k - 1, signals);
      FirstEntryUnique(signals, FreeFrom(a.rounds, k - 1), a.rounds[k - 1].entry, b.rounds[k - 1].entry);
      FirstExitUnique(signals, a.rounds[k - 1].entry, a.rounds[k - 1].exit, b.rounds[k - 1].exit);
      assert a.rounds[..k] == a.rounds[..k - 1] + [a.rounds[k - 1]];
      assert b.rounds[..k] == b.rounds[..k - 1] + [b.rounds[k - 1]];
    }
  }

  /** Where one run stops another cannot have a further round. */
  lemma TailHasNoRound(phase: Phase, from: nat, signals: seq<Signal>, r: Round)
    requires Tail(phase, from, signals) && FirstEntry(signals, from, r.entry)
    ensures !FirstExit(signals, r.entry, r.exit)
  {
  }

  lemma NoShorterBook(a: Book, b: Book, signals: seq<Signal>)
    requires Crossings(a, signals) && Crossings(b, signals)
    ensures |a.rounds| >= |b.rounds|
  {
    hide FirstEntry, FirstExit, FreeFrom, Tail;
    var n := |a.rounds|;
    if n < |b.rounds| {
      RoundsAgree(a, b, signals, n);
      FreeFromPrefix(a.rounds, b.rounds, n);
      assert RoundAt(b.rounds, n, signals);
      TailHasNoRound(a.phase, FreeFrom(a.rounds, n), signals, b.rounds[n]);
    }
  }

  /** The loop computes the only alternation of first crossings there is. */
  lemma SimulateIffCrossings(book: Book, signals: seq<Signal>)
    ensures Crossings(book, signals) <==> book == Simulate(signals)
  {
    hide RoundAt, Simulate;
    SimulateCrosses(signals);
    if Crossings(book, signals) {
      var b := Simulate(signals);
      NoShorterBook(book, b, signals);
      NoShorterBook(b, book, signals);
      var n := |book.rounds|;
      RoundsAgree(book, b, signals, n);
      assert book.rounds == book.rounds[..n] == b.rounds[..n] == b.rounds;
      PhasesAgree(book.phase, b.phase, FreeFrom(book.rounds, n), signals);
    }
  }

  lemma PhasesAgree(a: Phase, b: Phase, from: nat, signals: seq<Signal>)
    requires Tail(a, from, signals) && Tail(b, from, signals)
    ensures a == b
  {
  }

  /** Rounds never overlap and last at least one step. */
  lemma {:induction false} RoundsAreDisjoint(signals: seq<Signal>, j: nat, k: nat)
    requires j < k < |Simulate(signals).rounds|
    ensures var rounds := Simulate(signals).rounds;
            rounds[j].entry < rounds[j].exit < rounds[k].entry < rounds[k].exit < |signals|
    decreases k - j
  {
    hide Simulate, NoEntry, NoExit;
    SimulateCrosses(signals);
    var rounds := Simulate(signals).rounds;
    assert RoundAt(rounds, k, signals) && RoundAt(rounds, j, signals);
    if j < k - 1 { RoundsAreDisjoint(signals, j, k - 1); }
  }

  lemma RoundIsInside(signals: seq<Signal>, k: nat)
    requires k < |Simulate(signals).rounds|
    ensures Simulate(signals).rounds[k].entry < Simulate(signals).rounds[k].exit < |signals|
  {
    hide Simulate, NoEntry, NoExit;
    SimulateCrosses(signals);
    assert RoundAt(Simulate(signals).rounds, k, signals);
  }

  /** a lists exactly the rounds of b that end before index k. */
  ghost predicate RoundsBefore(a: seq<Round>, b: seq<Round>, k: nat) {
    && a <= b
    && (forall j :: 0 <= j < |a| ==> a[j].exit < k)
    && (forall j :: |a| <= j < |b| ==> b[j].exit >= k)
  }

  /** No look-ahead: a run over the first k signals is the full run up to there. */
  lemma {:induction false} PrefixOfRun(signals: seq<Signal>, k: nat)
    requires k <= |signals|
    ensures RoundsBefore(Simulate(signals[..k]).rounds, Simulate(signals).rounds, k)
    decreases |signals|
  {
    if k == |signals| {
      assert signals[..k] == signals;
      forall j | 0 <= j < |Simulate(signals).rounds| ensures Simulate(signals).rounds[j].exit < k {
        RoundIsInside(signals, j);
      }
    } else {
      var init := signals[..|signals| - 1];
      PrefixOfRun(init, k);
      assert init[..k] == signals[..k];
    }
  }
}
