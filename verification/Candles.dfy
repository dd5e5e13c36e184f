/** Candles and the alignment of a spot and a perpetual series by timestamp:
    services/backtest/app/engine.py and services/backtest/app/walk_forward.py. */
module Candles {
  import opened Options

  datatype Candle = Candle(ts: int, dt: string, mid: real, close: real)

  datatype Pair = Pair(spot: Candle, perp: Candle)

  /** The entry of {c["ts"]: c for c in candles} under ts: the last candle with that key. */
  function Lookup(candles: seq<Candle>, ts: int): (found: Option<Candle>)
    ensures found.Some? ==> found.value.ts == ts && found.value in candles
  {
    if candles == [] then None
    else
      var last := candles[|candles| - 1];
      if last.ts == ts then Some(last) else Lookup(candles[..|candles| - 1], ts)
  }

  /** Spot candles that have a perpetual candle, paired with it. */
  function Align(spot: seq<Candle>, perp: seq<Candle>): seq<Pair> {
    if spot == [] then []
    else
      var init, last := Align(spot[..|spot| - 1], perp), spot[|spot| - 1];
      match Lookup(perp, last.ts)
      case None => init
      case Some(c) => init + [Pair(last, c)]
  }

  method IndexByTs(candles: seq<Candle>) returns (byTs: map<int, Candle>)
    ensures forall ts :: Lookup(candles, ts) == if ts in byTs then Some(byTs[ts]) else None
  {
    byTs := map[];
    for i := 0 to |candles|
      invariant forall ts :: Lookup(candles[..i], ts) == if ts in byTs then Some(byTs[ts]) else None
    {
      assert candles[..i + 1][..i] == candles[..i];
      byTs := byTs[candles[i].ts := candles[i]];
    }
    assert candles[..|candles|] == candles;
  }

  method AlignByTs(spot: seq<Candle>, perp: seq<Candle>) returns (pairs: seq<Pair>)
    ensures pairs == Align(spot, perp)
  {
    var perpByTs := IndexByTs(perp);
    pairs := [];
    for i := 0 to |spot|
      invariant pairs == Align(spot[..i], perp)
    {
      assert spot[..i + 1][..i] == spot[..i];
      if spot[i].ts in perpByTs {
        pairs := pairs + [Pair(spot[i], perpByTs[spot[i].ts])];
      }
    }
    assert spot[..|spot|] == spot;
  }

  lemma {:induction false} AlignLooksUp(spot: seq<Candle>, perp: seq<Candle>)
    ensures forall i :: 0 <= i < |Align(spot, perp)| ==>
              Align(spot, perp)[i].spot in spot
              && Lookup(perp, Align(spot, perp)[i].spot.ts) == Some(Align(spot, perp)[i].perp)
  {
    if spot != [] {
      AlignLooksUp(spot[..|spot| - 1], perp);
    }
  }

  /** The candle at i has this timestamp and no later one has. */
  ghost predicate LastWith(candles: seq<Candle>, ts: int, i: nat) {
    i < |candles| && candles[i].ts == ts && forall j :: i < j < |candles| ==> candles[j].ts != ts
  }

  ghost predicate FoundLast(candles: seq<Candle>, ts: int, c: Candle) {
    exists i: nat :: LastWith(candles, ts, i) && candles[i] == c
  }

  lemma LastStays(candles: seq<Candle>, ts: int, c: Candle, d: Candle)
    requires FoundLast(candles, ts, c) && d.ts != ts
    ensures FoundLast(candles + [d], ts, c)
  {
    var i: nat :| LastWith(candles, ts, i) && candles[i] == c;
    assert LastWith(candles + [d], ts, i);
  }

  lemma LastIsLast(candles: seq<Candle>, d: Candle)
    ensures FoundLast(candles + [d], d.ts, d)
  {
    assert LastWith(candles + [d], d.ts, |candles|);
  }

  /** A lookup finds the last candle with the timestamp, and none exactly when there is none. */
  lemma {:induction false} LookupIsLast(candles: seq<Candle>, ts: int)
    ensures Lookup(candles, ts).None? <==> forall i :: 0 <= i < |candles| ==> candles[i].ts != ts
    ensures Lookup(candles, ts).Some? ==> FoundLast(candles, ts, Lookup(candles, ts).value)
  {
    if candles != [] {
      hide FoundLast;
      var init, d := candles[..|candles| - 1], candles[|candles| - 1];
      LookupIsLast(init, ts);
      assert init + [d] == candles;
      if d.ts == ts {
        LastIsLast(init, d);
      } else if Lookup(init, ts).Some? {
        LastStays(init, ts, Lookup(init, ts).value, d);
      }
    }
  }

  ghost predicate Shared(perp: seq<Candle>, ts: int) {
    exists j :: 0 <= j < |perp| && perp[j].ts == ts
  }

  /** The pairs are, in order and once each, the spot candles whose timestamp some perpetual candle
      shares; kept[k] is where pair k comes from. */
  ghost predicate KeptFrom(spot: seq<Candle>, perp: seq<Candle>, pairs: seq<Pair>, kept: seq<nat>) {
    && |kept| == |pairs| && (forall j, k :: 0 <= j < k < |kept| ==> kept[j] < kept[k])
    && (forall k :: 0 <= k < |kept| ==> kept[k] < |spot| && pairs[k].spot == spot[kept[k]])
    && forall i: nat :: i < |spot| ==> (i in kept <==> Shared(perp, spot[i].ts))
  }

  lemma KeptGrows(spot: seq<Candle>, c: Candle, perp: seq<Candle>, pairs: seq<Pair>, kept: seq<nat>, found: Candle)
    requires KeptFrom(spot, perp, pairs, kept)
    ensures !Shared(perp, c.ts) ==> KeptFrom(spot + [c], perp, pairs, kept)
    ensures Shared(perp, c.ts) ==> KeptFrom(spot + [c], perp, pairs + [Pair(c, found)], kept + [|spot|])
  {
    hide Shared;
    assert |spot| !in kept;
  }

  lemma {:induction false} AlignKeepsMatches(spot: seq<Candle>, perp: seq<Candle>) returns (kept: seq<nat>)
    ensures KeptFrom(spot, perp, Align(spot, perp), kept)
  {
    kept := [];
    if spot != [] {
      var init, c := spot[..|spot| - 1], spot[|spot| - 1];
      kept := AlignKeepsMatches(init, perp);
      LookupIsLast(perp, c.ts);
      var found := Lookup(perp, c.ts);
      KeptGrows(init, c, perp, Align(init, perp), kept, if found.Some? then found.value else c);
      assert init + [c] == spot;
      hide KeptFrom, Lookup;
      if found.Some? { kept := kept + [|init|]; }
    }
  }

  // ---- Aligning twice ---------------------------------------------------------------------------

  /** Pairs that an alignment, or a slice of one, can hold. */
  ghost predicate Aligned(pairs: seq<Pair>) {
    && (forall i :: 0 <= i < |pairs| ==> pairs[i].spot.ts == pairs[i].perp.ts)
    && (forall i, j :: 0 <= i < |pairs| && 0 <= j < |pairs| && pairs[i].spot.ts == pairs[j].spot.ts
                       ==> pairs[i].perp == pairs[j].perp)
  }

  function Spots(pairs: seq<Pair>): (candles: seq<Candle>)
    ensures |candles| == |pairs| && forall i :: 0 <= i < |pairs| ==> candles[i] == pairs[i].spot
  {
    if pairs == [] then [] else Spots(pairs[..|pairs| - 1]) + [pairs[|pairs| - 1].spot]
  }

  function Perps(pairs: seq<Pair>): (candles: seq<Candle>)
    ensures |candles| == |pairs| && forall i :: 0 <= i < |pairs| ==> candles[i] == pairs[i].perp
  {
    if pairs == [] then [] else Perps(pairs[..|pairs| - 1]) + [pairs[|pairs| - 1].perp]
  }

  lemma AlignIsAligned(spot: seq<Candle>, perp: seq<Candle>)
    ensures Aligned(Align(spot, perp))
  {
    hide Align;
    AlignLooksUp(spot, perp);
  }

  lemma SliceIsAligned(pairs: seq<Pair>, from: nat, to: nat)
    requires Aligned(pairs) && from <= to <= |pairs|
    ensures Aligned(pairs[from..to])
  {
  }

  lemma {:induction false} LookupPerp(pairs: seq<Pair>, i: nat)
    requires Aligned(pairs) && i < |pairs|
    ensures Lookup(Perps(pairs), pairs[i].spot.ts) == Some(pairs[i].perp)
  {
    var n := |pairs|;
    assert Perps(pairs)[..n - 1] == Perps(pairs[..n - 1]);
    if pairs[n - 1].perp.ts != pairs[i].spot.ts {
      LookupPerp(pairs[..n - 1], i);
    }
  }

  lemma {:induction false} AlignAll(spot: seq<Candle>, perp: seq<Candle>, pairs: seq<Pair>)
    requires |spot| == |pairs|
    requires forall i :: 0 <= i < |pairs| ==> spot[i] == pairs[i].spot && Lookup(perp, spot[i].ts) == Some(pairs[i].perp)
    ensures Align(spot, perp) == pairs
  {
    hide Lookup;
    if spot != [] {
      var n := |spot| - 1;
      AlignAll(spot[..n], perp, pairs[..n]);
      assert spot[n] == pairs[n].spot;
      assert pairs == pairs[..n] + [pairs[n]];
    }
  }

  /** Aligning the two halves of an aligned series again changes nothing. */
  lemma RealignIsIdentity(pairs: seq<Pair>)
    requires Aligned(pairs)
    ensures Align(Spots(pairs), Perps(pairs)) == pairs
  {
    hide Align, Lookup, Aligned;
    forall i | 0 <= i < |pairs| ensures Lookup(Perps(pairs), Spots(pairs)[i].ts) == Some(pairs[i].perp) {
      LookupPerp(pairs, i);
    }
    AlignAll(Spots(pairs), Perps(pairs), pairs);
  }

  // ---- Cutting the data at a time -----------------------------------------------------------------

  /** The candles before time t. */
  function Before(candles: seq<Candle>, t: int): seq<Candle> {
    if candles == [] then []
    else
      var init, last := Before(candles[..|candles| - 1], t), candles[|candles| - 1];
      if last.ts < t then init + [last] else init
  }

  ghost predicate Chronological(candles: seq<Candle>) {
    forall i, j :: 0 <= i < j < |candles| ==> candles[i].ts <= candles[j].ts
  }

  lemma {:induction false} LookupBefore(candles: seq<Candle>, t: int, ts: int)
    requires ts < t
    ensures Lookup(Before(candles, t), ts) == Lookup(candles, ts)
  {
    if candles != [] {
      var init, last := candles[..|candles| - 1], candles[|candles| - 1];
      LookupBefore(init, t, ts);
      if last.ts < t {
        assert (Before(init, t) + [last])[..|Before(init, t)|] == Before(init, t);
      }
    }
  }

  lemma {:induction false} AllBefore(candles: seq<Candle>, t: int)
    requires forall i :: 0 <= i < |candles| ==> candles[i].ts < t
    ensures Before(candles, t) == candles
  {
    if candles != [] {
      AllBefore(candles[..|candles| - 1], t);
      assert candles == candles[..|candles| - 1] + [candles[|candles| - 1]];
    }
  }

  lemma {:induction false} AlignBefore(spot: seq<Candle>, perp: seq<Candle>, t: int)
    requires forall i :: 0 <= i < |spot| ==> spot[i].ts < t
    ensures Align(spot, Before(perp, t)) == Align(spot, perp)
  {
    if spot != [] {
      AlignBefore(spot[..|spot| - 1], perp, t);
      LookupBefore(perp, t, spot[|spot| - 1].ts);
    }
  }

  /** Candles from t on never reach the pairs before t, although the perpetual index is built
      from all of them. */
  lemma {:induction false} AlignBeforeIsPrefix(spot: seq<Candle>, perp: seq<Candle>, t: int)
    requires Chronological(spot)
    ensures Align(Before(spot, t), Before(perp, t)) <= Align(spot, perp)
    ensures forall i :: |Align(Before(spot, t), Before(perp, t))| <= i < |Align(spot, perp)| ==> Align(spot, perp)[i].spot.ts >= t
  {
    if spot != [] {
      var init, last := spot[..|spot| - 1], spot[|spot| - 1];
      if last.ts < t {
        AllBefore(spot, t);
        hide Align;
        AlignBefore(spot, perp, t);
      } else {
        AlignBeforeIsPrefix(init, perp, t);
        hide Before, Chronological;
        CutLast(spot, t);
      }
    }
  }

  lemma CutLast(candles: seq<Candle>, t: int)
    requires candles != [] && candles[|candles| - 1].ts >= t
    ensures Before(candles, t) == Before(candles[..|candles| - 1], t)
  {
  }

  lemma {:induction false} BeforeMeans(candles: seq<Candle>, t: int)
    ensures forall i :: 0 <= i < |Before(candles, t)| ==> Before(candles, t)[i].ts < t
  {
    if candles != [] { BeforeMeans(candles[..|candles| - 1], t); }
  }

  lemma PairsBefore(spot: seq<Candle>, perp: seq<Candle>, t: int)
    ensures forall i :: 0 <= i < |Align(Before(spot, t), perp)| ==> Align(Before(spot, t), perp)[i].spot.ts < t
  {
    hide Align, Before;
    BeforeMeans(spot, t);
    AlignLooksUp(Before(spot, t), perp);
  }
}
