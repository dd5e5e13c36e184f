/** Average-cost position accounting: shared/mezna_shared/pnl.py. */
module Pnl {
  import opened Decimals

  /** Quantities below this are treated as zero. */
  const EPS := 0.000000001

  datatype PositionState = PositionState(netQty: real, avgPrice: real, openFees: real)

  const FLAT := PositionState(0.0, 0.0, 0.0)

  datatype FillOutcome = FillOutcome(position: PositionState, realizedPnl: real, closed: bool, flipped: bool)

  datatype Fill = Fill(side: string, qty: real, price: real, fee: real)

  /** Every side other than "buy" sells. */
  function Direction(side: string): real {
    if side == "buy" then 1.0 else -1.0
  }

  function ClampedFee(fill: Fill): real {
    Max(fill.fee, 0.0)
  }

  /** No quantity or an unusable price: the fill leaves the position alone. */
  predicate Ignored(fill: Fill) {
    Abs(fill.qty) <= EPS || fill.price <= 0.0
  }

  /** The part of x that falls on c out of a. */
  function Share(x: real, c: real, a: real): real
    requires a != 0.0
  {
    x * (c / a)
  }

  /** The mean of x and y weighted by m and n. */
  function WeightedMean(x: real, m: real, y: real, n: real): real
    requires m + n != 0.0
  {
    (x * m + y * n) / (m + n)
  }

  /** What closing c of the position earns before fees. */
  function Gross(position: PositionState, price: real, c: real): real {
    if position.netQty > 0.0 then (price - position.avgPrice) * c else (position.avgPrice - price) * c
  }

  function ApplyFill(position: PositionState, fill: Fill): FillOutcome {
    var q, avg, of := position.netQty, position.avgPrice, position.openFees;
    var d, a, p, f := Direction(fill.side), Abs(fill.qty), fill.price, ClampedFee(fill);
    if a <= EPS || p <= 0.0 then
      FillOutcome(position, 0.0, false, false)
    else
      var cur := if q > EPS then 1.0 else if q < -EPS then -1.0 else 0.0;
      var prior := Abs(q);
      if cur == 0.0 || cur == d then
        var newAbs := prior + a;
        FillOutcome(PositionState(d * newAbs, WeightedMean(avg, prior, p, a), of + f), 0.0, false, false)
      else
        var c := Min(a, prior);
        var closeFee := Share(f, c, a);
        var entryFeePortion := Share(of, c, prior);
        var realized := Gross(position, p, c) - closeFee - entryFeePortion;
        var leftover := a - c;
        var remaining := prior - c;
        if leftover > EPS then
          FillOutcome(PositionState(d * leftover, p, f - closeFee), realized, true, true)
        else if remaining <= EPS then
          FillOutcome(FLAT, realized, true, false)
        else
          FillOutcome(PositionState(cur * remaining, avg, of - entryFeePortion), realized, false, false)
  }

  // ---- What a fill moves ------------------------------------------------

  function SignedQty(fill: Fill): real {
    if Ignored(fill) then 0.0 else Direction(fill.side) * Abs(fill.qty)
  }

  /** Cash received (negative: paid) for the fill, its clamped fee included. */
  function CashFlow(fill: Fill): real {
    if Ignored(fill) then 0.0 else -(Direction(fill.side) * Abs(fill.qty) * fill.price) - ClampedFee(fill)
  }

  /** The cost still carried in the position: entry cost plus unrealized fees. */
  function BookValue(position: PositionState): real {
    position.netQty * position.avgPrice + position.openFees
  }

  /** The fill opposes the position and leaves a remainder too small to keep. */
  predicate DropsDust(position: PositionState, fill: Fill) {
    !Ignored(fill) &&
    var q, s := position.netQty, SignedQty(fill);
    (q < 0.0 < s || s < 0.0 < q) &&
    (Abs(q) <= EPS || 0.0 < Abs(q + s) <= EPS)
  }

  /** The new net quantity is the signed sum exactly when no dust is dropped. */
  lemma NetQuantityExact(position: PositionState, fill: Fill)
    ensures ApplyFill(position, fill).position.netQty == position.netQty + SignedQty(fill)
            <==> !DropsDust(position, fill)
  {
  }

  /** 1 for a long position, -1 for a short one, 0 for one too small to count. */
  function SideOf(netQty: real): int {
    if netQty > EPS then 1 else if netQty < -EPS then -1 else 0
  }

  /** A fill closes an open position exactly when it leaves it flat or on the other side, and
      flips it exactly in the latter case. */
  lemma FlagsMeaning(position: PositionState, fill: Fill)
    ensures var o := ApplyFill(position, fill);
            var before, after := SideOf(position.netQty), SideOf(o.position.netQty);
            && (o.closed <==> before != 0 && after != before)
            && (o.flipped <==> before != 0 && after == -before)
  {
    hide Share, WeightedMean, Gross, ClampedFee;
  }

  lemma ShareWhole(x: real, a: real)
    requires a != 0.0
    ensures Share(x, a, a) == x
  {
  }

  lemma OpenConserves(position: PositionState, fill: Fill)
    requires !Ignored(fill) && !DropsDust(position, fill)
    requires Abs(position.netQty) <= EPS || (position.netQty > 0.0) == (Direction(fill.side) > 0.0)
    ensures var o := ApplyFill(position, fill);
            o.realizedPnl - BookValue(o.position) == CashFlow(fill) - BookValue(position)
  {
  }

  lemma NegateProduct(x: real, y: real)
    ensures -x * y == -(x * y)
  {
  }

  /** The algebra of closing c of the position: what the trade earns on c, plus the
      change of entry cost, is the cash for c. */
  lemma CloseAlgebra(q: real, avg: real, p: real, a: real, c: real)
    ensures (p - avg) * c == p * c - avg * c && (avg - p) * c == avg * c - p * c
    ensures (q - c) * avg == q * avg - avg * c && (q + c) * avg == q * avg + avg * c
    ensures (a - c) * p == a * p - p * c && (c - a) * p == p * c - a * p
  {
  }

  lemma CloseConserves(position: PositionState, fill: Fill)
    requires !Ignored(fill) && !DropsDust(position, fill)
    requires Abs(position.netQty) > EPS && (position.netQty > 0.0) != (Direction(fill.side) > 0.0)
    ensures var o := ApplyFill(position, fill);
            o.realizedPnl - BookValue(o.position) == CashFlow(fill) - BookValue(position)
  {
    hide WeightedMean, Share;
    var q, avg := position.netQty, position.avgPrice;
    var a, p := Abs(fill.qty), fill.price;
    CloseAlgebra(q, avg, p, a, Min(a, Abs(q)));
    NegateProduct(a, p);
    if a <= Abs(q) { ShareWhole(ClampedFee(fill), a); }
    if a >= Abs(q) { ShareWhole(position.openFees, Abs(q)); }
  }

  /** One fill conserves: what it realizes is its cash plus the change in carried cost. */
  lemma FillConserves(position: PositionState, fill: Fill)
    requires !DropsDust(position, fill)
    ensures var o := ApplyFill(position, fill);
            o.realizedPnl - BookValue(o.position) == CashFlow(fill) - BookValue(position)
  {
    if Ignored(fill) {
    } else if Abs(position.netQty) <= EPS || (position.netQty > 0.0) == (Direction(fill.side) > 0.0) {
      OpenConserves(position, fill);
    } else {
      CloseConserves(position, fill);
    }
  }

  // ---- Quantities on the 1e-8 grid ---------------------------------------

  lemma GridDropsNoDust(position: PositionState, fill: Fill)
    requires OnGrid8(position.netQty) && OnGrid8(fill.qty)
    ensures !DropsDust(position, fill)
    ensures OnGrid8(ApplyFill(position, fill).position.netQty)
  {
    var q, s := position.netQty, SignedQty(fill);
    GridClosed(0.0, fill.qty);
    assert OnGrid8(s);
    GridClosed(q, s);
    if Abs(q) <= EPS { GridSmallIsZero(q); }
    if Abs(q + s) <= EPS { GridSmallIsZero(q + s); }
    NetQuantityExact(position, fill);
  }

  // ---- Runs of fills -----------------------------------------------------

  datatype Tally = Tally(position: PositionState, realized: real)

  /** Apply the fills in order, adding up the realized P&L. */
  function Run(start: PositionState, fills: seq<Fill>): Tally {
    if fills == [] then Tally(start, 0.0)
    else
      var t := Run(start, fills[..|fills| - 1]);
      var o := ApplyFill(t.position, fills[|fills| - 1]);
      Tally(o.position, t.realized + o.realizedPnl)
  }

  function TotalSigned(fills: seq<Fill>): real {
    if fills == [] then 0.0 else TotalSigned(fills[..|fills| - 1]) + SignedQty(fills[|fills| - 1])
  }

  function TotalCash(fills: seq<Fill>): real {
    if fills == [] then 0.0 else TotalCash(fills[..|fills| - 1]) + CashFlow(fills[|fills| - 1])
  }

  ghost predicate AllOnGrid(fills: seq<Fill>) {
    forall i :: 0 <= i < |fills| ==> OnGrid8(fills[i].qty)
  }

  /** The books agree with a signed quantity and a cash total. */
  ghost predicate Balanced(t: Tally, signed: real, cash: real) {
    && t.realized - BookValue(t.position) == cash
    && t.position.netQty == signed
    && OnGrid8(signed)
    && (signed == 0.0 ==> t.position == FLAT)
  }

  lemma StepKeepsBalance(t: Tally, signed: real, cash: real, fill: Fill)
    requires Balanced(t, signed, cash) && OnGrid8(fill.qty)
    ensures var o := ApplyFill(t.position, fill);
            Balanced(Tally(o.position, t.realized + o.realizedPnl), signed + SignedQty(fill), cash + CashFlow(fill))
  {
    GridDropsNoDust(t.position, fill);
    NetQuantityExact(t.position, fill);
    FillConserves(t.position, fill);
    ZeroIsFlat(t.position, fill);
  }

  lemma ZeroIsFlat(position: PositionState, fill: Fill)
    requires OnGrid8(position.netQty) && (position.netQty == 0.0 ==> position == FLAT)
    ensures ApplyFill(position, fill).position.netQty == 0.0 ==> ApplyFill(position, fill).position == FLAT
  {
  }

  /** Over any run from flat, realized P&L less the carried cost is the cash paid and
      received, and the net quantity is the signed sum. */
  lemma {:induction false} RunConserves(fills: seq<Fill>)
    requires AllOnGrid(fills)
    ensures Balanced(Run(FLAT, fills), TotalSigned(fills), TotalCash(fills))
  {
    if fills == [] {
    } else {
      hide Balanced, ApplyFill, SignedQty, CashFlow;
      RunConserves(fills[..|fills| - 1]);
      StepKeepsBalance(Run(FLAT, fills[..|fills| - 1]), TotalSigned(fills[..|fills| - 1]),
                       TotalCash(fills[..|fills| - 1]), fills[|fills| - 1]);
    }
  }

  /** A run that ends flat has realized exactly its cash. */
  lemma FlatRunRealizesCash(fills: seq<Fill>)
    requires AllOnGrid(fills)
    requires TotalSigned(fills) == 0.0
    ensures Run(FLAT, fills) == Tally(FLAT, TotalCash(fills))
  {
    hide *;
    RunConserves(fills);
    BalancedFlat(Run(FLAT, fills), TotalCash(fills));
  }

  lemma BalancedFlat(t: Tally, cash: real)
    requires Balanced(t, 0.0, cash)
    ensures t == Tally(FLAT, cash)
  {
    assert t.position == FLAT;
    FlatBookValue(t.position);
  }

  lemma FlatBookValue(s: PositionState)
    requires s == FLAT
    ensures BookValue(s) == 0.0
  {
  }

  /** The entry price of an open position stays within any bounds all prices respect,
      and carried fees are never negative. */
  lemma {:induction false} EntryPriceWithinFillPrices(fills: seq<Fill>, lo: real, hi: real)
    requires AllOnGrid(fills)
    requires forall i :: 0 <= i < |fills| && !Ignored(fills[i]) ==> lo <= fills[i].price <= hi
    ensures var s := Run(FLAT, fills).position;
            s.openFees >= 0.0 && (s.netQty != 0.0 ==> lo <= s.avgPrice <= hi)
  {
    if fills != [] {
      var init, last := fills[..|fills| - 1], fills[|fills| - 1];
      EntryPriceWithinFillPrices(init, lo, hi);
      RunConserves(init);
      var position := Run(FLAT, init).position;
      if Abs(position.netQty) <= EPS { GridSmallIsZero(position.netQty); }
      EntryPriceStep(position, last, lo, hi);
    }
  }

  lemma EntryPriceStep(position: PositionState, fill: Fill, lo: real, hi: real)
    requires position.openFees >= 0.0
    requires if position.netQty == 0.0 then position == FLAT else Abs(position.netQty) > EPS && lo <= position.avgPrice <= hi
    requires !Ignored(fill) ==> lo <= fill.price <= hi
    ensures var s := ApplyFill(position, fill).position;
            s.openFees >= 0.0 && (s.netQty != 0.0 ==> lo <= s.avgPrice <= hi)
  {
    var q, a := position.netQty, Abs(fill.qty);
    if !Ignored(fill) {
      if Abs(q) <= EPS || (q > 0.0) == (Direction(fill.side) > 0.0) {
        hide WeightedMean;
        MeanBetween(position.avgPrice, Abs(q), fill.price, a, lo, hi);
      } else {
        CloseFees(position, fill);
      }
    }
  }

  lemma CloseFees(position: PositionState, fill: Fill)
    requires position.openFees >= 0.0 && !Ignored(fill)
    requires Abs(position.netQty) > EPS && (position.netQty > 0.0) != (Direction(fill.side) > 0.0)
    ensures var s := ApplyFill(position, fill).position;
            s.openFees >= 0.0 && (s == FLAT || s.avgPrice == position.avgPrice || s.avgPrice == fill.price)
  {
    hide Share;
    if Abs(fill.qty) < Abs(position.netQty) {
      ShareAtMost(position.openFees, Abs(fill.qty), Abs(position.netQty));
    } else {
      ShareAtMost(ClampedFee(fill), Abs(position.netQty), Abs(fill.qty));
    }
  }

  lemma ScaledBetween(x: real, m: real, lo: real, hi: real)
    requires m >= 0.0 && (m > 0.0 ==> lo <= x <= hi)
    ensures m * lo <= x * m <= m * hi
  {
  }

  lemma MeanBetween(x: real, m: real, y: real, n: real, lo: real, hi: real)
    requires m >= 0.0 && n > 0.0 && (m > 0.0 ==> lo <= x <= hi) && lo <= y <= hi
    ensures lo <= WeightedMean(x, m, y, n) <= hi
  {
    var xm, yn := x * m, y * n;
    ScaledBetween(x, m, lo, hi);
    ScaledBetween(y, n, lo, hi);
    assert m * lo <= xm && xm <= m * hi;
    assert n * lo <= yn && yn <= n * hi;
    Bounds(xm, yn, m, n, lo, hi);
  }

  lemma Bounds(xm: real, yn: real, m: real, n: real, lo: real, hi: real)
    requires m >= 0.0 && n > 0.0 && m * lo <= xm <= m * hi && n * lo <= yn <= n * hi
    ensures lo <= (xm + yn) / (m + n) <= hi
  {
  }

  lemma ShareAtMost(x: real, c: real, a: real)
    requires x >= 0.0 && 0.0 <= c <= a && a > 0.0
    ensures 0.0 <= Share(x, c, a) <= x
  {
  }

  // ---- Splitting one fill into several -----------------------------------

  lemma ShareAdd(x: real, b: real, c: real, a: real)
    requires a != 0.0
    ensures Share(x, b, a) + Share(x, c, a) == Share(x, b + c, a)
  {
  }

  lemma ShareOfShare(x: real, c: real, b: real, a: real)
    requires a != 0.0 && b != 0.0
    ensures Share(Share(x, b, a), c, b) == Share(x, c, a)
  {
  }

  /** What is left after one share splits like the original. */
  lemma ShareOfRemainder(x: real, c: real, b: real, a: real)
    requires a != 0.0 && a != b
    ensures Share(x - Share(x, b, a), c, a - b) == Share(x, c, a)
  {
  }

  lemma MeanNests(x: real, m: real, y: real, n: real, k: real)
    requires m + n != 0.0 && m + n + k != 0.0
    ensures WeightedMean(WeightedMean(x, m, y, n), m + n, y, k) == WeightedMean(x, m, y, n + k)
  {
  }

  lemma MeanOfSame(p: real, m: real, n: real)
    requires m + n != 0.0
    ensures WeightedMean(p, m, p, n) == p && WeightedMean(0.0, 0.0, p, m + n) == p
  {
  }

  /** The part of a fill that covers c of its quantity, with its pro-rata fee. */
  function Piece(fill: Fill, c: real): Fill
    requires fill.qty != 0.0
  {
    Fill(fill.side, c, fill.price, Share(fill.fee, c, fill.qty))
  }

  /** Filling a in one go, or b of it first and the rest after, leaves the same
      position and realizes the same P&L. */
  ghost predicate SplitAgrees(position: PositionState, fill: Fill, b: real)
    requires fill.qty != 0.0
  {
    var whole := ApplyFill(position, fill);
    var first := ApplyFill(position, Piece(fill, b));
    var second := ApplyFill(first.position, Piece(fill, fill.qty - b));
    second.position == whole.position && first.realizedPnl + second.realizedPnl == whole.realizedPnl
  }

  /** Equal, or further apart than the threshold. */
  predicate Clear(x: real, y: real) {
    x == y || Abs(x - y) > EPS
  }

  lemma GridClear(x: real, y: real)
    requires OnGrid8(x) && OnGrid8(y)
    ensures Clear(x, y)
  {
    GridClosed(x, y);
    if Abs(x - y) <= EPS { GridSmallIsZero(x - y); }
  }

  /** A split whose quantities the threshold tests tell apart. */
  ghost predicate ClearSplit(position: PositionState, fill: Fill, b: real) {
    var a, prior := fill.qty, Abs(position.netQty);
    && EPS < b && EPS < a - b
    && (position == FLAT || EPS < prior)
    && Clear(b, prior) && Clear(a, prior)
  }

  /** A split of a grid quantity into two grid pieces, applied to a grid position. */
  ghost predicate GridSplit(position: PositionState, fill: Fill, b: real) {
    && OnGrid8(position.netQty) && (position.netQty == 0.0 ==> position == FLAT)
    && OnGrid8(fill.qty) && OnGrid8(b)
    && 0.0 < b < fill.qty
  }

  lemma GridSplitIsClear(position: PositionState, fill: Fill, b: real)
    requires GridSplit(position, fill, b)
    ensures ClearSplit(position, fill, b)
  {
    hide OnGrid8;
    var q, a := position.netQty, fill.qty;
    GridClosed(0.0, q) by { GridClosed(q, q); }
    var prior := Abs(q);
    GridClear(a, b);
    GridClear(b, b - b) by { GridClosed(b, b); }
    GridClear(a, prior);
    GridClear(b, prior);
    GridClear(q, q - q) by { GridClosed(q, q); }
  }

  lemma PieceFees(fill: Fill, b: real)
    requires 0.0 < b < fill.qty
    ensures ClampedFee(Piece(fill, b)) == Share(ClampedFee(fill), b, fill.qty)
    ensures ClampedFee(Piece(fill, fill.qty - b)) == Share(ClampedFee(fill), fill.qty - b, fill.qty)
  {
  }

  lemma ApplyOpening(position: PositionState, fill: Fill)
    requires !Ignored(fill)
    requires position == FLAT || (Abs(position.netQty) > EPS && (position.netQty > 0.0) == (Direction(fill.side) > 0.0))
    ensures var prior, a := Abs(position.netQty), Abs(fill.qty);
            ApplyFill(position, fill) ==
            FillOutcome(PositionState(Direction(fill.side) * (prior + a), WeightedMean(position.avgPrice, prior, fill.price, a),
                                      position.openFees + ClampedFee(fill)), 0.0, false, false)
  {
  }

  ghost predicate Opposes(position: PositionState, fill: Fill) {
    !Ignored(fill) && Abs(position.netQty) > EPS && (position.netQty > 0.0) != (Direction(fill.side) > 0.0)
  }

  lemma ApplyReducing(position: PositionState, fill: Fill)
    requires Opposes(position, fill) && Abs(fill.qty) + EPS < Abs(position.netQty)
    ensures var prior, a, of := Abs(position.netQty), Abs(fill.qty), position.openFees;
            ApplyFill(position, fill) ==
            FillOutcome(PositionState(position.netQty + SignedQty(fill), position.avgPrice, of - Share(of, a, prior)),
                        Gross(position, fill.price, a) - ClampedFee(fill) - Share(of, a, prior), false, false)
  {
  }

  lemma ApplyFlattening(position: PositionState, fill: Fill)
    requires Opposes(position, fill) && Abs(fill.qty) == Abs(position.netQty)
    ensures ApplyFill(position, fill) ==
            FillOutcome(FLAT, Gross(position, fill.price, Abs(fill.qty)) - ClampedFee(fill) - position.openFees, true, false)
  {
  }

  lemma ApplyFlipping(position: PositionState, fill: Fill)
    requires Opposes(position, fill) && Abs(position.netQty) + EPS < Abs(fill.qty)
    ensures var prior, a, f := Abs(position.netQty), Abs(fill.qty), ClampedFee(fill);
            ApplyFill(position, fill) ==
            FillOutcome(PositionState(position.netQty + SignedQty(fill), fill.price, f - Share(f, prior, a)),
                        Gross(position, fill.price, prior) - Share(f, prior, a) - position.openFees, true, true)
  {
  }

  lemma ShareKeepsRatio(x: real, c: real, a: real)
    requires a > 0.0
    ensures (x - Share(x, c, a)) * a == x * (a - c)
  {
    var r := c / a;
    assert r * a == c;
    assert (x * r) * a == x * (r * a);
  }

  lemma ReducingKeepsUnitCost(position: PositionState, fill: Fill)
    requires Opposes(position, fill) && SideOf(ApplyFill(position, fill).position.netQty) == SideOf(position.netQty)
    ensures var next := ApplyFill(position, fill).position;
            next.avgPrice == position.avgPrice && next.openFees * Abs(position.netQty) == position.openFees * Abs(next.netQty)
  {
    ShareKeepsRatio(position.openFees, Abs(fill.qty), Abs(position.netQty));
    hide Share, Gross, WeightedMean;
  }

  lemma FlippingOpensAfresh(position: PositionState, fill: Fill)
    requires Opposes(position, fill) && SideOf(ApplyFill(position, fill).position.netQty) == -SideOf(position.netQty)
    ensures var next := ApplyFill(position, fill).position;
            next.avgPrice == fill.price && next.openFees * Abs(fill.qty) == ClampedFee(fill) * Abs(next.netQty)
  {
    ShareKeepsRatio(ClampedFee(fill), Abs(position.netQty), Abs(fill.qty));
    hide Share, Gross, WeightedMean, ClampedFee;
  }

  /** What a fill may do to the carried cost.  One that does not oppose the position realizes nothing
      and adds its fee to the fees carried; one that reduces it keeps the entry price and the fees
      per unit; one that flips it carries its own price and its own fee per unit.  With the cash
      identity this leaves no freedom in the outcome. */
  lemma CostFollowsQuantity(position: PositionState, fill: Fill)
    ensures var o := ApplyFill(position, fill);
            var next, before, after := o.position, SideOf(position.netQty), SideOf(o.position.netQty);
            && (!Opposes(position, fill) ==> o.realizedPnl == 0.0)
            && (!Opposes(position, fill) && !Ignored(fill) ==> next.openFees == position.openFees + ClampedFee(fill))
            && (Opposes(position, fill) && after == before ==>
                  next.avgPrice == position.avgPrice && next.openFees * Abs(position.netQty) == position.openFees * Abs(next.netQty))
            && (Opposes(position, fill) && after == -before ==>
                  next.avgPrice == fill.price && next.openFees * Abs(fill.qty) == ClampedFee(fill) * Abs(next.netQty))
            && (Opposes(position, fill) && after == 0 ==> next == FLAT)
  {
    if Opposes(position, fill) {
      var after := SideOf(ApplyFill(position, fill).position.netQty);
      if after == SideOf(position.netQty) { ReducingKeepsUnitCost(position, fill); }
      if after == -SideOf(position.netQty) { FlippingOpensAfresh(position, fill); }
    }
    hide Share, Gross, WeightedMean, ClampedFee;
  }

  lemma GrossAdds(position: PositionState, p: real, b: real, c: real)
    ensures Gross(position, p, b) + Gross(position, p, c) == Gross(position, p, b + c)
  {
  }

  lemma SplitOpening(position: PositionState, fill: Fill, b: real)
    requires ClearSplit(position, fill, b) && fill.price > 0.0
    requires position == FLAT || (position.netQty > 0.0) == (Direction(fill.side) > 0.0)
    ensures SplitAgrees(position, fill, b)
  {
    hide Share, WeightedMean, ClampedFee, ApplyFill;
    var a, prior := fill.qty, Abs(position.netQty);
    var first, second := Piece(fill, b), Piece(fill, a - b);
    PieceFees(fill, b);
    ShareAdd(ClampedFee(fill), b, a - b, a);
    ShareWhole(ClampedFee(fill), a);
    MeanNests(position.avgPrice, prior, fill.price, b, a - b);
    ApplyOpening(position, fill);
    ApplyOpening(position, first);
    var mid := ApplyFill(position, first).position;
    assert Abs(mid.netQty) == prior + b;
    ApplyOpening(mid, second);
  }

  /** The whole fill stays within the position: two reductions, the second perhaps flattening. */
  lemma SplitReducing(position: PositionState, fill: Fill, b: real)
    requires ClearSplit(position, fill, b) && fill.price > 0.0
    requires position != FLAT && (position.netQty > 0.0) != (Direction(fill.side) > 0.0)
    requires fill.qty <= Abs(position.netQty)
    ensures SplitAgrees(position, fill, b)
  {
    hide Share, WeightedMean, ClampedFee, ApplyFill, Gross;
    var a, prior, of, f := fill.qty, Abs(position.netQty), position.openFees, ClampedFee(fill);
    var first, second := Piece(fill, b), Piece(fill, a - b);
    PieceFees(fill, b);
    ShareWhole(f, a);
    ShareAdd(f, b, a - b, a);
    ApplyReducing(position, first);
    var mid := ApplyFill(position, first).position;
    assert Abs(mid.netQty) == prior - b;
    GrossAdds(position, fill.price, b, a - b);
    SameGross(position, mid, fill.price, a - b);
    if a == prior {
      ApplyFlattening(position, fill);
      ApplyFlattening(mid, second);
    } else {
      ApplyReducing(position, fill);
      ApplyReducing(mid, second);
      ShareAdd(of, b, a - b, prior);
      ShareOfRemainder(of, a - b, b, prior);
    }
  }

  /** Gross earnings depend on the side and the entry price alone. */
  lemma SameGross(position: PositionState, later: PositionState, p: real, c: real)
    requires (position.netQty > 0.0) == (later.netQty > 0.0) && position.avgPrice == later.avgPrice
    ensures Gross(position, p, c) == Gross(later, p, c)
  {
  }

  /** The first piece reduces, the second closes and opens the other side. */
  lemma SplitReduceThenFlip(position: PositionState, fill: Fill, b: real)
    requires ClearSplit(position, fill, b) && fill.price > 0.0
    requires position != FLAT && (position.netQty > 0.0) != (Direction(fill.side) > 0.0)
    requires b < Abs(position.netQty) < fill.qty
    ensures SplitAgrees(position, fill, b)
  {
    hide Share, WeightedMean, ClampedFee, ApplyFill, Gross;
    var a, prior, f := fill.qty, Abs(position.netQty), ClampedFee(fill);
    var first, second := Piece(fill, b), Piece(fill, a - b);
    PieceFees(fill, b);
    ShareOfShare(f, prior - b, a - b, a);
    ShareAdd(f, b, prior - b, a);
    ShareAdd(f, b, a - b, a);
    ShareWhole(f, a);
    ApplyFlipping(position, fill);
    ApplyReducing(position, first);
    var mid := ApplyFill(position, first).position;
    assert Abs(mid.netQty) == prior - b;
    ApplyFlipping(mid, second);
    GrossAdds(position, fill.price, b, prior - b);
    SameGross(position, mid, fill.price, prior - b);
  }

  /** The first piece exactly flattens, the second opens from flat. */
  lemma SplitFlattenThenOpen(position: PositionState, fill: Fill, b: real)
    requires ClearSplit(position, fill, b) && fill.price > 0.0
    requires position != FLAT && (position.netQty > 0.0) != (Direction(fill.side) > 0.0)
    requires b == Abs(position.netQty) < fill.qty
    ensures SplitAgrees(position, fill, b)
  {
    hide Share, WeightedMean, ClampedFee, ApplyFill, Gross;
    var a, f := fill.qty, ClampedFee(fill);
    PieceFees(fill, b);
    ShareAdd(f, b, a - b, a);
    ShareWhole(f, a);
    ApplyFlipping(position, fill);
    ApplyFlattening(position, Piece(fill, b));
    ApplyOpening(FLAT, Piece(fill, a - b));
    MeanOfSame(fill.price, 0.0, a - b);
  }

  /** The first piece flips, the second adds to the new side. */
  lemma SplitFlipThenAdd(position: PositionState, fill: Fill, b: real)
    requires ClearSplit(position, fill, b) && fill.price > 0.0
    requires position != FLAT && (position.netQty > 0.0) != (Direction(fill.side) > 0.0)
    requires Abs(position.netQty) < b
    ensures SplitAgrees(position, fill, b)
  {
    hide Share, WeightedMean, ClampedFee, ApplyFill, Gross;
    var a, prior, f := fill.qty, Abs(position.netQty), ClampedFee(fill);
    var first, second := Piece(fill, b), Piece(fill, a - b);
    PieceFees(fill, b);
    ShareOfShare(f, prior, b, a);
    ShareAdd(f, b, a - b, a);
    ShareWhole(f, a);
    MeanOfSame(fill.price, b - prior, a - b);
    ApplyFlipping(position, fill);
    ApplyFlipping(position, first);
    var mid := ApplyFill(position, first).position;
    assert Abs(mid.netQty) == b - prior;
    ApplyOpening(mid, second);
  }

  /** Splitting a fill in two changes neither the final position nor the realized P&L. */
  lemma SplitInTwo(position: PositionState, fill: Fill, b: real)
    requires GridSplit(position, fill, b)
    ensures SplitAgrees(position, fill, b)
  {
    GridSplitIsClear(position, fill, b);
    if fill.price <= 0.0 {
    } else {
      hide SplitAgrees, GridSplit, OnGrid8;
      if position == FLAT || (position.netQty > 0.0) == (Direction(fill.side) > 0.0) {
        SplitOpening(position, fill, b);
      } else if fill.qty <= Abs(position.netQty) {
        SplitReducing(position, fill, b);
      } else if b < Abs(position.netQty) {
        SplitReduceThenFlip(position, fill, b);
      } else if b == Abs(position.netQty) {
        SplitFlattenThenOpen(position, fill, b);
      } else {
        SplitFlipThenAdd(position, fill, b);
      }
    }
  }

  // ---- Any number of pieces ----------------------------------------------

  function Total(parts: seq<real>): real {
    if parts == [] then 0.0 else Total(parts[..|parts| - 1]) + parts[|parts| - 1]
  }

  ghost predicate GridParts(parts: seq<real>) {
    forall i :: 0 <= i < |parts| ==> OnGrid8(parts[i]) && parts[i] > 0.0
  }

  function Pieces(fill: Fill, parts: seq<real>): seq<Fill>
    requires fill.qty != 0.0
  {
    seq(|parts|, i requires 0 <= i < |parts| => Piece(fill, parts[i]))
  }

  lemma {:induction false} TotalOnGrid(parts: seq<real>)
    requires GridParts(parts)
    ensures OnGrid8(Total(parts)) && (parts != [] ==> Total(parts) > 0.0)
  {
    if parts != [] {
      TotalOnGrid(parts[..|parts| - 1]);
      GridClosed(Total(parts[..|parts| - 1]), parts[|parts| - 1]);
    }
  }

  lemma PiecesOfPiece(fill: Fill, parts: seq<real>, b: real)
    requires fill.qty != 0.0 && b != 0.0
    ensures Pieces(Piece(fill, b), parts) == Pieces(fill, parts)
  {
    forall i | 0 <= i < |parts| ensures Piece(Piece(fill, b), parts[i]) == Piece(fill, parts[i]) {
      ShareOfShare(fill.fee, parts[i], b, fill.qty);
    }
  }

  lemma ApplyOne(position: PositionState, fill: Fill)
    ensures Run(position, [fill]) == Tally(ApplyFill(position, fill).position, 0.0 + ApplyFill(position, fill).realizedPnl)
  {
  }

  /** However an order is sliced into grid fills at one price with pro-rata fees, the
      position and the total realized P&L are those of the single fill. */
  lemma {:induction false} SlicingIsInvisible(position: PositionState, fill: Fill, parts: seq<real>)
    requires OnGrid8(position.netQty) && (position.netQty == 0.0 ==> position == FLAT)
    requires parts != [] && GridParts(parts) && fill.qty == Total(parts) != 0.0
    ensures Run(position, Pieces(fill, parts)) == Run(position, [fill])
    decreases |parts|
  {
    hide ApplyFill, OnGrid8;
    var init, last := parts[..|parts| - 1], parts[|parts| - 1];
    assert Pieces(fill, parts)[..|parts| - 1] == Pieces(fill, init);
    ApplyOne(position, fill);
    if init == [] {
      ShareWhole(fill.fee, fill.qty);
      assert Piece(fill, last) == fill;
    } else {
      var b := Total(init);
      TotalOnGrid(init);
      TotalOnGrid(parts);
      PiecesOfPiece(fill, init, b);
      SlicingIsInvisible(position, Piece(fill, b), init);
      ApplyOne(position, Piece(fill, b));
      SplitInTwo(position, fill, b);
    }
  }
}
