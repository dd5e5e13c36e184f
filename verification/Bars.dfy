/** Tick resampling and the live bar writer: shared/mezna_shared/bars.py and
    services/market-data/app/bar_writer.py. */
module Bars {
  import opened Options
  import opened Decimals
  import opened Integers
  import opened Sorting

  /** A usable row: epoch seconds and a positive price. */
  datatype Tick = Tick(ts: real, px: real)

  datatype Quote = Quote(ts: Option<real>, px: Option<real>)

  datatype Bar = Bar(epoch: int, open: real, high: real, low: real, close: real, volume: nat)

  /** int(ts // interval) * interval */
  function Bucket(t: Tick, interval: int): int
    requires interval > 0
  {
    (t.ts / interval as real).Floor * interval
  }

  /** Rows with an unparsable timestamp or a non-positive price are skipped. */
  function Usable(quotes: seq<Quote>): seq<Tick> {
    if quotes == [] then []
    else
      var q := quotes[0];
      if q.ts.Some? && q.px.Some? && q.px.value > 0.0 then [Tick(q.ts.value, q.px.value)] + Usable(quotes[1..])
      else Usable(quotes[1..])
  }

  ghost predicate Chronological(rows: seq<Tick>) {
    forall i, j :: 0 <= i < j < |rows| ==> rows[i].ts <= rows[j].ts
  }

  function TimeOf(): Tick -> real {
    (t: Tick) => t.ts
  }

  /** The rows sorted by timestamp. */
  function ByTime(rows: seq<Tick>): seq<Tick> {
    StableSort(rows, TimeOf())
  }

  lemma ByTimeSorts(rows: seq<Tick>)
    ensures Chronological(ByTime(rows)) && multiset(ByTime(rows)) == multiset(rows) && |ByTime(rows)| == |rows|
  {
    StableSortIsSort(rows, TimeOf());
    StableSortSize(rows, TimeOf());
    var sorted := ByTime(rows);
    forall i, j | 0 <= i < j < |sorted| ensures sorted[i].ts <= sorted[j].ts {
      assert TimeOf()(sorted[i]) <= TimeOf()(sorted[j]);
    }
  }

  // ---- Groups ---------------------------------------------------------------------------

  function IsIn(b: int, interval: int): Tick -> bool
    requires interval > 0
  {
    t => Bucket(t, interval) == b
  }

  /** The rows of bucket b, in order. */
  function InBucket(rows: seq<Tick>, b: int, interval: int): (group: seq<Tick>)
    requires interval > 0
    ensures forall i :: 0 <= i < |group| ==> group[i] in rows && Bucket(group[i], interval) == b
  {
    Select(rows, IsIn(b, interval))
  }

  function Highest(group: seq<Tick>): real
    requires group != []
  {
    if |group| == 1 then group[0].px else Max(Highest(group[..|group| - 1]), group[|group| - 1].px)
  }

  function Lowest(group: seq<Tick>): real
    requires group != []
  {
    if |group| == 1 then group[0].px else Min(Lowest(group[..|group| - 1]), group[|group| - 1].px)
  }

  /** First, maximum, minimum, last and count of a group. */
  function BarOf(b: int, group: seq<Tick>): Bar
    requires group != []
  {
    Bar(b, group[0].px, Highest(group), Lowest(group), group[|group| - 1].px, |group|)
  }

  lemma {:induction false} HighestIsMaximum(group: seq<Tick>)
    requires group != []
    ensures forall i :: 0 <= i < |group| ==> Lowest(group) <= group[i].px <= Highest(group)
    ensures exists i :: 0 <= i < |group| && group[i].px == Highest(group)
    ensures exists i :: 0 <= i < |group| && group[i].px == Lowest(group)
  {
    var n := |group|;
    if n == 1 {
      assert group[0].px == Highest(group) == Lowest(group);
    } else {
      var init := group[..n - 1];
      HighestIsMaximum(init);
      var i :| 0 <= i < |init| && init[i].px == Highest(init);
      var j :| 0 <= j < |init| && init[j].px == Lowest(init);
      var p := if Highest(init) < group[n - 1].px then n - 1 else i;
      var q := if Lowest(init) < group[n - 1].px then j else n - 1;
      assert group[p].px == Highest(group) && group[q].px == Lowest(group);
      forall k | 0 <= k < n ensures Lowest(group) <= group[k].px <= Highest(group) {
        if k < n - 1 { assert group[k] == init[k]; }
      }
    }
  }

  /** Exactly the bars of the occupied buckets, oldest first. */
  ghost predicate AreBars(bars: seq<Bar>, rows: seq<Tick>, interval: int)
    requires interval > 0
  {
    && (forall i, j :: 0 <= i < j < |bars| ==> bars[i].epoch < bars[j].epoch)
    && (forall i :: 0 <= i < |bars| ==>
          var group := InBucket(rows, bars[i].epoch, interval);
          group != [] && bars[i] == BarOf(bars[i].epoch, group))
    && (forall k :: 0 <= k < |rows| ==> exists i :: 0 <= i < |bars| && bars[i].epoch == Bucket(rows[k], interval))
  }

  lemma InBucketSingle(t: Tick, b: int, interval: int)
    requires interval > 0
    ensures InBucket([t], b, interval) == if Bucket(t, interval) == b then [t] else []
  {
    SelectSingle(t, IsIn(b, interval));
  }

  lemma InBucketAppend(rows: seq<Tick>, t: Tick, b: int, interval: int)
    requires interval > 0
    ensures InBucket(rows + [t], b, interval)
            == if Bucket(t, interval) == b then InBucket(rows, b, interval) + [t] else InBucket(rows, b, interval)
  {
    InBucketSingle(t, b, interval);
    SelectConcat(rows, [t], IsIn(b, interval));
  }

  lemma BucketMonotone(s: Tick, t: Tick, interval: int)
    requires interval > 0 && s.ts <= t.ts
    ensures Bucket(s, interval) <= Bucket(t, interval)
  {
    DivideMonotone(s.ts, t.ts, interval as real);
    var p, q := (s.ts / interval as real).Floor, (t.ts / interval as real).Floor;
    ScaleMonotone(p, q, interval);
  }

  /** A bucket is a multiple of the interval and holds the timestamps of one interval. */
  lemma BucketBounds(t: Tick, interval: int)
    requires interval > 0
    ensures Bucket(t, interval) % interval == 0
    ensures Bucket(t, interval) as real <= t.ts < Bucket(t, interval) as real + interval as real
  {
    var p := (t.ts / interval as real).Floor;
    FloorTimes(t.ts, interval as real, p as real);
    DivModUnique(p * interval, interval, p, 0);
    RealProduct(p, interval);
    assert Bucket(t, interval) == p * interval;
  }

  lemma RealProduct(p: int, n: int)
    ensures (p * n) as real == p as real * n as real
  {
  }

  lemma ProductNonNegative(e: real, n: real, q: real)
    requires e >= 0.0 && n > 0.0 && q == e * n
    ensures q >= 0.0
  {
  }

  lemma ProductPositive(e: real, n: real, q: real)
    requires e > 0.0 && n > 0.0 && q == e * n
    ensures q > 0.0
  {
  }

  lemma FloorTimes(x: real, n: real, p: real)
    requires n > 0.0 && p <= x / n < p + 1.0
    ensures p * n <= x < p * n + n
  {
    var d := x / n;
    assert d * n == x;
    ProductNonNegative(d - p, n, x - p * n);
    ProductPositive(p + 1.0 - d, n, p * n + n - x);
  }

  lemma DivideMonotone(x: real, y: real, n: real)
    requires x <= y && n > 0.0
    ensures x / n <= y / n
  {
  }

  // ---- One pass over the sorted rows ---------------------------------------------------------

  function Extended(bar: Bar, px: real): Bar {
    Bar(bar.epoch, bar.open, Max(bar.high, px), Min(bar.low, px), px, bar.volume + 1)
  }

  lemma BarOfExtended(b: int, group: seq<Tick>, t: Tick)
    requires group != []
    ensures BarOf(b, group + [t]) == Extended(BarOf(b, group), t.px)
  {
  }

  /** A row of the current bucket updates the last bar. */
  lemma SameBucketStep(bars: seq<Bar>, bar: Bar, rows: seq<Tick>, t: Tick, interval: int)
    requires interval > 0 && AreBars(bars + [bar], rows, interval) && Bucket(t, interval) == bar.epoch
    ensures AreBars(bars + [Extended(bar, t.px)], rows + [t], interval)
  {
    hide Bucket, BarOf;
    var before, after := bars + [bar], bars + [Extended(bar, t.px)];
    assert forall i :: 0 <= i < |after| ==> after[i].epoch == before[i].epoch;
    forall i | 0 <= i < |after|
      ensures InBucket(rows + [t], after[i].epoch, interval) != []
      ensures after[i] == BarOf(after[i].epoch, InBucket(rows + [t], after[i].epoch, interval))
    {
      InBucketAppend(rows, t, after[i].epoch, interval);
      if i < |bars| {
        assert before[i].epoch < before[|bars|].epoch;
      } else {
        BarOfExtended(bar.epoch, InBucket(rows, bar.epoch, interval), t);
      }
    }
    forall k | 0 <= k < |rows + [t]| ensures exists i :: 0 <= i < |after| && after[i].epoch == Bucket((rows + [t])[k], interval) {
      if k < |rows| {
        var i :| 0 <= i < |before| && before[i].epoch == Bucket(rows[k], interval);
        assert after[i].epoch == Bucket(rows[k], interval);
      } else {
        assert after[|bars|].epoch == Bucket(t, interval);
      }
    }
  }

  lemma InBucketMember(rows: seq<Tick>, b: int, interval: int)
    requires interval > 0 && InBucket(rows, b, interval) != []
    ensures exists k :: 0 <= k < |rows| && Bucket(rows[k], interval) == b
  {
    var t := InBucket(rows, b, interval)[0];
    assert t in rows;
  }

  lemma BarOfSingle(b: int, t: Tick)
    ensures BarOf(b, [t]) == Bar(b, t.px, t.px, t.px, t.px, 1)
  {
  }

  lemma NoGroupYet(bars: seq<Bar>, rows: seq<Tick>, b: int, interval: int)
    requires interval > 0 && AreBars(bars, rows, interval)
    requires forall i :: 0 <= i < |bars| ==> bars[i].epoch < b
    ensures InBucket(rows, b, interval) == []
  {
    hide Bucket, BarOf, AreBars;
    if InBucket(rows, b, interval) != [] {
      InBucketMember(rows, b, interval);
      var k :| 0 <= k < |rows| && Bucket(rows[k], interval) == b;
      RowIsCovered(bars, rows, k, interval);
    }
  }

  lemma RowIsCovered(bars: seq<Bar>, rows: seq<Tick>, k: nat, interval: int)
    requires interval > 0 && AreBars(bars, rows, interval) && k < |rows|
    ensures exists i :: 0 <= i < |bars| && bars[i].epoch == Bucket(rows[k], interval)
  {
    hide Bucket, BarOf, InBucket;
    var t := rows[k];
    var i :| 0 <= i < |bars| && bars[i].epoch == Bucket(t, interval);
  }

  /** A row of a later bucket starts a new bar. */
  lemma NewBucketStep(bars: seq<Bar>, rows: seq<Tick>, t: Tick, interval: int)
    requires interval > 0 && AreBars(bars, rows, interval)
    requires forall i :: 0 <= i < |bars| ==> bars[i].epoch < Bucket(t, interval)
    ensures AreBars(bars + [Bar(Bucket(t, interval), t.px, t.px, t.px, t.px, 1)], rows + [t], interval)
  {
    hide Bucket, BarOf, InBucket;
    var b := Bucket(t, interval);
    BarOfSingle(b, t);
    NoGroupYet(bars, rows, b, interval);
    var after := bars + [Bar(b, t.px, t.px, t.px, t.px, 1)];
    assert [] + [t] == [t];
    forall i | 0 <= i < |after|
      ensures InBucket(rows + [t], after[i].epoch, interval) != []
      ensures after[i] == BarOf(after[i].epoch, InBucket(rows + [t], after[i].epoch, interval))
    {
      InBucketAppend(rows, t, after[i].epoch, interval);
    }
    forall k | 0 <= k < |rows + [t]| ensures exists i :: 0 <= i < |after| && after[i].epoch == Bucket((rows + [t])[k], interval) {
      if k < |rows| {
        RowIsCovered(bars, rows, k, interval);
        var i :| 0 <= i < |bars| && bars[i].epoch == Bucket(rows[k], interval);
        assert after[i].epoch == Bucket(rows[k], interval);
      } else {
        assert after[|bars|].epoch == Bucket(t, interval);
      }
    }
    assert forall i, j :: 0 <= i < j < |after| ==> after[i].epoch < after[j].epoch;
  }

  /** One pass over the sorted usable rows yields the bars of their buckets. */
  method TicksToOhlcv(quotes: seq<Quote>, interval: int) returns (bars: seq<Bar>)
    ensures interval <= 0 ==> bars == []
    ensures interval > 0 ==> AreBars(bars, ByTime(Usable(quotes)), interval)
    ensures interval > 0 ==> TotalVolume(bars) == |Usable(quotes)|
  {
    hide Bucket, AreBars, ByTime, Usable, Chronological;
    if interval <= 0 {
      return [];
    }
    var rows := ByTime(Usable(quotes));
    ByTimeSorts(Usable(quotes));
    bars := [];
    if rows == [] {
      NoBars(interval);
      return;
    }
    var cur := Bucket(rows[0], interval);
    var o, h, l, c, vol: nat := rows[0].px, rows[0].px, rows[0].px, rows[0].px, 1;
    FirstBar(rows[0], interval);
    assert rows[..1] == [rows[0]];
    for i := 1 to |rows|
      invariant cur == Bucket(rows[i - 1], interval)
      invariant AreBars(bars + [Bar(cur, o, h, l, c, vol)], rows[..i], interval)
    {
      var ts, px := rows[i].ts, rows[i].px;
      var bucket := Bucket(rows[i], interval);
      assert rows[..i + 1] == rows[..i] + [rows[i]];
      BucketMonotone(rows[i - 1], rows[i], interval);
      if bucket != cur {
        LastBarIsLatest(bars, Bar(cur, o, h, l, c, vol), rows[..i], interval);
        NewBucketStep(bars + [Bar(cur, o, h, l, c, vol)], rows[..i], rows[i], interval);
        bars := bars + [Bar(cur, o, h, l, c, vol)];
        cur := bucket;
        o, h, l, c := px, px, px, px;
        vol := 1;
      } else {
        SameBucketStep(bars, Bar(cur, o, h, l, c, vol), rows[..i], rows[i], interval);
        h := Max(h, px);
        l := Min(l, px);
        c := px;
        vol := vol + 1;
      }
    }
    bars := bars + [Bar(cur, o, h, l, c, vol)];
    assert rows[..|rows|] == rows;
    VolumesAddUp(bars, rows, interval);
  }

  lemma NoBars(interval: int)
    requires interval > 0
    ensures AreBars([], [], interval)
  {
  }

  lemma FirstBar(t: Tick, interval: int)
    requires interval > 0
    ensures AreBars([] + [Bar(Bucket(t, interval), t.px, t.px, t.px, t.px, 1)], [t], interval)
  {
    NoBars(interval);
    NewBucketStep([], [], t, interval);
    assert [] + [t] == [t];
  }

  lemma LastBarIsLatest(bars: seq<Bar>, bar: Bar, rows: seq<Tick>, interval: int)
    requires interval > 0 && AreBars(bars + [bar], rows, interval)
    ensures forall i :: 0 <= i < |bars + [bar]| ==> (bars + [bar])[i].epoch <= bar.epoch
  {
    hide InBucket, BarOf, Bucket;
    assert (bars + [bar])[|bars|] == bar;
  }

  // ---- Bars depend on their own bucket's ticks alone ------------------------------------------------

  /** Sorting and taking a bucket commute. */
  lemma SortCommutesWithBucket(rows: seq<Tick>, b: int, interval: int)
    requires interval > 0
    ensures InBucket(ByTime(rows), b, interval) == ByTime(InBucket(rows, b, interval))
  {
    SortThenSelect(rows, TimeOf(), IsIn(b, interval));
  }

  lemma InBucketConcat(a: seq<Tick>, c: seq<Tick>, b: int, interval: int)
    requires interval > 0
    ensures InBucket(a + c, b, interval) == InBucket(a, b, interval) + InBucket(c, b, interval)
  {
    SelectConcat(a, c, IsIn(b, interval));
  }

  /** The bar that any list of usable rows yields for bucket b. */
  function BarFor(rows: seq<Tick>, b: int, interval: int): Option<Bar>
    requires interval > 0
  {
    var group := InBucket(ByTime(rows), b, interval);
    if group == [] then None else Some(BarOf(b, group))
  }

  /** Lists that agree on bucket b, whatever else they hold, yield the same bar for it. */
  lemma BarDependsOnBucketOnly(rows: seq<Tick>, rows': seq<Tick>, b: int, interval: int)
    requires interval > 0 && InBucket(rows, b, interval) == InBucket(rows', b, interval)
    ensures BarFor(rows, b, interval) == BarFor(rows', b, interval)
  {
    SortCommutesWithBucket(rows, b, interval);
    SortCommutesWithBucket(rows', b, interval);
  }

  /** The output of a resampling, looked up by epoch. */
  lemma BarsLookUp(bars: seq<Bar>, rows: seq<Tick>, interval: int, b: int)
    requires interval > 0 && AreBars(bars, ByTime(rows), interval)
    ensures forall i :: 0 <= i < |bars| && bars[i].epoch == b ==> BarFor(rows, b, interval) == Some(bars[i])
    ensures BarFor(rows, b, interval).Some? ==> exists i :: 0 <= i < |bars| && bars[i].epoch == b
  {
  }

  /** A list yields a bar exactly when it has ticks in the bucket, and the bar counts them. */
  lemma BarCountsTicks(rows: seq<Tick>, b: int, interval: int)
    requires interval > 0
    ensures BarFor(rows, b, interval).None? <==> InBucket(rows, b, interval) == []
    ensures BarFor(rows, b, interval).Some? ==> BarFor(rows, b, interval).value.volume == |InBucket(rows, b, interval)|
  {
    hide Bucket, BarOf, InBucket;
    SortCommutesWithBucket(rows, b, interval);
    ByTimeSorts(InBucket(rows, b, interval));
    if BarFor(rows, b, interval).Some? { VolumeIsSize(b, InBucket(ByTime(rows), b, interval)); }
  }

  lemma VolumeIsSize(b: int, group: seq<Tick>)
    requires group != []
    ensures BarOf(b, group).volume == |group|
  {
  }

  // ---- Order of the input -----------------------------------------------------------------------------

  lemma SameElements(a: seq<Tick>, c: seq<Tick>)
    requires multiset(a) == multiset(c)
    ensures |a| == |c| && forall t :: t in a <==> t in c
  {
    assert |a| == |multiset(a)| == |multiset(c)| == |c|;
    forall t ensures t in a <==> t in c {
      assert t in a <==> t in multiset(a);
    }
  }

  /** The bar opens on the first-listed of its bucket's earliest ticks and closes on the
      last-listed of its latest.  The cache lists newest arrivals first, so among tied ticks the
      latest arrival opens the bar and the earliest arrival closes it. */
  lemma TiesOpenFirstCloseLast(rows: seq<Tick>, b: int, interval: int, i: nat, j: nat)
    requires interval > 0
    requires FirstLeast(InBucket(rows, b, interval), TimeOf(), i)
    requires LastGreatest(InBucket(rows, b, interval), TimeOf(), j)
    ensures var group := InBucket(rows, b, interval);
            var bar := BarFor(rows, b, interval);
            bar.Some? && bar.value.open == group[i].px && bar.value.close == group[j].px
  {
    hide Bucket, InBucket, TimeOf, Highest, Lowest;
    var group := InBucket(rows, b, interval);
    SortCommutesWithBucket(rows, b, interval);
    SortHead(group, TimeOf(), i);
    SortLast(group, TimeOf(), j);
  }

  lemma {:induction false} EndsExist(group: seq<Tick>) returns (i: nat, j: nat)
    requires group != []
    ensures FirstLeast(group, TimeOf(), i) && LastGreatest(group, TimeOf(), j)
  {
    var n := |group| - 1;
    if n == 0 {
      i, j := 0, 0;
    } else {
      i, j := EndsExist(group[..n]);
      assert forall k :: 0 <= k < n ==> group[k] == group[..n][k];
      if group[n].ts < group[i].ts { i := n; }
      if group[n].ts >= group[j].ts { j := n; }
    }
  }

  ghost predicate IsEarliest(group: seq<Tick>, t: Tick) {
    forall u :: u in group ==> t.ts <= u.ts
  }

  ghost predicate IsLatest(group: seq<Tick>, t: Tick) {
    forall u :: u in group ==> u.ts <= t.ts
  }

  /** The ticks at the earliest timestamp share a price, and so do those at the latest. */
  ghost predicate EndsAgree(group: seq<Tick>) {
    forall s, t :: s in group && t in group && s.ts == t.ts && (IsEarliest(group, s) || IsLatest(group, s)) ==> s.px == t.px
  }

  /** Every permutation of the rows yields the same bar. */
  ghost predicate OrderFree(rows: seq<Tick>, b: int, interval: int)
    requires interval > 0
  {
    forall rows' :: multiset(rows') == multiset(rows) ==> BarFor(rows', b, interval) == BarFor(rows, b, interval)
  }

  lemma ExtremesPermute(a: seq<Tick>, c: seq<Tick>)
    requires a != [] && c != [] && forall t :: t in a <==> t in c
    ensures Highest(a) == Highest(c) && Lowest(a) == Lowest(c)
  {
    hide Highest, Lowest;
    HighestIsMaximum(a);
    HighestIsMaximum(c);
    var i :| 0 <= i < |a| && a[i].px == Highest(a);
    var j :| 0 <= j < |a| && a[j].px == Lowest(a);
    var k :| 0 <= k < |c| && c[k].px == Highest(c);
    var l :| 0 <= l < |c| && c[l].px == Lowest(c);
    assert a[i] in c && a[j] in c && c[k] in a && c[l] in a;
  }

  lemma PermutedGroups(rows: seq<Tick>, rows': seq<Tick>, b: int, interval: int)
    requires interval > 0 && multiset(rows) == multiset(rows')
    ensures |InBucket(rows, b, interval)| == |InBucket(rows', b, interval)|
    ensures forall t :: t in InBucket(rows, b, interval) <==> t in InBucket(rows', b, interval)
  {
    hide Select;
    SelectPermutes(rows, rows', IsIn(b, interval));
    SameElements(InBucket(rows, b, interval), InBucket(rows', b, interval));
  }

  lemma PermutedExtremes(group: seq<Tick>, group': seq<Tick>, b: int)
    requires group != [] && |group| == |group'| && forall t :: t in group <==> t in group'
    ensures ByTime(group) != [] && ByTime(group') != []
    ensures var x, y := BarOf(b, ByTime(group)), BarOf(b, ByTime(group'));
            x.epoch == y.epoch && x.high == y.high && x.low == y.low && x.volume == y.volume
  {
    hide ByTime, Highest, Lowest;
    ByTimeSorts(group);
    ByTimeSorts(group');
    SameElements(ByTime(group), group);
    SameElements(ByTime(group'), group');
    ExtremesPermute(ByTime(group), ByTime(group'));
  }

  lemma AgreeingEndsAreOrderFree(rows: seq<Tick>, rows': seq<Tick>, b: int, interval: int)
    requires interval > 0 && multiset(rows') == multiset(rows) && EndsAgree(InBucket(rows, b, interval))
    ensures BarFor(rows', b, interval) == BarFor(rows, b, interval)
  {
    hide Bucket, InBucket, BarOf, ByTime;
    PermutedGroups(rows, rows', b, interval);
    SortCommutesWithBucket(rows, b, interval);
    SortCommutesWithBucket(rows', b, interval);
    var group, group' := InBucket(rows, b, interval), InBucket(rows', b, interval);
    ByTimeSorts(group);
    ByTimeSorts(group');
    if group != [] {
      var i, j := EndsExist(group);
      var i', j' := EndsExist(group');
      TiesOpenFirstCloseLast(rows, b, interval, i, j);
      TiesOpenFirstCloseLast(rows', b, interval, i', j');
      PermutedExtremes(group, group', b);
      EndsSharePrices(group, group', i, j, i', j');
    }
  }

  lemma EndsSharePrices(group: seq<Tick>, group': seq<Tick>, i: nat, j: nat, i': nat, j': nat)
    requires EndsAgree(group) && forall t :: t in group <==> t in group'
    requires FirstLeast(group, TimeOf(), i) && LastGreatest(group, TimeOf(), j)
    requires FirstLeast(group', TimeOf(), i') && LastGreatest(group', TimeOf(), j')
    ensures group[i].px == group'[i'].px && group[j].px == group'[j'].px
  {
    EndsAreExtreme(group, i, j);
    EndsAreExtreme(group', i', j');
    hide TimeOf, FirstLeast, LastGreatest;
    assert group[i] in group && group[j] in group && group'[i'] in group && group'[j'] in group;
  }

  lemma EndsAreExtreme(group: seq<Tick>, i: nat, j: nat)
    requires FirstLeast(group, TimeOf(), i) && LastGreatest(group, TimeOf(), j)
    ensures i < |group| && j < |group| && IsEarliest(group, group[i]) && IsLatest(group, group[j])
  {
    forall u | u in group ensures group[i].ts <= u.ts <= group[j].ts {
      var k :| 0 <= k < |group| && group[k] == u;
      assert TimeOf()(group[i]) <= TimeOf()(group[k]) <= TimeOf()(group[j]);
    }
  }

  /** A permutation that lists t first opens the bucket on t, if t is among its earliest; one that
      lists it last closes on t, if it is among its latest. */
  lemma MoveToEnd(rows: seq<Tick>, t: Tick, b: int, interval: int)
    requires interval > 0 && t in InBucket(rows, b, interval) && OrderFree(rows, b, interval)
    ensures BarFor(rows, b, interval).Some?
    ensures IsEarliest(InBucket(rows, b, interval), t) ==> BarFor(rows, b, interval).value.open == t.px
    ensures IsLatest(InBucket(rows, b, interval), t) ==> BarFor(rows, b, interval).value.close == t.px
  {
    hide Bucket, BarFor, InBucket;
    var group := InBucket(rows, b, interval);
    BarCountsTicks(rows, b, interval);
    assert t in rows by { InBucketMeans(rows, b, interval, t); }
    var k :| 0 <= k < |rows| && rows[k] == t;
    var rest := rows[..k] + rows[k + 1..];
    assert rows == rows[..k] + [t] + rows[k + 1..];
    assert multiset([t] + rest) == multiset(rows) == multiset(rest + [t]);
    FirstListed(rows, rest, t, b, interval);
    LastListed(rows, rest, t, b, interval);
  }

  lemma InBucketMeans(rows: seq<Tick>, b: int, interval: int, t: Tick)
    requires interval > 0 && t in InBucket(rows, b, interval)
    ensures t in rows && Bucket(t, interval) == b
  {
    hide Bucket;
  }

  lemma FirstListed(rows: seq<Tick>, rest: seq<Tick>, t: Tick, b: int, interval: int)
    requires interval > 0 && t in InBucket(rows, b, interval) && multiset([t] + rest) == multiset(rows)
    ensures BarFor([t] + rest, b, interval).Some?
    ensures IsEarliest(InBucket(rows, b, interval), t) ==> BarFor([t] + rest, b, interval).value.open == t.px
  {
    hide Bucket, BarFor, InBucket;
    var group, group' := InBucket(rows, b, interval), InBucket([t] + rest, b, interval);
    InBucketMeans(rows, b, interval, t);
    PermutedGroups(rows, [t] + rest, b, interval);
    InBucketConcat([t], rest, b, interval);
    InBucketSingle(t, b, interval);
    assert group'[0] == t;
    var i, j := EndsExist(group');
    if IsEarliest(group, t) { i := 0; HeadIsFirst(group'); }
    TiesOpenFirstCloseLast([t] + rest, b, interval, i, j);
  }

  lemma HeadIsFirst(group: seq<Tick>)
    requires group != [] && IsEarliest(group, group[0])
    ensures FirstLeast(group, TimeOf(), 0)
  {
  }

  lemma LastListed(rows: seq<Tick>, rest: seq<Tick>, t: Tick, b: int, interval: int)
    requires interval > 0 && t in InBucket(rows, b, interval) && multiset(rest + [t]) == multiset(rows)
    ensures BarFor(rest + [t], b, interval).Some?
    ensures IsLatest(InBucket(rows, b, interval), t) ==> BarFor(rest + [t], b, interval).value.close == t.px
  {
    hide Bucket, BarFor, InBucket;
    var group, group' := InBucket(rows, b, interval), InBucket(rest + [t], b, interval);
    InBucketMeans(rows, b, interval, t);
    PermutedGroups(rows, rest + [t], b, interval);
    InBucketAppend(rest, t, b, interval);
    assert group'[|group'| - 1] == t;
    var i, j := EndsExist(group');
    if IsLatest(group, t) { j := |group'| - 1; EndIsLast(group'); }
    TiesOpenFirstCloseLast(rest + [t], b, interval, i, j);
  }

  lemma EndIsLast(group: seq<Tick>)
    requires group != [] && IsLatest(group, group[|group| - 1])
    ensures LastGreatest(group, TimeOf(), |group| - 1)
  {
  }

  /** The order of the input does not matter to a bar exactly when the bucket's ticks at its
      earliest timestamp share a price and those at its latest timestamp share a price. */
  lemma OrderFreeIff(rows: seq<Tick>, b: int, interval: int)
    requires interval > 0
    ensures OrderFree(rows, b, interval) <==> EndsAgree(InBucket(rows, b, interval))
  {
    hide BarFor, InBucket, IsEarliest, IsLatest;
    var group := InBucket(rows, b, interval);
    if EndsAgree(group) {
      forall rows' | multiset(rows') == multiset(rows) ensures BarFor(rows', b, interval) == BarFor(rows, b, interval) {
        AgreeingEndsAreOrderFree(rows, rows', b, interval);
      }
    }
    if OrderFree(rows, b, interval) {
      forall s, t | s in group && t in group && s.ts == t.ts && (IsEarliest(group, s) || IsLatest(group, s))
        ensures s.px == t.px
      {
        SameEnd(group, s, t);
        MoveToEnd(rows, s, b, interval);
        MoveToEnd(rows, t, b, interval);
      }
    }
  }

  lemma SameEnd(group: seq<Tick>, s: Tick, t: Tick)
    requires s.ts == t.ts
    ensures IsEarliest(group, s) <==> IsEarliest(group, t)
    ensures IsLatest(group, s) <==> IsLatest(group, t)
  {
  }

  lemma BarOfOneTick(t: Tick, b: int, interval: int)
    requires interval > 0 && Bucket(t, interval) == b
    ensures BarFor([t], b, interval) == Some(Bar(b, t.px, t.px, t.px, t.px, 1))
  {
    hide Bucket, BarOf;
    SortTwo(t, t, TimeOf());
    InBucketSingle(t, b, interval);
    BarOfSingle(b, t);
  }

  lemma BarOfTwoTicks(first: Tick, second: Tick, b: int, interval: int)
    requires interval > 0 && Bucket(first, interval) == Bucket(second, interval) == b
    requires ByTime([second, first]) == [first, second]
    ensures BarFor([second, first], b, interval) == Some(Extended(Bar(b, first.px, first.px, first.px, first.px, 1), second.px))
  {
    hide Bucket, BarOf, Extended;
    InBucketSingle(first, b, interval);
    InBucketAppend([first], second, b, interval);
    assert [first] + [second] == [first, second];
    BarOfSingle(b, first);
    BarOfExtended(b, [first], second);
  }

  // ---- Volumes --------------------------------------------------------------------------------------

  function TotalVolume(bars: seq<Bar>): nat {
    if bars == [] then 0 else TotalVolume(bars[..|bars| - 1]) + bars[|bars| - 1].volume
  }

  /** The rows outside bucket b. */
  function Remove(rows: seq<Tick>, b: int, interval: int): seq<Tick>
    requires interval > 0
  {
    if rows == [] then []
    else if Bucket(rows[0], interval) == b then Remove(rows[1..], b, interval)
    else [rows[0]] + Remove(rows[1..], b, interval)
  }

  lemma {:induction false} RemoveSplits(rows: seq<Tick>, b: int, interval: int)
    requires interval > 0
    ensures |rows| == |InBucket(rows, b, interval)| + |Remove(rows, b, interval)|
    ensures forall t :: t in Remove(rows, b, interval) ==> t in rows && Bucket(t, interval) != b
  {
    hide Bucket;
    if rows != [] { RemoveSplits(rows[1..], b, interval); }
  }

  lemma {:induction false} RemoveKeepsOthers(rows: seq<Tick>, b: int, c: int, interval: int)
    requires interval > 0 && b != c
    ensures InBucket(Remove(rows, b, interval), c, interval) == InBucket(rows, c, interval)
  {
    hide Bucket;
    if rows != [] {
      RemoveKeepsOthers(rows[1..], b, c, interval);
      var tail := Remove(rows[1..], b, interval);
      assert ([rows[0]] + tail)[1..] == tail;
    }
  }

  lemma OtherBarsKeepGroups(bars: seq<Bar>, rows: seq<Tick>, i: nat, interval: int)
    requires interval > 0 && AreBars(bars, rows, interval) && i < |bars| - 1
    ensures InBucket(Remove(rows, bars[|bars| - 1].epoch, interval), bars[i].epoch, interval)
            == InBucket(rows, bars[i].epoch, interval)
  {
    hide Bucket, BarOf, InBucket;
    assert bars[i].epoch < bars[|bars| - 1].epoch;
    RemoveKeepsOthers(rows, bars[|bars| - 1].epoch, bars[i].epoch, interval);
  }

  lemma OtherBarsCover(bars: seq<Bar>, rows: seq<Tick>, k: nat, interval: int)
    requires interval > 0 && bars != [] && AreBars(bars, rows, interval)
    requires k < |Remove(rows, bars[|bars| - 1].epoch, interval)|
    ensures exists i :: 0 <= i < |bars| - 1 && bars[i].epoch == Bucket(Remove(rows, bars[|bars| - 1].epoch, interval)[k], interval)
  {
    hide Bucket, BarOf, InBucket, Remove;
    var b := bars[|bars| - 1].epoch;
    RemoveSplits(rows, b, interval);
    var t := Remove(rows, b, interval)[k];
    assert t in rows && Bucket(t, interval) != b;
    var j :| 0 <= j < |rows| && rows[j] == t;
    var i :| 0 <= i < |bars| && bars[i].epoch == Bucket(rows[j], interval);
    assert i < |bars| - 1;
  }

  lemma RemoveLastBar(bars: seq<Bar>, rows: seq<Tick>, interval: int)
    requires interval > 0 && bars != [] && AreBars(bars, rows, interval)
    ensures AreBars(bars[..|bars| - 1], Remove(rows, bars[|bars| - 1].epoch, interval), interval)
  {
    hide Bucket, BarOf, InBucket, Remove;
    var init, rest := bars[..|bars| - 1], Remove(rows, bars[|bars| - 1].epoch, interval);
    forall i | 0 <= i < |init|
      ensures InBucket(rest, init[i].epoch, interval) != []
      ensures init[i] == BarOf(init[i].epoch, InBucket(rest, init[i].epoch, interval))
    {
      OtherBarsKeepGroups(bars, rows, i, interval);
      assert init[i] == bars[i];
    }
    forall k | 0 <= k < |rest| ensures exists i :: 0 <= i < |init| && init[i].epoch == Bucket(rest[k], interval) {
      OtherBarsCover(bars, rows, k, interval);
      var i :| 0 <= i < |bars| - 1 && bars[i].epoch == Bucket(rest[k], interval);
      assert init[i].epoch == Bucket(rest[k], interval);
    }
    assert forall i, j :: 0 <= i < j < |init| ==> init[i].epoch < init[j].epoch;
    assert forall i :: 0 <= i < |init| ==>
        var group := InBucket(rest, init[i].epoch, interval);
        group != [] && init[i] == BarOf(init[i].epoch, group);
  }

  lemma RowsHaveBars(bars: seq<Bar>, rows: seq<Tick>, interval: int)
    requires interval > 0 && AreBars(bars, rows, interval) && rows != []
    ensures bars != []
  {
    hide Bucket, InBucket, BarOf;
    var t := rows[0];
    var i :| 0 <= i < |bars| && bars[i].epoch == Bucket(t, interval);
  }

  /** The volumes of all bars add up to the number of rows. */
  lemma {:induction false} VolumesAddUp(bars: seq<Bar>, rows: seq<Tick>, interval: int)
    requires interval > 0 && AreBars(bars, rows, interval)
    ensures TotalVolume(bars) == |rows|
    decreases |bars|
  {
    hide Bucket, Highest, Lowest;
    if bars == [] {
      if rows != [] { RowsHaveBars(bars, rows, interval); }
    } else {
      var last := bars[|bars| - 1];
      RemoveLastBar(bars, rows, interval);
      VolumesAddUp(bars[..|bars| - 1], Remove(rows, last.epoch, interval), interval);
      RemoveSplits(rows, last.epoch, interval);
      VolumeIsSize(last.epoch, InBucket(rows, last.epoch, interval));
    }
  }
}
