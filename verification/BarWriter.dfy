/** The flush of completed bars into the ohlcv_bars table:
    services/market-data/app/bar_writer.py over shared/mezna_shared/ohlcv.py. */
module BarWriter {
  import opened Options
  import opened Bars
  import opened Sorting
  import opened Integers

  datatype Target = Target(venue: string, symbol: string)

  type Table = map<(Target, int), Bar>

  function Row(table: Table, target: Target, b: int): Option<Bar> {
    if (target, b) in table then Some(table[(target, b)]) else None
  }

  predicate Completed(b: int, width: int, now: real) {
    b as real + width as real <= now
  }

  /** A bucket is completed exactly when every timestamp it can hold is before the clock. */
  lemma CompletedIff(b: int, width: int, now: real)
    requires width > 0 && b % width == 0
    ensures Completed(b, width, now) <==> forall t: Tick :: Bucket(t, width) == b ==> t.ts < now
  {
    if Completed(b, width, now) {
      forall t: Tick | Bucket(t, width) == b ensures t.ts < now {
        BucketBounds(t, width);
      }
    } else {
      var latest := if now > b as real then Tick(now, 1.0) else Tick(b as real, 1.0);
      BucketOfInside(latest, b, width);
      assert !(latest.ts < now);
    }
  }

  lemma BucketOfInside(t: Tick, b: int, width: int)
    requires width > 0 && b % width == 0 && b as real <= t.ts < b as real + width as real
    ensures Bucket(t, width) == b
  {
    BucketBounds(t, width);
    SameMultiple(b, Bucket(t, width), width);
  }

  /** Two multiples less than one width apart are equal. */
  lemma SameMultiple(b: int, c: int, width: int)
    requires width > 0 && b % width == 0 && c % width == 0 && -width < b - c < width
    ensures b == c
  {
    NoSmallMultiple(b / width - c / width, width, b - c);
  }

  /** The bar a flush at time now writes for bucket b of a cache, if any. */
  function Written(cache: seq<Quote>, b: int, width: int, now: real): Option<Bar> {
    if width > 0 && Completed(b, width, now) then BarFor(Usable(cache), b, width) else None
  }

  /** after is before with every bar of the flushed targets written over it. */
  ghost predicate Flushed(before: Table, after: Table, targets: seq<Target>, caches: Target -> seq<Quote>,
                          width: int, now: real) {
    forall target, b ::
      Row(after, target, b)
      == if target in targets && Written(caches(target), b, width, now).Some?
         then Written(caches(target), b, width, now)
         else Row(before, target, b)
  }

  class OhlcvBars {
    var rows: Table

    constructor ()
      ensures rows == map[]
    {
      rows := map[];
    }

    /** Upsert of a batch for one target: the last writer of a bucket wins. */
    method UpsertBars(target: Target, bars: seq<Bar>) returns (count: nat)
      requires forall i, j :: 0 <= i < j < |bars| ==> bars[i].epoch != bars[j].epoch
      modifies this
      ensures count == |bars|
      ensures forall i :: 0 <= i < |bars| ==> Row(rows, target, bars[i].epoch) == Some(bars[i])
      ensures forall t, b :: (t != target || forall i :: 0 <= i < |bars| ==> bars[i].epoch != b)
                             ==> Row(rows, t, b) == old(Row(rows, t, b))
    {
      count := 0;
      for k := 0 to |bars|
        invariant count == k
        invariant forall i :: 0 <= i < k ==> Row(rows, target, bars[i].epoch) == Some(bars[i])
        invariant forall t, b :: (t != target || forall i :: 0 <= i < k ==> bars[i].epoch != b)
                                 ==> Row(rows, t, b) == old(Row(rows, t, b))
      {
        rows := rows[(target, bars[k].epoch) := bars[k]];
        count := count + 1;
      }
    }

    /** One pass over the targets. */
    method FlushOnce(targets: seq<Target>, caches: Target -> seq<Quote>, width: int, now: real)
      returns (total: nat, ghost batches: seq<seq<Bar>>)
      modifies this
      ensures Flushed(old(rows), rows, targets, caches, width, now)
      ensures |batches| == |targets| && total == TotalSize(batches)
      ensures forall k :: 0 <= k < |targets| ==> IsBatch(batches[k], caches(targets[k]), width, now)
    {
      hide Written, Completed, CompletedBars, Flushed, IsBatch, ByTime, AreBars, Usable;
      total, batches := 0, [];
      FlushNothing(rows, caches, width, now);
      for k := 0 to |targets|
        invariant Flushed(old(rows), rows, targets[..k], caches, width, now)
        invariant |batches| == k && total == TotalSize(batches)
        invariant forall j :: 0 <= j < k ==> IsBatch(batches[j], caches(targets[j]), width, now)
      {
        var bars := TicksToOhlcv(caches(targets[k]), width);
        var completed := CompletedBars(bars, width, now);
        CompletedAreWritten(bars, completed, caches(targets[k]), width, now);
        BatchAscends(completed, caches(targets[k]), width, now);
        ghost var before := rows;
        var count := UpsertBars(targets[k], completed);
        total := total + count;
        assert (batches + [completed])[..k] == batches;
        batches := batches + [completed];
        FlushOneMore(old(rows), before, rows, targets, k, caches, width, now, completed);
      }
      assert targets[..|targets|] == targets;
    }
  }

  /** The bars whose interval has elapsed, in order. */
  function CompletedBars(bars: seq<Bar>, width: int, now: real): seq<Bar> {
    if bars == [] then []
    else if Completed(bars[0].epoch, width, now) then [bars[0]] + CompletedBars(bars[1..], width, now)
    else CompletedBars(bars[1..], width, now)
  }

  lemma {:induction false} CompletedContents(bars: seq<Bar>, width: int, now: real)
    ensures forall bar :: bar in CompletedBars(bars, width, now) <==> bar in bars && Completed(bar.epoch, width, now)
  {
    hide Completed;
    if bars != [] {
      CompletedContents(bars[1..], width, now);
      assert bars == [bars[0]] + bars[1..];
    }
  }

  ghost predicate Ascending(bars: seq<Bar>) {
    forall i, j :: 0 <= i < j < |bars| ==> bars[i].epoch < bars[j].epoch
  }

  lemma {:induction false} CompletedAscending(bars: seq<Bar>, width: int, now: real)
    requires Ascending(bars)
    ensures Ascending(CompletedBars(bars, width, now))
  {
    hide Completed;
    if bars != [] {
      CompletedAscending(bars[1..], width, now);
      CompletedContents(bars[1..], width, now);
      var tail := CompletedBars(bars[1..], width, now);
      forall j | 0 <= j < |tail| ensures bars[0].epoch < tail[j].epoch {
        assert tail[j] in bars[1..];
      }
    }
  }

  /** A batch that holds exactly the written bars of one cache. */
  ghost predicate IsBatch(completed: seq<Bar>, cache: seq<Quote>, width: int, now: real) {
    && Ascending(completed)
    && (forall i :: 0 <= i < |completed| ==> Written(cache, completed[i].epoch, width, now) == Some(completed[i]))
    && (forall b :: Written(cache, b, width, now).Some? ==> exists i :: 0 <= i < |completed| && completed[i].epoch == b)
  }

  function TotalSize(batches: seq<seq<Bar>>): nat {
    if batches == [] then 0 else TotalSize(batches[..|batches| - 1]) + |batches[|batches| - 1]|
  }

  lemma FlushNothing(table: Table, caches: Target -> seq<Quote>, width: int, now: real)
    ensures Flushed(table, table, [], caches, width, now)
  {
  }

  lemma BatchAscends(completed: seq<Bar>, cache: seq<Quote>, width: int, now: real)
    requires IsBatch(completed, cache, width, now)
    ensures forall i, j :: 0 <= i < j < |completed| ==> completed[i].epoch != completed[j].epoch
  {
  }

  lemma CompletedAreWritten(bars: seq<Bar>, completed: seq<Bar>, cache: seq<Quote>, width: int, now: real)
    requires completed == CompletedBars(bars, width, now)
    requires width <= 0 ==> bars == []
    requires width > 0 ==> AreBars(bars, ByTime(Usable(cache)), width)
    ensures IsBatch(completed, cache, width, now)
  {
    hide AreBars, BarFor, Completed, CompletedBars;
    if width > 0 {
      BarsAscend(bars, ByTime(Usable(cache)), width);
      CompletedAscending(bars, width, now);
      CompletedContents(bars, width, now);
      forall i | 0 <= i < |completed| ensures Written(cache, completed[i].epoch, width, now) == Some(completed[i]) {
        assert completed[i] in bars;
        BarsLookUp(bars, Usable(cache), width, completed[i].epoch);
      }
      forall b | Written(cache, b, width, now).Some? ensures exists i :: 0 <= i < |completed| && completed[i].epoch == b {
        BarsLookUp(bars, Usable(cache), width, b);
        var i :| 0 <= i < |bars| && bars[i].epoch == b;
        assert bars[i] in completed;
      }
    } else {
      NoneCompleted(width, now);
    }
  }

  lemma NoneCompleted(width: int, now: real)
    ensures CompletedBars([], width, now) == []
  {
  }

  lemma BarsAscend(bars: seq<Bar>, rows: seq<Tick>, width: int)
    requires width > 0 && AreBars(bars, rows, width)
    ensures Ascending(bars)
  {
  }

  lemma FlushOneMore(start: Table, before: Table, after: Table, targets: seq<Target>, k: nat,
                     caches: Target -> seq<Quote>, width: int, now: real, completed: seq<Bar>)
    requires k < |targets| && Flushed(start, before, targets[..k], caches, width, now)
    requires IsBatch(completed, caches(targets[k]), width, now)
    requires forall i :: 0 <= i < |completed| ==> Row(after, targets[k], completed[i].epoch) == Some(completed[i])
    requires forall t, b :: (t != targets[k] || forall i :: 0 <= i < |completed| ==> completed[i].epoch != b)
                            ==> Row(after, t, b) == Row(before, t, b)
    ensures Flushed(start, after, targets[..k + 1], caches, width, now)
  {
  }

  lemma {:induction false} UsablePositive(quotes: seq<Quote>)
    ensures forall t :: t in Usable(quotes) ==> t.px > 0.0
  {
    if quotes != [] { UsablePositive(quotes[1..]); }
  }

  /** Every bar a flush writes has the positive prices that the upsert insists on. */
  lemma WrittenPricesPositive(cache: seq<Quote>, b: int, width: int, now: real)
    requires Written(cache, b, width, now).Some?
    ensures var bar := Written(cache, b, width, now).value;
            0.0 < bar.low <= bar.open && bar.low <= bar.close && bar.open <= bar.high && bar.close <= bar.high
  {
    hide Usable, Completed, ByTime, InBucket, Bucket;
    var group := InBucket(ByTime(Usable(cache)), b, width);
    UsablePositive(cache);
    ByTimeSorts(Usable(cache));
    HighestIsMaximum(group);
    var i :| 0 <= i < |group| && group[i].px == Lowest(group);
    assert group[i] in multiset(ByTime(Usable(cache)));
    assert group[i] in Usable(cache);
  }

  // ---- Flushing again -----------------------------------------------------------------------

  /** Ticks stamped after a bucket's end are not in it. */
  lemma {:induction false} LaterTicksAreElsewhere(newer: seq<Tick>, b: int, width: int, now: real)
    requires width > 0 && Completed(b, width, now)
    requires forall t :: t in newer ==> now <= t.ts
    ensures InBucket(newer, b, width) == []
  {
    hide Bucket;
    if newer != [] {
      BucketBounds(newer[0], width);
      LaterTicksAreElsewhere(newer[1..], b, width, now);
    }
  }

  /** The first flush wrote bucket b of a target; before the second its cache took newer ticks in
      front and dropped its oldest ones. */
  ghost predicate FlushedTwice(start: Table, first: Table, second: Table, targets: seq<Target>, target: Target,
                               caches: Target -> seq<Quote>, caches': Target -> seq<Quote>,
                               newer: seq<Tick>, kept: seq<Tick>, dropped: seq<Tick>,
                               b: int, width: int, now: real, now': real) {
    && width > 0 && target in targets
    && Flushed(start, first, targets, caches, width, now)
    && Flushed(first, second, targets, caches', width, now')
    && Usable(caches(target)) == kept + dropped && Usable(caches'(target)) == newer + kept
    && Written(caches(target), b, width, now).Some?
  }

  /** Nothing to write: the bucket counts as unfinished again, or all its ticks are gone. */
  ghost predicate LeftAlone(newer: seq<Tick>, kept: seq<Tick>, b: int, width: int, now': real)
    requires width > 0
  {
    !Completed(b, width, now') || (InBucket(newer, b, width) == [] && InBucket(kept, b, width) == [])
  }

  /** A written row survives the next flush unchanged only if that flush has nothing to write for
      it or as many ticks of the bucket arrived as were dropped.  If none was dropped it survives
      exactly when none arrived, and if none arrived, exactly when none was dropped. */
  lemma SecondFlushKeepsRowIff(start: Table, first: Table, second: Table, targets: seq<Target>, target: Target,
                               caches: Target -> seq<Quote>, caches': Target -> seq<Quote>,
                               newer: seq<Tick>, kept: seq<Tick>, dropped: seq<Tick>,
                               b: int, width: int, now: real, now': real)
    requires FlushedTwice(start, first, second, targets, target, caches, caches', newer, kept, dropped, b, width, now, now')
    ensures var same := Row(second, target, b) == Row(first, target, b);
            var arrived, gone := InBucket(newer, b, width), InBucket(dropped, b, width);
            && (LeftAlone(newer, kept, b, width, now') ==> same)
            && (!LeftAlone(newer, kept, b, width, now') ==>
                  && (same ==> |arrived| == |gone|)
                  && (gone == [] ==> (same <==> arrived == []))
                  && (arrived == [] ==> (same <==> gone == [])))
  {
    hide Bucket, Usable, InBucket, BarFor, Row, Completed;
    InBucketConcat(newer, kept, b, width);
    InBucketConcat(kept, dropped, b, width);
    BarCountsTicks(newer + kept, b, width);
    BarCountsTicks(kept + dropped, b, width);
    assert Row(first, target, b) == BarFor(kept + dropped, b, width);
    assert Row(second, target, b)
        == if LeftAlone(newer, kept, b, width, now') then Row(first, target, b) else BarFor(newer + kept, b, width);
    if InBucket(newer, b, width) == [] && InBucket(dropped, b, width) == [] {
      NothingArrivedOrGone(newer, kept, dropped, b, width);
    }
  }

  lemma NothingArrivedOrGone(newer: seq<Tick>, kept: seq<Tick>, dropped: seq<Tick>, b: int, width: int)
    requires width > 0 && InBucket(newer, b, width) == [] && InBucket(dropped, b, width) == []
    ensures BarFor(newer + kept, b, width) == BarFor(kept + dropped, b, width)
  {
    hide InBucket, BarFor;
    InBucketConcat(newer, kept, b, width);
    InBucketConcat(kept, dropped, b, width);
    var group := InBucket(kept, b, width);
    assert [] + group == group == group + [];
    BarDependsOnBucketOnly(newer + kept, kept + dropped, b, width);
  }

  /** Two ticks share the first minute; once the cache has dropped the older one the next
      flush replaces the finished bar by one of half its volume. */
  lemma ReflushCanShrinkBar()
    ensures var kept, dropped := [Tick(30.0, 2.0)], [Tick(10.0, 1.0)];
            && BarFor(kept + dropped, 0, 60) == Some(Bar(0, 1.0, 2.0, 1.0, 2.0, 2))
            && BarFor(kept, 0, 60) == Some(Bar(0, 2.0, 2.0, 2.0, 2.0, 1))
  {
    var late, early := Tick(30.0, 2.0), Tick(10.0, 1.0);
    hide *;
    assert [late] + [early] == [late, early];
    LateAndEarly(late, early);
    BarOfOneTick(late, 0, 60);
    BarOfTwoTicks(early, late, 0, 60);
    WidestOf(early, late);
  }

  /** A tick of the finished minute reaches the cache only after the flush: the next one rewrites
      the bar, although nothing was dropped. */
  lemma LateTickRewritesBar()
    ensures var newer, kept := [Tick(30.0, 2.0)], [Tick(10.0, 1.0)];
            && BarFor(kept, 0, 60) == Some(Bar(0, 1.0, 1.0, 1.0, 1.0, 1))
            && BarFor(newer + kept, 0, 60) == Some(Bar(0, 1.0, 2.0, 1.0, 2.0, 2))
  {
    var late, early := Tick(30.0, 2.0), Tick(10.0, 1.0);
    hide *;
    assert [late] + [early] == [late, early];
    LateAndEarly(late, early);
    BarOfOneTick(early, 0, 60);
    BarOfTwoTicks(early, late, 0, 60);
    WidestOf(early, late);
  }

  lemma LateAndEarly(late: Tick, early: Tick)
    requires late == Tick(30.0, 2.0) && early == Tick(10.0, 1.0)
    ensures Bucket(late, 60) == 0 && Bucket(early, 60) == 0
    ensures ByTime([late, early]) == [early, late]
  {
    hide StableSort;
    SortTwo(late, early, TimeOf());
  }

  lemma WidestOf(early: Tick, late: Tick)
    requires early.px <= late.px
    ensures Extended(Bar(0, early.px, early.px, early.px, early.px, 1), late.px) == Bar(0, early.px, late.px, early.px, late.px, 2)
  {
  }
}
