/** Where a mirrored bar is another bar than the one the agents see: gap placeholders,
  * which the mirror aggregates, and the bucket offset, which it ignores. */
module MirroredBars {
  import opened Wrappers
  import opened Candles
  import opened CandleLaws
  import opened Tables
  import opened Windows
  import opened ReportingSync
  import opened LateRows
  import opened MirrorReads

  // ---------------------------------------------------------------- placeholders

  lemma {:induction false} JoinLookup(x: seq<Bar>, b: Bar, ts: int)
    requires Increasing(Join(x, [b]))
    ensures Lookup(Join(x, [b]), ts) ==
            if ts != b.ts then Lookup(x, ts)
            else if Lookup(x, ts).Some? then Some(Combine(Lookup(x, ts).value, b)) else Some(b)
  {
    hide Increasing;
    if x != [] && x[|x| - 1].ts == b.ts {
      var init, c := x[..|x| - 1], Combine(x[|x| - 1], b);
      assert Join(x, [b]) == init + [c];
      assert (init + [c])[..|init + [c]| - 1] == init;
    } else {
      var z := x + [b];
      assert z[..|z| - 1] == x;
      NotBefore(x, b);
    }
  }

  /** The bar of a bucket is that of its candles, and there is none without any. */
  lemma {:induction false} BarAt(cs: seq<Bar>, g: Buckets, ts: int)
    requires Increasing(cs)
    ensures var group := Group(cs, ts, g);
            Lookup(Streamed(cs, g), ts) == if group == [] then None else Some(Aggregate(ts, group))
  {
    hide BucketStart, Lookup, Join, Increasing, Aggregate, Combine;
    if cs == [] {
      NothingStored([]);
    } else {
      var init, c := cs[..|cs| - 1], cs[|cs| - 1];
      SplitIncreasing(cs, |cs| - 1);
      BarAt(init, g, ts);
      IncreasingInOrder(cs, g);
      JoinLookup(Streamed(init, g), Single(c, g), ts);
      if Group(init, ts, g) != [] {
        AggregateExtend(ts, Group(init, ts, g), c, g);
      }
      AggregateOne(ts, c);
      assert init + [c] == cs && [] + [c] == [c];
      GroupExtend(init, c, ts, g);
    }
  }

  lemma {:induction false} DroppedGroup(cs: seq<Bar>, g: Buckets, ts: int)
    ensures Group(DropNulls(cs), ts, g) == DropNulls(Group(cs, ts, g))
  {
    hide BucketStart, IsNull;
    if cs != [] {
      var init, c := cs[..|cs| - 1], cs[|cs| - 1];
      DroppedGroup(init, g, ts);
      var group := Group(init, ts, g);
      assert (group + [c])[..|group + [c]| - 1] == group;
      GroupExtend(DropNulls(init), c, ts, g);
      assert DropNulls(init) + [] == DropNulls(init);
      assert group + [] == group;
    }
  }

  lemma {:induction false} InGroup(cs: seq<Bar>, g: Buckets, ts: int, c: Bar)
    ensures c in Group(cs, ts, g) <==> c in cs && BucketStart(c.ts, g) == ts
  {
    hide BucketStart;
    if cs != [] {
      var init, last := cs[..|cs| - 1], cs[|cs| - 1];
      assert cs == init + [last];
      InGroup(init, g, ts, c);
    }
  }

  lemma {:induction false} Dropped(cs: seq<Bar>, c: Bar)
    ensures c in DropNulls(cs) <==> c in cs && !IsNull(c)
  {
    hide IsNull;
    if cs != [] {
      var init, last := cs[..|cs| - 1], cs[|cs| - 1];
      assert cs == init + [last];
      Dropped(init, c);
    }
  }

  lemma {:induction false} NothingDropped(cs: seq<Bar>)
    requires forall c :: c in cs ==> !IsNull(c)
    ensures DropNulls(cs) == cs
  {
    hide IsNull;
    if cs != [] {
      var init, last := cs[..|cs| - 1], cs[|cs| - 1];
      assert cs == init + [last];
      forall c | c in init ensures !IsNull(c) {
        assert c in cs;
      }
      NothingDropped(init);
    }
  }

  /** A placeholder pulls the low of its bar to zero. */
  lemma {:induction false} NullLow(group: seq<Bar>, c: Bar)
    requires c in group && IsNull(c)
    ensures MinLow(group) <= 0
  {
    hide MinLow, MaxHigh;
    RangeIsTight(group);
  }

  lemma {:induction false} TradedLow(group: seq<Bar>)
    requires group != [] && forall c :: c in group ==> c.low > 0
    ensures MinLow(group) > 0
  {
    hide MinLow, MaxHigh;
    RangeIsTight(group);
  }

  /** With placeholders the promise fails bar by bar: a bar of the mirror that the
    * agents see too is the same bar if and only if none of its slots is a
    * placeholder, since the mirror aggregates placeholders and the live read drops
    * them first. A bar of placeholders alone is shown by neither. (Candles have
    * positive prices.) */
  lemma {:induction false} MirroredBarIsLiveIff(history: seq<Bar>, g: Buckets, ts: int)
    requires M5Series(history) && |history| >= 2 && ts + g.minutes <= history[|history| - 1].ts + 5
    requires forall c :: c in history && !IsNull(c) ==> c.low > 0
    ensures var mirrored, live := Lookup(OneShot(history, g), ts), Lookup(Streamed(DropNulls(history), g), ts);
            && (live.Some? ==>
                  (mirrored == live <==> forall c :: c in history && BucketStart(c.ts, g) == ts ==> !IsNull(c)))
            && (live.None? && mirrored.Some? ==> mirrored.value.close == 0)
  {
    hide BucketStart, Lookup, Streamed, M5Series, Increasing, OneShot, Closed, Group, DropNulls, IsNull, MinLow, MaxHigh;
    SeriesIncreasing(history);
    OneShotIsClosed(history, g);
    ClosedLookup(history, g, ts);
    BarAt(history, g, ts);
    DropNullsSeries(history);
    SeriesIncreasing(DropNulls(history));
    BarAt(DropNulls(history), g, ts);
    DroppedGroup(history, g, ts);
    var group := Group(history, ts, g);
    forall c ensures c in group <==> c in history && BucketStart(c.ts, g) == ts {
      InGroup(history, g, ts, c);
    }
    forall c ensures c in DropNulls(group) <==> c in group && !IsNull(c) {
      Dropped(group, c);
    }
    if forall c :: c in group ==> !IsNull(c) {
      NothingDropped(group);
    } else {
      var c :| c in group && IsNull(c);
      NullLow(group, c);
      if DropNulls(group) != [] {
        TradedLow(DropNulls(group));
      } else {
        var last := group[|group| - 1];
        assert last in group && last !in DropNulls(group);
        NullCloses(last);
      }
    }
  }

  lemma {:induction false} NullCloses(c: Bar)
    requires IsNull(c)
    ensures c.close == 0
  {
  }

  // ---------------------------------------------------------------- bucket offset

  /** The live read shifts its buckets by the configured offset, the mirror never does. */
  function Shifted(minutes: int, offset: int): Buckets
    requires minutes > 0
  {
    Grid(minutes, offset)
  }

  lemma {:induction false} SameBuckets(ts: int, minutes: int, offset: int)
    requires minutes > 0 && offset % minutes == 0
    ensures BucketStart(ts, Shifted(minutes, offset)) == BucketStart(ts, Shifted(minutes, 0))
  {
    hide BucketStart;
    var q, p := offset / minutes, ts / minutes;
    BucketStartIsFloor(ts, Shifted(minutes, 0));
    MultiplesAligned(p - q, Shifted(minutes, offset));
    assert (p - q) * minutes + offset == p * minutes;
    BucketStartUnique(ts, Shifted(minutes, offset), p * minutes);
  }

  lemma {:induction false} ZeroIsBoundary(minutes: int, offset: int)
    requires minutes > 0 && Aligned(0, Shifted(minutes, offset))
    ensures offset % minutes == 0
  {
    hide BucketStart;
    BucketStartIsFloor(0, Shifted(minutes, offset));
    var q := (0 - offset) / minutes;
    assert offset == (-q) * minutes;
    QuotientUnique(offset, minutes, -q, 0);
  }

  lemma {:induction false} SameStreams(cs: seq<Bar>, minutes: int, offset: int)
    requires minutes > 0 && offset % minutes == 0
    ensures Streamed(cs, Shifted(minutes, offset)) == Streamed(cs, Shifted(minutes, 0))
  {
    hide BucketStart;
    if cs != [] {
      SameStreams(cs[..|cs| - 1], minutes, offset);
      SameBuckets(cs[|cs| - 1].ts, minutes, offset);
    }
  }

  /** A read for which mirror and live agree while the live read has no offset. */
  predicate AgreesUnshifted(history: seq<Bar>, limit: nat, k: nat, minutes: int)
    requires minutes > 0
  {
    && M5Series(history) && Increasing(history) && |history| >= 2 && limit > 0
    && Priced(Newest(history, RowsRead(limit + 1, k)))
    && Closed(history, Shifted(minutes, 0)) == Streamed(history, Shifted(minutes, 0))
  }

  lemma {:induction false} SameWindow(history: seq<Bar>, limit: nat, k: nat, minutes: int, offset: int)
    requires minutes > 0 && offset % minutes == 0 && M5Series(history)
    ensures WindowBars(history, limit, k, Shifted(minutes, offset)) == WindowBars(history, limit, k, Shifted(minutes, 0))
  {
    hide M5Series, Grouped, Streamed, Tail, DropNulls, RowsRead;
    var rows := DropNulls(Newest(history, RowsRead(limit, k)));
    SplitSeriesAt(history, RowsRead(limit, k));
    DropNullsSeries(Newest(history, RowsRead(limit, k)));
    SeriesIncreasing(rows);
    GroupedIsStreamed(rows, Shifted(minutes, offset));
    GroupedIsStreamed(rows, Shifted(minutes, 0));
    SameStreams(rows, minutes, offset);
  }

  /** Two candles, the first and the last of an unshifted bar. */
  function OneBarOf(minutes: int): seq<Bar> {
    [Bar(0, 1, 1, 1, 1, 1, 0), Bar(minutes - 5, 1, 1, 1, 1, 1, 0)]
  }

  lemma {:induction false} OneBarAgrees(k: nat, minutes: int)
    requires minutes == 5 * k && k > 1
    ensures AgreesUnshifted(OneBarOf(minutes), 1, k, minutes)
    ensures Streamed(OneBarOf(minutes), Shifted(minutes, 0))[|Streamed(OneBarOf(minutes), Shifted(minutes, 0))| - 1].ts == 0
  {
    hide Streamed, BucketStart;
    var cs, g := OneBarOf(minutes), Shifted(minutes, 0);
    FirstBucket(minutes - 5, g);
    StreamedEnds(cs, g);
  }

  /** The reads that agree without an offset still agree with one if and only if the
    * offset is a multiple of the timeframe. */
  lemma {:induction false} OffsetReadsAgreeIff(k: nat, minutes: int, offset: int)
    requires minutes == 5 * k && k > 0 && offset % 5 == 0
    ensures (forall history: seq<Bar>, limit: nat :: AgreesUnshifted(history, limit, k, minutes) ==>
               MirrorRead(history, limit, None, Shifted(minutes, 0)) ==
               Ok(WindowBars(history, limit, k, Shifted(minutes, offset)))) <==>
            offset % minutes == 0
  {
    hide Streamed, BucketStart, MirrorRead, WindowBars, Closed, Priced, RowsRead, M5Series, Increasing;
    var g, h := Shifted(minutes, 0), Shifted(minutes, offset);
    if offset % minutes == 0 {
      forall history: seq<Bar>, limit: nat | AgreesUnshifted(history, limit, k, minutes)
        ensures MirrorRead(history, limit, None, g) == Ok(WindowBars(history, limit, k, h))
      {
        MirrorIsLiveIff(history, limit, k, g);
        SameWindow(history, limit, k, minutes, offset);
      }
    } else {
      var history := OneBarOf(minutes);
      if k == 1 {
        assert false;
      }
      OneBarAgrees(k, minutes);
      OffsetShows(k, minutes, offset);
    }
  }

  lemma {:induction false} OffsetShows(k: nat, minutes: int, offset: int)
    requires minutes == 5 * k && k > 1 && offset % 5 == 0 && offset % minutes != 0
    ensures AgreesUnshifted(OneBarOf(minutes), 1, k, minutes)
    ensures MirrorRead(OneBarOf(minutes), 1, None, Shifted(minutes, 0)) !=
            Ok(WindowBars(OneBarOf(minutes), 1, k, Shifted(minutes, offset)))
  {
    hide Streamed, BucketStart, MirrorRead, WindowBars, Closed, RowsRead, Aligned, Tail;
    var cs, g, h := OneBarOf(minutes), Shifted(minutes, 0), Shifted(minutes, offset);
    OneBarAgrees(k, minutes);
    MirrorIsLiveIff(cs, 1, k, g);
    RowsGrow(1, k);
    PricedNewest(cs, RowsRead(1, k), RowsRead(2, k));
    LiveBars(cs, 1, k, g);
    LiveBars(cs, 1, k, h);
    TailEnds(Streamed(cs, g), 1);
    TailEnds(Streamed(cs, h), 1);
    StreamedEnds(cs, g);
    StreamedEnds(cs, h);
    BucketStartAligned(minutes - 5, h);
    if BucketStart(minutes - 5, h) == 0 {
      ZeroIsBoundary(minutes, offset);
    }
  }
}
