/** What the bars of some candles are, told from the bars and the candles alone. */
module BarSpec {
  import opened Candles
  import CandleLaws

  /** The candles from `start` on and before `end`, in input order. */
  function Inside(cs: seq<Bar>, start: int, end: int): seq<Bar> {
    if cs == [] then []
    else
      var c := cs[|cs| - 1];
      Inside(cs[..|cs| - 1], start, end) + if start <= c.ts < end then [c] else []
  }

  /** The bar of the candles given: open of the first, close and spread of the last,
    * the range they span, and all their volume. */
  predicate Sums(b: Bar, inside: seq<Bar>) {
    && inside != []
    && b.open == inside[0].open
    && b.close == inside[|inside| - 1].close && b.spread == inside[|inside| - 1].spread
    && (forall c :: c in inside ==> b.low <= c.low && c.high <= b.high)
    && (exists c :: c in inside && c.low == b.low) && (exists c :: c in inside && c.high == b.high)
    && b.volume == Ticks(inside)
  }

  function Ticks(cs: seq<Bar>): int {
    if cs == [] then 0 else Ticks(cs[..|cs| - 1]) + cs[|cs| - 1].volume
  }

  /** The bar, `m` minutes long, holds the moment. */
  predicate Covers(b: Bar, m: int, ts: int) {
    b.ts <= ts < b.ts + m
  }

  /** The bar starts on the shifted grid and sums up what it holds. */
  ghost predicate IsBarOf(b: Bar, cs: seq<Bar>, m: int, offset: int)
    requires m > 0
  {
    (b.ts - offset) % m == 0 && Sums(b, Inside(cs, b.ts, b.ts + m))
  }

  /** Bar `i` and no other holds the moment. */
  ghost predicate OnlyHolder(bars: seq<Bar>, m: int, ts: int, i: nat) {
    && i < |bars| && Covers(bars[i], m, ts)
    && forall j :: 0 <= j < |bars| && Covers(bars[j], m, ts) ==> j == i
  }

  /** Every candle is held by exactly one bar, and the bars are in order. */
  ghost predicate Resampled(cs: seq<Bar>, bars: seq<Bar>, m: int, offset: int) {
    && m > 0
    && (forall i, j :: 0 <= i < j < |bars| ==> bars[i].ts + m <= bars[j].ts)
    && (forall b :: b in bars ==> IsBarOf(b, cs, m, offset))
    && (forall c :: c in cs ==> exists i: nat :: OnlyHolder(bars, m, c.ts, i))
  }

  // -------------------------------------------------------- the grouping is that

  lemma {:induction false} OnShiftedGrid(k: int, g: Buckets)
    requires Aligned(k, g)
    ensures (k - g.offset) % g.minutes == 0
  {
    hide BucketStart;
    BucketStartIsFloor(k, g);
    QuotientUnique(k - g.offset, g.minutes, (k - g.offset) / g.minutes, 0);
  }

  /** The group of a bucket is what lies between its boundaries. */
  lemma {:induction false} GroupIsInside(cs: seq<Bar>, k: int, g: Buckets)
    requires Aligned(k, g)
    ensures Group(cs, k, g) == Inside(cs, k, k + g.minutes)
  {
    hide BucketStart;
    if cs != [] {
      var init, c := cs[..|cs| - 1], cs[|cs| - 1];
      GroupIsInside(init, k, g);
      assert cs == init + [c];
      GroupExtend(init, c, k, g);
      if k <= c.ts < k + g.minutes {
        BucketStartUnique(c.ts, g, k);
      }
      assert Inside(init, k, k + g.minutes) + [] == Inside(init, k, k + g.minutes);
    }
  }

  lemma {:induction false} TicksAreVolume(cs: seq<Bar>)
    ensures TotalVolume(cs) == Ticks(cs)
  {
    if cs != [] {
      var init, c := cs[..|cs| - 1], cs[|cs| - 1];
      TicksAreVolume(init);
      VolumeOneMore(init, c);
      assert cs == init + [c];
    }
  }

  lemma {:induction false} VolumeOneMore(bars: seq<Bar>, b: Bar)
    ensures TotalVolume(bars + [b]) == TotalVolume(bars) + b.volume
  {
    assert (bars + [b])[..|bars + [b]| - 1] == bars;
  }

  lemma {:induction false} AggregateSums(key: int, inside: seq<Bar>)
    requires inside != []
    ensures Sums(Aggregate(key, inside), inside) && Aggregate(key, inside).ts == key
  {
    hide MaxHigh, MinLow, TotalVolume, Ticks;
    TicksAreVolume(inside);
    RangeIsTight(inside);
  }

  lemma {:induction false} BarsOfIndexed(ks: seq<int>, cs: seq<Bar>, g: Buckets)
    requires forall k :: k in ks ==> k in Keys(cs, g)
    ensures |BarsOf(ks, cs, g)| == |ks|
    ensures forall i :: 0 <= i < |ks| ==> ks[i] in Keys(cs, g) && BarsOf(ks, cs, g)[i] == BarOf(cs, ks[i], g)
  {
    hide Keys, BarOf;
    if ks != [] {
      var init := ks[..|ks| - 1];
      assert forall k :: k in init ==> k in ks;
      assert ks[|ks| - 1] in ks;
      BarsOfIndexed(init, cs, g);
    }
  }

  /** Bar `i` of the grouping, and the bucket it stands for. */
  lemma {:induction false} GroupedBar(cs: seq<Bar>, g: Buckets, i: nat)
    requires i < |Grouped(cs, g)|
    ensures var b := Grouped(cs, g)[i];
            Aligned(b.ts, g) && Sums(b, Inside(cs, b.ts, b.ts + g.minutes))
  {
    hide BucketStart, Ascending, Aggregate, Sums, Group;
    var ks := Ascending(Keys(cs, g));
    BarsOfIndexed(ks, cs, g);
    var k := ks[i];
    var c :| c in cs && BucketStart(c.ts, g) == k;
    BucketStartAligned(c.ts, g);
    GroupIsInside(cs, k, g);
    GroupNonEmpty(cs, k, g);
    AggregateSums(k, Inside(cs, k, k + g.minutes));
  }

  /** Every candle's bucket has its bar. */
  lemma {:induction false} CandleHasBar(cs: seq<Bar>, g: Buckets, c: Bar) returns (i: nat)
    requires c in cs
    ensures i < |Grouped(cs, g)| && Grouped(cs, g)[i].ts == BucketStart(c.ts, g)
  {
    hide BucketStart, Aggregate, Group;
    var k, ks := BucketStart(c.ts, g), Ascending(Keys(cs, g));
    assert k in Keys(cs, g);
    assert k in ks;
    i :| 0 <= i < |ks| && ks[i] == k;
    BarsOfIndexed(ks, cs, g);
    GroupNonEmpty(cs, k, g);
    AggregateSums(k, Group(cs, k, g));
  }

  lemma {:induction false} BarsApart(cs: seq<Bar>, g: Buckets)
    ensures var bars := Grouped(cs, g); forall i, j :: 0 <= i < j < |bars| ==> bars[i].ts + g.minutes <= bars[j].ts
  {
    hide BucketStart, Grouped, Sums, Inside, Aligned;
    var bars := Grouped(cs, g);
    CandleLaws.GroupedIncreasing(cs, g);
    forall i, j | 0 <= i < j < |bars| ensures bars[i].ts + g.minutes <= bars[j].ts {
      GroupedBar(cs, g, i);
      GroupedBar(cs, g, j);
      AlignedSteps(bars[i].ts, bars[j].ts, g);
    }
  }

  lemma {:induction false} CandleIsHeld(cs: seq<Bar>, g: Buckets, c: Bar) returns (i: nat)
    requires c in cs
    ensures OnlyHolder(Grouped(cs, g), g.minutes, c.ts, i)
  {
    hide Grouped;
    i := CandleHasBar(cs, g, c);
    BarsApart(cs, g);
    OnlyOne(Grouped(cs, g), g.minutes, c.ts, i);
  }

  lemma {:induction false} OnlyOne(bars: seq<Bar>, m: int, ts: int, i: nat)
    requires forall a, b :: 0 <= a < b < |bars| ==> bars[a].ts + m <= bars[b].ts
    requires i < |bars| && Covers(bars[i], m, ts)
    ensures OnlyHolder(bars, m, ts, i)
  {
  }

  /** What grouping gives, for candles in any order: bars on the grid, each summing up
    * the candles it holds, and every candle in exactly one of them. */
  lemma {:induction false} GroupedIsResampled(cs: seq<Bar>, g: Buckets)
    ensures Resampled(cs, Grouped(cs, g), g.minutes, g.offset)
  {
    hide Grouped, Sums, Inside, OnlyHolder, Aligned;
    var bars := Grouped(cs, g);
    BarsApart(cs, g);
    forall b | b in bars ensures IsBarOf(b, cs, g.minutes, g.offset) {
      var i :| 0 <= i < |bars| && bars[i] == b;
      GroupedBar(cs, g, i);
      OnShiftedGrid(b.ts, g);
    }
    forall c | c in cs ensures exists i: nat :: OnlyHolder(bars, g.minutes, c.ts, i) {
      var i := CandleIsHeld(cs, g, c);
    }
  }
}
