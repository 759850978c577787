/** What the aggregation of candles keeps: when one pass is the grouping, what
  * is conserved, that timeframes compose, how many bars a window must hold and
  * which bars are final. */
module CandleLaws {
  import opened Seqs
  import opened Candles

  // ------------------------------------------- one pass against the grouping

  lemma {:induction false} BarsOfLength(ks: seq<int>, cs: seq<Bar>, g: Buckets)
    requires forall k :: k in ks ==> k in Keys(cs, g)
    ensures |BarsOf(ks, cs, g)| == |ks|
  {
    if ks != [] {
      BarsOfLength(ks[..|ks| - 1], cs, g);
    }
  }

  lemma {:induction false} BarsOfStamp(ks: seq<int>, cs: seq<Bar>, g: Buckets, i: nat)
    requires (forall k :: k in ks ==> k in Keys(cs, g)) && i < |ks|
    ensures i < |BarsOf(ks, cs, g)| && BarsOf(ks, cs, g)[i].ts == ks[i]
  {
    BarsOfLength(ks, cs, g);
    BarsOfLength(ks[..|ks| - 1], cs, g);
    if i < |ks| - 1 {
      BarsOfStamp(ks[..|ks| - 1], cs, g, i);
    }
  }

  lemma {:induction false} GroupedIncreasing(cs: seq<Bar>, g: Buckets)
    ensures Increasing(Grouped(cs, g))
  {
    var ks := Ascending(Keys(cs, g));
    BarsOfLength(ks, cs, g);
    forall i, j | 0 <= i < j < |Grouped(cs, g)|
      ensures Grouped(cs, g)[i].ts < Grouped(cs, g)[j].ts
    {
      BarsOfStamp(ks, cs, g, i);
      BarsOfStamp(ks, cs, g, j);
    }
  }

  lemma {:induction false} StreamedExtend(cs: seq<Bar>, c: Bar, g: Buckets)
    ensures Streamed(cs + [c], g) == Join(Streamed(cs, g), [Single(c, g)])
  {
    assert (cs + [c])[..|cs + [c]| - 1] == cs;
  }

  lemma {:induction false} InOrderExtend(cs: seq<Bar>, c: Bar, g: Buckets)
    requires InOrder(cs, g)
    requires cs != [] ==> BucketStart(cs[|cs| - 1].ts, g) <= BucketStart(c.ts, g)
    ensures InOrder(cs + [c], g)
  {
    var all := cs + [c];
    forall i, j | 0 <= i < j < |all|
      ensures BucketStart(all[i].ts, g) <= BucketStart(all[j].ts, g)
    {
      if j == |cs| && i < |cs| - 1 {
        assert BucketStart(cs[i].ts, g) <= BucketStart(cs[|cs| - 1].ts, g);
      }
    }
  }

  lemma {:induction false} IncreasingPrefix(x: seq<Bar>, y: seq<Bar>)
    requires Increasing(Join(x, y))
    ensures Increasing(x)
  {
    var z := Join(x, y);
    assert forall i :: 0 <= i < |x| ==> x[i].ts == z[i].ts;
  }

  lemma {:induction false} LastTwoInOrder(cs: seq<Bar>, c: Bar, g: Buckets)
    requires Increasing(Streamed(cs + [c], g))
    ensures cs != [] ==> BucketStart(cs[|cs| - 1].ts, g) <= BucketStart(c.ts, g)
  {
    hide BucketStart;
    if cs != [] {
      StreamedExtend(cs, c, g);
      StreamedEnds(cs, g);
      var s := Streamed(cs, g);
      hide Streamed;
      LastTwo(s, Single(c, g));
    }
  }

  lemma {:induction false} LastTwo(s: seq<Bar>, b: Bar)
    requires s != [] && Increasing(Join(s, [b]))
    ensures s[|s| - 1].ts <= b.ts
  {
    if s[|s| - 1].ts != b.ts {
      assert (s + [b])[|s| - 1] == s[|s| - 1] && (s + [b])[|s|] == b;
    }
  }

  lemma {:induction false} IncreasingOnlyInOrder(cs: seq<Bar>, g: Buckets)
    requires Increasing(Streamed(cs, g))
    ensures InOrder(cs, g)
  {
    hide BucketStart;
    if cs != [] {
      var cs', c := cs[..|cs| - 1], cs[|cs| - 1];
      assert cs == cs' + [c];
      IncreasingPrefix(Streamed(cs', g), [Single(c, g)]);
      IncreasingOnlyInOrder(cs', g);
      LastTwoInOrder(cs', c, g);
      InOrderExtend(cs', c, g);
    }
  }

  /** One pass over the series is the grouping exactly when no candle belongs to
    * an earlier bucket than the candles before it. */
  lemma {:induction false} StreamedIsGroupedIff(cs: seq<Bar>, g: Buckets)
    ensures Streamed(cs, g) == Grouped(cs, g) <==> InOrder(cs, g)
  {
    GroupedIncreasing(cs, g);
    if InOrder(cs, g) {
      StreamedIsGrouped(cs, g);
    }
    if Streamed(cs, g) == Grouped(cs, g) {
      IncreasingOnlyInOrder(cs, g);
    }
  }

  lemma {:induction false} IncreasingInOrder(cs: seq<Bar>, g: Buckets)
    requires Increasing(cs)
    ensures InOrder(cs, g)
    ensures Increasing(Streamed(cs, g))
  {
    forall i, j | 0 <= i < j < |cs|
      ensures BucketStart(cs[i].ts, g) <= BucketStart(cs[j].ts, g)
    {
      BucketStartMonotone(cs[i].ts, cs[j].ts, g);
    }
    StreamedIsGrouped(cs, g);
    GroupedIncreasing(cs, g);
  }

  // ----------------------------------------------------------- conservation

  lemma {:induction false} TotalVolumeConcat(x: seq<Bar>, y: seq<Bar>)
    ensures TotalVolume(x + y) == TotalVolume(x) + TotalVolume(y)
  {
    if y == [] {
      assert x + y == x;
    } else {
      assert (x + y)[..|x + y| - 1] == x + y[..|y| - 1];
      TotalVolumeConcat(x, y[..|y| - 1]);
    }
  }

  lemma {:induction false} TotalVolumeJoin(x: seq<Bar>, b: Bar)
    ensures TotalVolume(Join(x, [b])) == TotalVolume(x) + b.volume
  {
    TotalVolumeConcat(x, [b]);
    if x != [] {
      var l := x[|x| - 1];
      TotalVolumeConcat(x[..|x| - 1], [Combine(l, b)]);
      assert x[..|x| - 1] + [Combine(l, b)] + [b][1..] == x[..|x| - 1] + [Combine(l, b)];
    }
  }

  /** One pass loses no tick and counts none twice, whatever the order of the candles. */
  lemma {:induction false} VolumeConserved(cs: seq<Bar>, g: Buckets)
    ensures TotalVolume(Streamed(cs, g)) == TotalVolume(cs)
  {
    if cs != [] {
      VolumeConserved(cs[..|cs| - 1], g);
      TotalVolumeJoin(Streamed(cs[..|cs| - 1], g), Single(cs[|cs| - 1], g));
    }
  }

  /** The groups of `ks`, laid end to end. */
  function Groups(ks: seq<int>, cs: seq<Bar>, g: Buckets): seq<Bar> {
    if ks == [] then [] else Groups(ks[..|ks| - 1], cs, g) + Group(cs, ks[|ks| - 1], g)
  }

  lemma {:induction false} GroupsExtend(ks: seq<int>, cs: seq<Bar>, c: Bar, g: Buckets)
    requires BucketStart(c.ts, g) !in ks
    ensures Groups(ks, cs + [c], g) == Groups(ks, cs, g)
  {
    if ks != [] {
      assert ks[|ks| - 1] in ks && forall x :: x in ks[..|ks| - 1] ==> x in ks;
      GroupsExtend(ks[..|ks| - 1], cs, c, g);
      GroupExtend(cs, c, ks[|ks| - 1], g);
    }
  }

  lemma {:induction false} GroupsEmpty(ks: seq<int>, g: Buckets)
    ensures Groups(ks, [], g) == []
  {
    if ks != [] {
      GroupsEmpty(ks[..|ks| - 1], g);
    }
  }

  lemma {:induction false} GroupsLast(ks: seq<int>, cs: seq<Bar>, c: Bar, g: Buckets)
    requires ks != [] && ks[|ks| - 1] == BucketStart(c.ts, g) && BucketStart(c.ts, g) !in ks[..|ks| - 1]
    ensures Groups(ks, cs + [c], g) == Groups(ks, cs, g) + [c]
  {
    GroupsExtend(ks[..|ks| - 1], cs, c, g);
    GroupExtend(cs, c, ks[|ks| - 1], g);
  }

  lemma {:induction false} GroupsAppend(ks: seq<int>, cs: seq<Bar>, c: Bar, g: Buckets)
    requires BucketStart(c.ts, g) !in ks && BucketStart(c.ts, g) !in Keys(cs, g)
    ensures Groups(ks + [BucketStart(c.ts, g)], cs + [c], g) == Groups(ks, cs, g) + [c]
  {
    var k := BucketStart(c.ts, g);
    GroupsExtend(ks, cs, c, g);
    GroupNonEmpty(cs, k, g);
    GroupExtend(cs, c, k, g);
    assert (ks + [k])[..|ks + [k]| - 1] == ks;
  }

  /** The buckets cut an ordered series into consecutive pieces: the groups, in
    * bucket order, are the series again. */
  lemma {:induction false} GroupsPartition(cs: seq<Bar>, g: Buckets)
    requires InOrder(cs, g)
    ensures Groups(Ascending(Keys(cs, g)), cs, g) == cs
  {
    if cs == [] {
      GroupsEmpty(Ascending(Keys(cs, g)), g);
    } else {
      var cs', c := cs[..|cs| - 1], cs[|cs| - 1];
      assert cs == cs' + [c];
      InOrderLast(cs', c, g);
      GroupsPartition(cs', g);
      GroupsGrow(cs', c, g);
    }
  }

  lemma {:induction false} GroupsWith(ks: seq<int>, cs: seq<Bar>, c: Bar, g: Buckets)
    requires (forall i, j :: 0 <= i < j < |ks| ==> ks[i] < ks[j]) && BucketStart(c.ts, g) in ks
    ensures multiset(Groups(ks, cs + [c], g)) == multiset(Groups(ks, cs, g)) + multiset{c}
    ensures TotalVolume(Groups(ks, cs + [c], g)) == TotalVolume(Groups(ks, cs, g)) + c.volume
  {
    hide BucketStart, Group, TotalVolume;
    var k := BucketStart(c.ts, g);
    var init, last := ks[..|ks| - 1], ks[|ks| - 1];
    assert ks == init + [last];
    GroupExtend(cs, c, last, g);
    TotalVolumeConcat(Groups(init, cs, g), Group(cs, last, g));
    TotalVolumeConcat(Groups(init, cs + [c], g), Group(cs + [c], last, g));
    if last == k {
      GroupsExtend(init, cs, c, g);
      OneVolume(c);
      TotalVolumeConcat(Group(cs, last, g), [c]);
    } else {
      GroupsWith(init, cs, c, g);
    }
  }

  lemma {:induction false} OneVolume(c: Bar)
    ensures TotalVolume([c]) == c.volume
  {
    assert [c][..|[c]| - 1] == [];
  }

  lemma {:induction false} GroupsHoldAll(ks: seq<int>, cs: seq<Bar>, g: Buckets)
    requires (forall i, j :: 0 <= i < j < |ks| ==> ks[i] < ks[j]) && forall k :: k in Keys(cs, g) ==> k in ks
    ensures multiset(Groups(ks, cs, g)) == multiset(cs)
    ensures TotalVolume(Groups(ks, cs, g)) == TotalVolume(cs)
  {
    hide BucketStart, Group, Groups;
    if cs == [] {
      GroupsEmpty(ks, g);
    } else {
      var init, c := cs[..|cs| - 1], cs[|cs| - 1];
      assert cs == init + [c];
      KeysExtend(init, c, g);
      GroupsHoldAll(ks, init, g);
      GroupsWith(ks, init, c, g);
    }
  }

  lemma {:induction false} BarsCarryVolume(ks: seq<int>, cs: seq<Bar>, g: Buckets)
    requires forall k :: k in ks ==> k in Keys(cs, g)
    ensures TotalVolume(BarsOf(ks, cs, g)) == TotalVolume(Groups(ks, cs, g))
  {
    hide BucketStart, Group, Keys;
    if ks != [] {
      var init, last := ks[..|ks| - 1], ks[|ks| - 1];
      assert last in ks && forall k :: k in init ==> k in ks;
      BarsCarryVolume(init, cs, g);
      OneVolume(BarOf(cs, last, g));
      TotalVolumeConcat(BarsOf(init, cs, g), [BarOf(cs, last, g)]);
      TotalVolumeConcat(Groups(init, cs, g), Group(cs, last, g));
    }
  }

  /** The grouping loses nothing either, also for candles in no order at all: the
    * groups hold every candle once, and the bars carry the whole volume. */
  lemma {:induction false} GroupingConserves(cs: seq<Bar>, g: Buckets)
    ensures multiset(Groups(Ascending(Keys(cs, g)), cs, g)) == multiset(cs)
    ensures TotalVolume(Grouped(cs, g)) == TotalVolume(cs)
  {
    hide BucketStart, Group, Groups, BarsOf, TotalVolume;
    var ks := Ascending(Keys(cs, g));
    GroupsHoldAll(ks, cs, g);
    BarsCarryVolume(ks, cs, g);
  }

  lemma {:induction false} GroupsGrow(cs: seq<Bar>, c: Bar, g: Buckets)
    requires forall k :: k in Keys(cs, g) ==> k <= BucketStart(c.ts, g)
    ensures Groups(Ascending(Keys(cs + [c], g)), cs + [c], g) == Groups(Ascending(Keys(cs, g)), cs, g) + [c]
  {
    var k, seen := BucketStart(c.ts, g), Keys(cs, g);
    KeysExtend(cs, c, g);
    if k in seen {
      assert seen + {k} == seen;
      AscendingLast(seen, k);
      GroupsLast(Ascending(seen), cs, c, g);
    } else {
      AscendingExtend(seen, k);
      GroupsAppend(Ascending(seen), cs, c, g);
    }
  }

  // ------------------------------------------------------------ composition

  lemma {:induction false} CombineSingles(l: Bar, s: Bar, g: Buckets)
    requires l.ts == s.ts
    ensures Single(Combine(l, s), g) == Combine(Single(l, g), Single(s, g))
  {
  }

  lemma {:induction false} StreamedOfJoin(x: seq<Bar>, s: Bar, g: Buckets)
    ensures Streamed(Join(x, [s]), g) == Join(Streamed(x, g), [Single(s, g)])
  {
    if x != [] && x[|x| - 1].ts == s.ts {
      var init, l := x[..|x| - 1], x[|x| - 1];
      assert x == init + [l];
      assert Join(x, [s]) == init + [Combine(l, s)];
      StreamedExtend(init, Combine(l, s), g);
      StreamedExtend(init, l, g);
      CombineSingles(l, s, g);
      JoinAssociative(Streamed(init, g), [Single(l, g)], [Single(s, g)]);
      assert Join([Single(l, g)], [Single(s, g)]) == [Single(Combine(l, s), g)];
    } else {
      StreamedExtend(x, s, g);
    }
  }

  /** Aggregating bars that were already aggregated on a finer grid loses
    * nothing: timestamp, open, high, low, close, volume and spread all agree. */
  lemma {:induction false} StreamedComposes(cs: seq<Bar>, fine: Buckets, coarse: Buckets)
    requires Nested(fine, coarse)
    ensures Streamed(Streamed(cs, fine), coarse) == Streamed(cs, coarse)
  {
    if cs != [] {
      var cs', c := cs[..|cs| - 1], cs[|cs| - 1];
      StreamedComposes(cs', fine, coarse);
      StreamedOfJoin(Streamed(cs', fine), Single(c, fine), coarse);
      BucketsNest(c.ts, fine, coarse);
    }
  }

  /** The same for the reference grouping of an ordered series. */
  lemma {:induction false} GroupedComposes(cs: seq<Bar>, fine: Buckets, coarse: Buckets)
    requires Nested(fine, coarse)
    requires InOrder(cs, fine)
    ensures Grouped(Grouped(cs, fine), coarse) == Grouped(cs, coarse)
  {
    StreamedIsGrouped(cs, fine);
    GroupedIncreasing(cs, fine);
    IncreasingInOrder(Grouped(cs, fine), coarse);
    StreamedIsGrouped(Grouped(cs, fine), coarse);
    StreamedComposes(cs, fine, coarse);
    InOrderCoarser(cs, fine, coarse);
    StreamedIsGrouped(cs, coarse);
  }

  lemma {:induction false} InOrderCoarser(cs: seq<Bar>, fine: Buckets, coarse: Buckets)
    requires Nested(fine, coarse)
    requires InOrder(cs, fine)
    ensures InOrder(cs, coarse)
  {
    forall i, j | 0 <= i < j < |cs|
      ensures BucketStart(cs[i].ts, coarse) <= BucketStart(cs[j].ts, coarse)
    {
      BucketsNest(cs[i].ts, fine, coarse);
      BucketsNest(cs[j].ts, fine, coarse);
      BucketStartMonotone(BucketStart(cs[i].ts, fine), BucketStart(cs[j].ts, fine), coarse);
    }
  }

  // ------------------------------------------------- M5 series and final bars

  /** M5 rows as the tables hold them: strictly increasing, every five minutes. */
  predicate M5Series(cs: seq<Bar>) {
    Increasing(cs) && forall i :: 0 <= i < |cs| ==> cs[i].ts % 5 == 0
  }

  predicate M5Grid(g: Buckets) {
    g.minutes % 5 == 0 && g.offset % 5 == 0
  }

  lemma {:induction false} SeriesIncreasing(cs: seq<Bar>)
    requires M5Series(cs)
    ensures Increasing(cs)
  {
  }

  /** The bars of `cs` that no later M5 candle can change: all of them, except
    * the newest while M5 has not reached its end. */
  function Closed(cs: seq<Bar>, g: Buckets): seq<Bar> {
    var bars := Streamed(cs, g);
    if bars != [] && cs != [] && bars[|bars| - 1].ts + g.minutes > cs[|cs| - 1].ts + 5
    then bars[..|bars| - 1]
    else bars
  }

  lemma {:induction false} JoinKeepsInit(x: seq<Bar>, y: seq<Bar>)
    requires x != []
    ensures x[..|x| - 1] <= Join(x, y)
    ensures |Join(x, y)| >= |x|
  {
  }

  lemma {:induction false} BucketOnM5(ts: int, g: Buckets)
    requires M5Grid(g)
    ensures BucketStart(ts, g) % 5 == 0
    decreases ts < g.offset, if ts < g.offset then g.offset - ts else ts - g.offset
  {
    hide BucketStart;
    NextBucket(ts, g);
    if ts < g.offset {
      BucketOnM5(ts + g.minutes, g);
    } else if ts >= g.offset + g.minutes {
      BucketOnM5(ts - g.minutes, g);
    } else {
      FirstBucket(ts, g);
    }
  }

  /** A boundary between two pieces is a boundary between their bars. */
  lemma {:induction false} StreamedCut(a: seq<Bar>, b: seq<Bar>, t: int, g: Buckets)
    requires Aligned(t, g)
    requires a != [] ==> a[|a| - 1].ts < t
    requires b != [] ==> t <= b[0].ts
    ensures Streamed(a + b, g) == Streamed(a, g) + Streamed(b, g)
  {
    StreamedConcat(a, b, g);
    if a != [] && b != [] {
      StreamedEnds(a, g);
      StreamedEnds(b, g);
      BoundarySeparates(t, a[|a| - 1].ts, g);
      BoundarySeparates(t, b[0].ts, g);
    }
  }

  lemma {:induction false} ClosedCut(a: seq<Bar>, b: seq<Bar>, t: int, g: Buckets)
    requires Aligned(t, g) && b != []
    requires a != [] ==> a[|a| - 1].ts < t
    requires t <= b[0].ts
    ensures Closed(a + b, g) == Streamed(a, g) + Closed(b, g)
  {
    hide Streamed, BucketStart, Aligned;
    StreamedCut(a, b, t, g);
    StreamedEnds(b, g);
    DropLastConcat(a, b);
    DropLastConcat(Streamed(a, g), Streamed(b, g));
  }

  /** When the last bar is closed the next candle opens a new one. */
  lemma {:induction false} NextCandleOpensBar(cs: seq<Bar>, ts: int, g: Buckets)
    requires cs != [] && M5Grid(g)
    requires cs[|cs| - 1].ts % 5 == 0 && ts % 5 == 0 && cs[|cs| - 1].ts < ts
    requires Closed(cs, g) == Streamed(cs, g)
    ensures BucketStart(cs[|cs| - 1].ts, g) + g.minutes <= BucketStart(ts, g)
  {
    hide BucketStart;
    StreamedEnds(cs, g);
    var l := BucketStart(cs[|cs| - 1].ts, g);
    assert l + g.minutes <= cs[|cs| - 1].ts + 5 <= ts;
    BucketStartAligned(cs[|cs| - 1].ts, g);
    NextBucket(l, g);
    BoundarySeparates(l + g.minutes, ts, g);
  }

  lemma {:induction false} ClosedGrows(a: seq<Bar>, b: seq<Bar>, g: Buckets)
    requires a != [] && b != [] && M5Grid(g)
    requires a[|a| - 1].ts % 5 == 0 && b[0].ts % 5 == 0 && a[|a| - 1].ts < b[0].ts
    ensures Closed(a, g) <= Closed(a + b, g)
  {
    hide *;
    var x, y, z := Streamed(a, g), Streamed(b, g), Streamed(a + b, g);
    StreamedConcat(a, b, g);
    StreamedEnds(a, g);
    StreamedEnds(b, g);
    JoinKeepsInit(x, y);
    ClosedEither(a, g);
    ClosedEither(a + b, g);
    if Closed(a, g) == x {
      NextCandleOpensBar(a, b[0].ts, g);
      JoinDistinct(x, y);
      ShorterPrefix(x, z);
    } else {
      ShorterPrefix(x[..|x| - 1], z);
    }
  }

  lemma {:induction false} ClosedEither(cs: seq<Bar>, g: Buckets)
    requires cs != []
    ensures var bars := Streamed(cs, g);
            bars != [] && (Closed(cs, g) == bars || Closed(cs, g) == bars[..|bars| - 1])
  {
    hide Streamed;
    StreamedEnds(cs, g);
  }

  lemma {:induction false} JoinDistinct(x: seq<Bar>, y: seq<Bar>)
    requires x != [] && y != [] && x[|x| - 1].ts != y[0].ts
    ensures x <= Join(x, y) && |x| < |Join(x, y)|
  {
  }

  lemma {:induction false} ShorterPrefix(p: seq<Bar>, z: seq<Bar>)
    requires p <= z && |p| < |z|
    ensures p <= z[..|z| - 1]
  {
  }

  /** A bar, once closed, is final: appending candles only ever adds bars after it. */
  lemma {:induction false} ClosedIsFinal(a: seq<Bar>, b: seq<Bar>, g: Buckets)
    requires M5Series(a + b) && M5Grid(g)
    ensures Closed(a, g) <= Closed(a + b, g)
  {
    if b == [] {
      assert a + b == a;
    } else if a != [] {
      assert (a + b)[|a| - 1] == a[|a| - 1] && (a + b)[|a|] == b[0];
      ClosedGrows(a, b, g);
    }
  }

  lemma {:induction false} TimesNext(k: int, n: int)
    ensures k * n == k * (n - 1) + k
  {
  }

  lemma {:induction false} SlotInBucket(ts: int, g: Buckets, k: int)
    requires M5Grid(g) && g.minutes == 5 * k && ts % 5 == 0
    ensures 0 <= (ts - BucketStart(ts, g)) / 5 < k
    ensures (ts - BucketStart(ts, g)) % 5 == 0
  {
    BucketOnM5(ts, g);
  }

  /** Pigeonhole: a bar of `5 * k` minutes holds at most `k` M5 candles, and the
    * newest bar only those whose slot has been reached. */
  lemma {:induction false} BarsHoldCandles(cs: seq<Bar>, g: Buckets, k: int)
    requires M5Series(cs) && M5Grid(g) && g.minutes == 5 * k && cs != []
    ensures |cs| <= k * (|Streamed(cs, g)| - 1) + (cs[|cs| - 1].ts - BucketStart(cs[|cs| - 1].ts, g)) / 5 + 1
    ensures |cs| <= k * |Streamed(cs, g)|
  {
    hide *;
    var init, c := cs[..|cs| - 1], cs[|cs| - 1];
    BarsSoFar(cs, g);
    SlotInBucket(c.ts, g, k);
    TimesNext(k, |Streamed(cs, g)|);
    if init == [] {
      assert k * 0 == 0;
    } else {
      var p := init[|init| - 1];
      BarsHoldCandles(init, g, k);
      SlotInBucket(p.ts, g, k);
      TimesNext(k, |Streamed(init, g)|);
    }
  }

  /** How many bars the last candle adds. */
  lemma {:induction false} BarsSoFar(cs: seq<Bar>, g: Buckets)
    requires M5Series(cs) && cs != []
    ensures var init, c := cs[..|cs| - 1], cs[|cs| - 1];
            && M5Series(init) && c.ts % 5 == 0
            && (init == [] ==> |Streamed(cs, g)| == 1)
            && (init != [] ==>
                  var p := init[|init| - 1];
                  && p.ts % 5 == 0 && p.ts + 5 <= c.ts
                  && |Streamed(cs, g)| ==
                     |Streamed(init, g)| + if BucketStart(p.ts, g) == BucketStart(c.ts, g) then 0 else 1)
  {
    hide BucketStart;
    if |cs| > 1 {
      StreamedEnds(cs[..|cs| - 1], g);
      assert cs[|cs| - 2].ts < cs[|cs| - 1].ts;
    }
  }
}
