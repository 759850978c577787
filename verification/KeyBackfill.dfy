/** Filling the market-key table from stored candles: the higher timeframes are
  * resampled once for the whole series and cut by bisection, instead of
  * resampling the candles known at each moment. */
module KeyBackfill {
  import opened Wrappers
  import opened Seqs
  import opened Candles
  import opened CandleLaws
  import BarSpec

  // ------------------------------------------------- one-pass resampling

  /** A bar as the backfill keeps it: its slot, and the open time of its first candle. */
  datatype SlotBar = SlotBar(slot: int, ts: int, open: int, high: int, low: int, close: int, volume: int)

  function OpenBar(c: Bar, g: Buckets): SlotBar {
    SlotBar(BucketStart(c.ts, g), c.ts, c.open, c.high, c.low, c.close, c.volume)
  }

  function Absorb(b: SlotBar, c: Bar): SlotBar {
    b.(high := Max(b.high, c.high), low := Min(b.low, c.low), close := c.close, volume := b.volume + c.volume)
  }

  function Extend(bars: seq<SlotBar>, c: Bar, g: Buckets): seq<SlotBar> {
    if bars != [] && bars[|bars| - 1].slot == BucketStart(c.ts, g)
    then bars[..|bars| - 1] + [Absorb(bars[|bars| - 1], c)]
    else bars + [OpenBar(c, g)]
  }

  function SlotBars(cs: seq<Bar>, g: Buckets): seq<SlotBar> {
    if cs == [] then [] else Extend(SlotBars(cs[..|cs| - 1], g), cs[|cs| - 1], g)
  }

  /** `resample`: the bar being built is `cur`; it is put out when the slot changes. */
  method Resample(m5: seq<Bar>, g: Buckets) returns (out: seq<SlotBar>)
    ensures out == SlotBars(m5, g)
  {
    hide BucketStart;
    out := [];
    var cur: Option<SlotBar> := None;
    var i := 0;
    while i < |m5|
      invariant i <= |m5|
      invariant cur.None? ==> out == [] && SlotBars(m5[..i], g) == []
      invariant cur.Some? ==> SlotBars(m5[..i], g) == out + [cur.value]
    {
      var c := m5[i];
      TakeNext(m5, i);
      var slot := BucketStart(c.ts, g);
      if cur.None? || cur.value.slot != slot {
        if cur.Some? {
          out := out + [cur.value];
        }
        cur := Some(OpenBar(c, g));
      } else {
        cur := Some(Absorb(cur.value, c));
      }
      i := i + 1;
    }
    TakeAll(m5);
    if cur.Some? {
      out := out + [cur.value];
    }
  }

  /** Same bucket, same open, high, low, close and volume. */
  predicate Agrees(s: SlotBar, b: Bar) {
    s.slot == b.ts && s.open == b.open && s.high == b.high && s.low == b.low && s.close == b.close && s.volume == b.volume
  }

  predicate AllAgree(ss: seq<SlotBar>, bs: seq<Bar>) {
    |ss| == |bs| && forall i :: 0 <= i < |ss| ==> Agrees(ss[i], bs[i])
  }

  lemma {:induction false} ExtendAgrees(ss: seq<SlotBar>, bs: seq<Bar>, c: Bar, g: Buckets)
    requires AllAgree(ss, bs)
    ensures AllAgree(Extend(ss, c, g), Join(bs, [Single(c, g)]))
  {
  }

  lemma {:induction false} SlotBarsStreamed(cs: seq<Bar>, g: Buckets)
    ensures AllAgree(SlotBars(cs, g), Streamed(cs, g))
  {
    hide AllAgree, Extend, Join;
    if cs == [] {
      EmptyAgree();
    } else {
      SlotBarsStreamed(cs[..|cs| - 1], g);
      ExtendAgrees(SlotBars(cs[..|cs| - 1], g), Streamed(cs[..|cs| - 1], g), cs[|cs| - 1], g);
    }
  }

  lemma {:induction false} EmptyAgree()
    ensures AllAgree([], [])
  {
  }

  /** The backfill's bars are the production resampler's bars, bucket by bucket,
    * on any series whose candles come in bucket order. */
  lemma {:induction false} SlotBarsAreGrouped(cs: seq<Bar>, g: Buckets)
    requires InOrder(cs, g)
    ensures AllAgree(SlotBars(cs, g), Grouped(cs, g))
  {
    hide *;
    SlotBarsStreamed(cs, g);
    StreamedIsGrouped(cs, g);
  }

  /** Candle `n` is the first one of the bar. */
  predicate Begins(cs: seq<Bar>, n: nat, b: SlotBar, minutes: int) {
    n < |cs| && b.ts == cs[n].ts && b.slot <= b.ts < b.slot + minutes && (n > 0 ==> cs[n - 1].ts < b.slot)
  }

  lemma {:induction false} NewBarBegins(cs: seq<Bar>, c: Bar, g: Buckets)
    requires Increasing(cs + [c]) && (cs != [] ==> BucketStart(cs[|cs| - 1].ts, g) != BucketStart(c.ts, g))
    ensures Begins(cs + [c], |cs|, OpenBar(c, g), g.minutes)
  {
    hide BucketStart;
    if cs != [] {
      var prev := cs[|cs| - 1];
      assert (cs + [c])[|cs| - 1] == prev && (cs + [c])[|cs|] == c;
      BucketStartAligned(c.ts, g);
      if BucketStart(c.ts, g) <= prev.ts {
        BucketStartUnique(prev.ts, g, BucketStart(c.ts, g));
      }
    }
  }

  lemma {:induction false} BeginsStill(cs: seq<Bar>, c: Bar, n: nat, b: SlotBar, later: SlotBar, minutes: int)
    requires Begins(cs, n, b, minutes) && later.ts == b.ts && later.slot == b.slot
    ensures Begins(cs + [c], n, later, minutes)
  {
    assert (cs + [c])[n] == cs[n] && (n > 0 ==> (cs + [c])[n - 1] == cs[n - 1]);
  }

  lemma {:induction false} PrefixIncreases(cs: seq<Bar>, c: Bar)
    requires Increasing(cs + [c])
    ensures Increasing(cs)
  {
    assert cs == (cs + [c])[..|cs|];
  }

  /** One more candle: the bars so far keep slot and open time, and a new one is the
    * bar of that candle, of another bucket than the last. */
  lemma {:induction false} OneMoreCandle(cs: seq<Bar>, c: Bar, g: Buckets)
    ensures var before, after := SlotBars(cs, g), SlotBars(cs + [c], g);
            && |before| <= |after| <= |before| + 1
            && (forall i :: 0 <= i < |before| ==> after[i].ts == before[i].ts && after[i].slot == before[i].slot)
            && (|before| < |after| ==>
                  && after[|before|] == OpenBar(c, g)
                  && (before != [] ==> before[|before| - 1].slot != BucketStart(c.ts, g)))
  {
    hide BucketStart;
    assert (cs + [c])[..|cs + [c]| - 1] == cs;
  }

  /** Every bar carries the open time of its first candle. */
  lemma {:induction false} BarBegins(cs: seq<Bar>, g: Buckets, i: nat) returns (n: nat)
    requires Increasing(cs) && i < |SlotBars(cs, g)|
    ensures Begins(cs, n, SlotBars(cs, g)[i], g.minutes)
  {
    hide *;
    NoSlotBars(g);
    var init, c := cs[..|cs| - 1], cs[|cs| - 1];
    assert cs == init + [c];
    OneMoreCandle(init, c, g);
    if i < |SlotBars(init, g)| {
      PrefixIncreases(init, c);
      n := BarBegins(init, g, i);
      BeginsStill(init, c, n, SlotBars(init, g)[i], SlotBars(cs, g)[i], g.minutes);
    } else {
      n := |init|;
      if init != [] {
        SlotBarsEnds(init, g);
      }
      NewBarBegins(init, c, g);
    }
  }

  lemma {:induction false} NoSlotBars(g: Buckets)
    ensures SlotBars([], g) == []
  {
  }

  /** What the one-pass resampling gives for candles in order: the bars they make. */
  lemma {:induction false} SlotBarsSay(cs: seq<Bar>, g: Buckets) returns (bars: seq<Bar>)
    requires Increasing(cs)
    ensures BarSpec.Resampled(cs, bars, g.minutes, g.offset) && AllAgree(SlotBars(cs, g), bars)
  {
    hide *;
    IncreasingInOrder(cs, g);
    SlotBarsAreGrouped(cs, g);
    BarSpec.GroupedIsResampled(cs, g);
    bars := Grouped(cs, g);
  }

  // --------------------------------------------- what a prefix already knows

  lemma {:induction false} SlotBarsEnds(cs: seq<Bar>, g: Buckets)
    requires cs != []
    ensures SlotBars(cs, g) != [] && SlotBars(cs, g)[|SlotBars(cs, g)| - 1].slot == BucketStart(cs[|cs| - 1].ts, g)
  {
  }

  /** `y` continues `x`: only the last bar of `x` may still have grown. */
  predicate Continues(x: seq<SlotBar>, y: seq<SlotBar>) {
    0 < |x| <= |y| && x[..|x| - 1] <= y && y[|x| - 1].slot == x[|x| - 1].slot
  }

  lemma {:induction false} ExtendContinues(x: seq<SlotBar>, y: seq<SlotBar>, c: Bar, g: Buckets)
    requires Continues(x, y)
    ensures Continues(x, Extend(y, c, g))
  {
  }

  /** More candles never change a bar that is no longer the last ... */
  lemma {:induction false} SlotBarsGrow(a: seq<Bar>, b: seq<Bar>, g: Buckets)
    requires a != []
    ensures Continues(SlotBars(a, g), SlotBars(a + b, g))
  {
    SlotBarsEnds(a, g);
    if b == [] {
      assert a + b == a;
    } else {
      DropLastConcat(a, b);
      hide Continues, Extend;
      SlotBarsGrow(a, b[..|b| - 1], g);
      ExtendContinues(SlotBars(a, g), SlotBars(a + b[..|b| - 1], g), b[|b| - 1], g);
    }
  }

  lemma {:induction false} ExtendConcat(x: seq<SlotBar>, y: seq<SlotBar>, c: Bar, g: Buckets)
    requires y != []
    ensures Extend(x + y, c, g) == x + Extend(y, c, g)
  {
    DropLastConcat(x, y);
  }

  /** ... nor the last one, when the next candle opens a new slot. */
  lemma {:induction false} SlotBarsCut(a: seq<Bar>, b: seq<Bar>, g: Buckets)
    requires a != [] && b != [] && BucketStart(a[|a| - 1].ts, g) != BucketStart(b[0].ts, g)
    ensures SlotBars(a + b, g) == SlotBars(a, g) + SlotBars(b, g)
  {
    hide BucketStart;
    var init, c := b[..|b| - 1], b[|b| - 1];
    DropLastConcat(a, b);
    if init == [] {
      SlotBarsEnds(a, g);
      assert a + init == a && SlotBars(b, g) == [OpenBar(c, g)];
    } else {
      SlotBarsCut(a, init, g);
      SlotBarsEnds(init, g);
      ExtendConcat(SlotBars(a, g), SlotBars(init, g), c, g);
    }
  }

  predicate SlotsIncrease(bars: seq<SlotBar>) {
    forall i, j :: 0 <= i < j < |bars| ==> bars[i].slot < bars[j].slot
  }

  lemma {:induction false} SlotBarsIncrease(cs: seq<Bar>, g: Buckets)
    requires Increasing(cs)
    ensures SlotsIncrease(SlotBars(cs, g))
  {
    SlotBarsStreamed(cs, g);
    IncreasingInOrder(cs, g);
  }

  // ------------------------------------------------------------ the bisection

  /** `bisect_right` over the slots. */
  function BisectRight(bars: seq<SlotBar>, x: int): (n: nat)
    requires SlotsIncrease(bars)
    ensures n <= |bars|
    ensures forall i :: 0 <= i < n ==> bars[i].slot <= x
    ensures forall i :: n <= i < |bars| ==> x < bars[i].slot
  {
    if bars == [] then 0
    else if bars[|bars| - 1].slot <= x then |bars|
    else BisectRight(bars[..|bars| - 1], x)
  }

  /** How many bars a row may use whose newest candle opens at `end`: those begun
    * by then, less the last one if it is not closed five minutes later. */
  function Pick(bars: seq<SlotBar>, end: int, g: Buckets): (j: nat)
    requires SlotsIncrease(bars)
    ensures j <= |bars|
  {
    var j := BisectRight(bars, end);
    if j > 0 && bars[j - 1].slot + g.minutes > end + 5 then j - 1 else j
  }

  /** The bars known to be closed when `known` is all there is. */
  function ClosedBars(known: seq<Bar>, g: Buckets): seq<SlotBar>
    requires known != []
  {
    var bars := SlotBars(known, g);
    if bars != [] && bars[|bars| - 1].slot + g.minutes > known[|known| - 1].ts + 5
    then bars[..|bars| - 1]
    else bars
  }

  lemma {:induction false} BisectUnique(bars: seq<SlotBar>, x: int, n: nat)
    requires SlotsIncrease(bars) && n <= |bars|
    requires n > 0 ==> bars[n - 1].slot <= x
    requires n < |bars| ==> x < bars[n].slot
    ensures BisectRight(bars, x) == n
  {
  }

  /** The bar after the one `end` falls into begins later than `end`. */
  lemma {:induction false} NextSlotLater(cs: seq<Bar>, g: Buckets, n: nat, end: int)
    requires Increasing(cs) && 0 < n < |SlotBars(cs, g)| && SlotBars(cs, g)[n - 1].slot == BucketStart(end, g)
    ensures end < SlotBars(cs, g)[n].slot
  {
    var bars := SlotBars(cs, g);
    SlotBarsIncrease(cs, g);
    SlotBarsStreamed(cs, g);
    SlotAligned(cs, g, n);
    BucketStartAligned(end, g);
    BoundarySeparates(bars[n].slot, end, g);
  }

  lemma {:induction false} SlotAligned(cs: seq<Bar>, g: Buckets, n: nat)
    requires n < |SlotBars(cs, g)|
    ensures Aligned(SlotBars(cs, g)[n].slot, g)
  {
    hide BucketStart;
    var init, c := cs[..|cs| - 1], cs[|cs| - 1];
    if n < |SlotBars(cs, g)| - 1 {
      SlotAligned(init, g, n);
    } else {
      SlotBarsEnds(cs, g);
      BucketStartAligned(c.ts, g);
    }
  }

  /** The cut of the whole series is what resampling the known candles alone
    * would give: nothing after `known` is looked at. */
  lemma {:induction false} PickIsClosed(known: seq<Bar>, later: seq<Bar>, g: Buckets)
    requires known != [] && M5Series(known + later) && Increasing(known + later)
    requires SlotsIncrease(SlotBars(known + later, g))
    ensures var bars := SlotBars(known + later, g);
            bars[..Pick(bars, known[|known| - 1].ts, g)] == ClosedBars(known, g)
  {
    hide SlotBars, BucketStart, M5Series, Increasing;
    var end, x, y := known[|known| - 1].ts, SlotBars(known, g), SlotBars(known + later, g);
    SlotBarsEnds(known, g);
    SlotBarsGrow(known, later, g);
    if |x| < |y| {
      NextSlotLater(known + later, g, |x|, end);
    }
    BisectUnique(y, end, |x|);
    if x[|x| - 1].slot + g.minutes <= end + 5 {
      ClosedPrefix(known, later, g);
    }
  }

  lemma {:induction false} ClosedPrefix(known: seq<Bar>, later: seq<Bar>, g: Buckets)
    requires known != [] && M5Series(known + later)
    requires BucketStart(known[|known| - 1].ts, g) + g.minutes <= known[|known| - 1].ts + 5
    ensures SlotBars(known, g) <= SlotBars(known + later, g)
  {
    var end := known[|known| - 1].ts;
    if later == [] {
      assert known + later == known;
    } else {
      var all := known + later;
      assert all[|known| - 1] == known[|known| - 1] && all[|known|] == later[0];
      assert end + 5 <= later[0].ts;
      SlotBarsCut(known, later, g);
    }
  }

  /** Bar `i` closes by the time `t`. */
  predicate ClosesBy(bars: seq<SlotBar>, i: nat, t: int, g: Buckets)
    requires i < |bars|
  {
    bars[i].slot + g.minutes <= t
  }

  /** Bisecting and stepping back once picks exactly the bars closed five
    * minutes after the newest candle opened. */
  lemma {:induction false} PickIsExact(cs: seq<Bar>, end: int, g: Buckets, i: nat)
    requires Increasing(cs) && SlotsIncrease(SlotBars(cs, g)) && M5Grid(g) && i < |SlotBars(cs, g)|
    ensures i < Pick(SlotBars(cs, g), end, g) <==> ClosesBy(SlotBars(cs, g), i, end + 5, g)
  {
    hide SlotBars, BucketStart, Pick, Increasing, SlotsIncrease;
    var bars := SlotBars(cs, g);
    PickTakes(bars, end, g, i);
    if i + 1 < |bars| && bars[i + 1].slot <= end {
      SlotAligned(cs, g, i);
      SlotAligned(cs, g, i + 1);
      NextIsLater(bars, i);
      AlignedSteps(bars[i].slot, bars[i + 1].slot, g);
    }
  }

  /** A bar is picked when it began by then and a later one did too or it is closed. */
  lemma {:induction false} PickTakes(bars: seq<SlotBar>, end: int, g: Buckets, i: nat)
    requires SlotsIncrease(bars) && i < |bars|
    ensures i < Pick(bars, end, g) <==>
            bars[i].slot <= end && ((i + 1 < |bars| && bars[i + 1].slot <= end) || bars[i].slot + g.minutes <= end + 5)
  {
    hide SlotsIncrease;
    var j := BisectRight(bars, end);
    assert i < j <==> bars[i].slot <= end;
    if i + 1 < |bars| {
      assert i + 1 < j <==> bars[i + 1].slot <= end;
    }
  }

  lemma {:induction false} NextIsLater(bars: seq<SlotBar>, i: nat)
    requires SlotsIncrease(bars) && i + 1 < |bars|
    ensures bars[i].slot < bars[i + 1].slot
  {
  }

  /** The first `j` bars are exactly those that close by `t`. */
  predicate ExactlyClosed(bars: seq<SlotBar>, j: nat, t: int, g: Buckets) {
    forall i | 0 <= i < |bars| :: i < j <==> ClosesBy(bars, i, t, g)
  }

  /** The time falls between the cut and the stamp. */
  predicate Between(t: int, end: int, base: int) {
    end + 5 < t <= end + base
  }

  lemma {:induction false} SlotOfCandle(cs: seq<Bar>, g: Buckets, i: nat) returns (j: nat)
    requires i < |SlotBars(cs, g)|
    ensures j < |cs| && SlotBars(cs, g)[i].slot == BucketStart(cs[j].ts, g)
  {
    hide BucketStart;
    var init, c := cs[..|cs| - 1], cs[|cs| - 1];
    if i < |SlotBars(cs, g)| - 1 {
      j := SlotOfCandle(init, g, i);
    } else {
      SlotBarsEnds(cs, g);
      j := |cs| - 1;
    }
  }

  /** A bar that closes between the cut and the stamp is the bar of the newest candle,
    * or the next candle's bar closes by the stamp too. */
  lemma {:induction false} ClosesBetween(cs: seq<Bar>, n: nat, g: Buckets, base: int, i: nat)
    requires M5Series(cs) && n < |cs| && i < |SlotBars(cs, g)|
    requires Between(SlotBars(cs, g)[i].slot + g.minutes, cs[n].ts, base)
    ensures Between(EndOf(cs[n].ts, g), cs[n].ts, base) || (n + 1 < |cs| && EndOf(cs[n + 1].ts, g) <= cs[n].ts + base)
  {
    hide BucketStart, SlotBars;
    var j := SlotOfCandle(cs, g, i);
    if j <= n {
      if j < n {
        BucketStartMonotone(cs[j].ts, cs[n].ts, g);
      }
      BucketStartAligned(cs[j].ts, g);
      BucketStartAligned(cs[n].ts, g);
      if BucketStart(cs[j].ts, g) < BucketStart(cs[n].ts, g) {
        AlignedSteps(BucketStart(cs[j].ts, g), BucketStart(cs[n].ts, g), g);
      }
    } else {
      assert cs[n + 1].ts <= cs[j].ts;
      BucketStartMonotone(cs[n + 1].ts, cs[j].ts, g);
    }
  }

  /** A row is stamped `end + base`. For any base timeframe, shorter or longer than the
    * picked one, the bars used are exactly those closed by the stamp if and only if
    * neither the bar of the newest candle closes after the cut and by the stamp, nor
    * the next candle's bar closes by the stamp. */
  lemma {:induction false} StampIsExactIff(cs: seq<Bar>, n: nat, g: Buckets, base: int)
    requires M5Series(cs) && SlotsIncrease(SlotBars(cs, g)) && M5Grid(g) && n < |cs| && base >= 5
    ensures ExactlyClosed(SlotBars(cs, g), Pick(SlotBars(cs, g), cs[n].ts, g), cs[n].ts + base, g) <==>
            && !Between(EndOf(cs[n].ts, g), cs[n].ts, base)
            && (n + 1 < |cs| ==> cs[n].ts + base < EndOf(cs[n + 1].ts, g))
  {
    hide *;
    var end := cs[n].ts;
    if Between(EndOf(end, g), end, base) {
      NotExact(cs, n, n, g, base);
    } else if n + 1 < |cs| && EndOf(cs[n + 1].ts, g) <= end + base {
      NextEndsLater(cs, n, g, base);
      NotExact(cs, n, n + 1, g, base);
    } else {
      NoneBetween(cs, n, g, base);
    }
  }

  lemma {:induction false} NoneBetween(cs: seq<Bar>, n: nat, g: Buckets, base: int)
    requires M5Series(cs) && SlotsIncrease(SlotBars(cs, g)) && M5Grid(g) && n < |cs| && base >= 5
    requires !Between(EndOf(cs[n].ts, g), cs[n].ts, base)
    requires n + 1 < |cs| ==> cs[n].ts + base < EndOf(cs[n + 1].ts, g)
    ensures ExactlyClosed(SlotBars(cs, g), Pick(SlotBars(cs, g), cs[n].ts, g), cs[n].ts + base, g)
  {
    hide Pick, SlotBars, BucketStart, SlotsIncrease, M5Grid, M5Series, ClosesBy, Between, EndOf;
    var bars, end, t := SlotBars(cs, g), cs[n].ts, cs[n].ts + base;
    SeriesIncreasing(cs);
    forall i | 0 <= i < |bars| ensures i < Pick(bars, end, g) <==> ClosesBy(bars, i, t, g) {
      PickIsExact(cs, end, g, i);
      ClosesByMeans(bars, i, end, base, g);
      if Between(bars[i].slot + g.minutes, end, base) {
        ClosesBetween(cs, n, g, base, i);
      }
    }
  }

  lemma {:induction false} ClosesByMeans(bars: seq<SlotBar>, i: nat, end: int, base: int, g: Buckets)
    requires i < |bars| && base >= 5
    ensures ClosesBy(bars, i, end + 5, g) ==> ClosesBy(bars, i, end + base, g)
    ensures ClosesBy(bars, i, end + base, g) && !ClosesBy(bars, i, end + 5, g) ==>
              Between(bars[i].slot + g.minutes, end, base)
  {
  }

  lemma {:induction false} NextEndsLater(cs: seq<Bar>, n: nat, g: Buckets, base: int)
    requires M5Series(cs) && n + 1 < |cs| && EndOf(cs[n + 1].ts, g) <= cs[n].ts + base
    ensures Between(EndOf(cs[n + 1].ts, g), cs[n].ts, base)
  {
    hide BucketStart;
    assert cs[n].ts < cs[n + 1].ts;
  }

  lemma {:induction false} NotExact(cs: seq<Bar>, n: nat, m: nat, g: Buckets, base: int)
    requires M5Series(cs) && SlotsIncrease(SlotBars(cs, g)) && M5Grid(g) && n < |cs| && m < |cs|
    requires Between(EndOf(cs[m].ts, g), cs[n].ts, base)
    ensures !ExactlyClosed(SlotBars(cs, g), Pick(SlotBars(cs, g), cs[n].ts, g), cs[n].ts + base, g)
  {
    hide Pick, SlotBars, BucketStart, SlotsIncrease, M5Grid, M5Series;
    SeriesIncreasing(cs);
    var i := BarOfCandle(cs, m, g);
    PickIsExact(cs, cs[n].ts, g, i);
    assert ClosesBy(SlotBars(cs, g), i, cs[n].ts + base, g);
  }

  /** In particular, for a base timeframe the picked one is made of: if and only if it
    * is M5 or no bar boundary falls on the stamp. Otherwise the bar closing at the
    * stamp is left out. */
  lemma {:induction false} StampOnGridIff(cs: seq<Bar>, n: nat, g: Buckets, base: Buckets)
    requires Increasing(cs) && SlotsIncrease(SlotBars(cs, g)) && M5Grid(g) && n < |cs|
    requires Nested(base, g) && base.minutes >= 5 && Aligned(cs[n].ts, base)
    ensures ExactlyClosed(SlotBars(cs, g), Pick(SlotBars(cs, g), cs[n].ts, g), cs[n].ts + base.minutes, g)
            <==> base.minutes == 5 || !Aligned(cs[n].ts + base.minutes, g)
  {
    hide *;
    if base.minutes == 5 || !Aligned(cs[n].ts + base.minutes, g) {
      StampIsExact(cs, n, g, base);
    } else {
      StampMisses(cs, n, g, base);
    }
  }

  lemma {:induction false} StampIsExact(cs: seq<Bar>, n: nat, g: Buckets, base: Buckets)
    requires Increasing(cs) && SlotsIncrease(SlotBars(cs, g)) && M5Grid(g) && n < |cs|
    requires Nested(base, g) && base.minutes >= 5 && Aligned(cs[n].ts, base)
    requires base.minutes == 5 || !Aligned(cs[n].ts + base.minutes, g)
    ensures ExactlyClosed(SlotBars(cs, g), Pick(SlotBars(cs, g), cs[n].ts, g), cs[n].ts + base.minutes, g)
  {
    var bars, end, t := SlotBars(cs, g), cs[n].ts, cs[n].ts + base.minutes;
    hide Pick, SlotBars, BucketStart, Increasing, SlotsIncrease, Nested, M5Grid, Aligned, ClosesBy;
    forall i | 0 <= i < |bars|
      ensures i < Pick(bars, end, g) <==> ClosesBy(bars, i, t, g)
    {
      StampAt(cs, n, g, base, i);
    }
  }

  lemma {:induction false} StampAt(cs: seq<Bar>, n: nat, g: Buckets, base: Buckets, i: nat)
    requires Increasing(cs) && SlotsIncrease(SlotBars(cs, g)) && M5Grid(g) && n < |cs| && i < |SlotBars(cs, g)|
    requires Nested(base, g) && base.minutes >= 5 && Aligned(cs[n].ts, base)
    requires base.minutes == 5 || !Aligned(cs[n].ts + base.minutes, g)
    ensures i < Pick(SlotBars(cs, g), cs[n].ts, g) <==> ClosesBy(SlotBars(cs, g), i, cs[n].ts + base.minutes, g)
  {
    hide *;
    PickIsExact(cs, cs[n].ts, g, i);
    if base.minutes != 5 {
      NoBoundaryBetween(cs, i, cs[n].ts, g, base);
    }
  }

  lemma {:induction false} StampMisses(cs: seq<Bar>, n: nat, g: Buckets, base: Buckets)
    requires Increasing(cs) && SlotsIncrease(SlotBars(cs, g)) && M5Grid(g) && n < |cs|
    requires Nested(base, g) && base.minutes > 5 && Aligned(cs[n].ts, base) && Aligned(cs[n].ts + base.minutes, g)
    ensures !ExactlyClosed(SlotBars(cs, g), Pick(SlotBars(cs, g), cs[n].ts, g), cs[n].ts + base.minutes, g)
  {
    hide Pick, SlotBars, BucketStart, Increasing, SlotsIncrease, Nested, M5Grid, Aligned;
    var i := BarOfCandle(cs, n, g);
    ClosesAtStamp(cs[n].ts, g, base);
    PickIsExact(cs, cs[n].ts, g, i);
    assert ClosesBy(SlotBars(cs, g), i, cs[n].ts + base.minutes, g);
  }

  lemma {:induction false} NoBoundaryBetween(cs: seq<Bar>, i: nat, end: int, g: Buckets, base: Buckets)
    requires i < |SlotBars(cs, g)| && Nested(base, g) && base.minutes >= 5
    requires Aligned(end, base) && !Aligned(end + base.minutes, g)
    ensures ClosesBy(SlotBars(cs, g), i, end + base.minutes, g) <==> ClosesBy(SlotBars(cs, g), i, end + 5, g)
  {
    var e := SlotBars(cs, g)[i].slot + g.minutes;
    hide BucketStart, SlotBars, Nested;
    SlotAligned(cs, g, i);
    NextBucket(SlotBars(cs, g)[i].slot, g);
    if end < e < end + base.minutes {
      CoarseIsFine(e, base, g);
      AlignedSteps(end, e, base);
    }
  }

  lemma {:induction false} ClosesAtStamp(end: int, g: Buckets, base: Buckets)
    requires Nested(base, g) && Aligned(end, base) && Aligned(end + base.minutes, g)
    ensures BucketStart(end, g) + g.minutes == end + base.minutes
  {
    hide Nested;
    var e := BucketStart(end, g) + g.minutes;
    BucketStartAligned(end, g);
    NextBucket(BucketStart(end, g), g);
    BoundarySeparates(end + base.minutes, end, g);
    CoarseIsFine(e, base, g);
    AlignedSteps(end, e, base);
  }

  lemma {:induction false} BarOfCandle(cs: seq<Bar>, n: nat, g: Buckets) returns (i: nat)
    requires n < |cs|
    ensures i < |SlotBars(cs, g)| && SlotBars(cs, g)[i].slot == BucketStart(cs[n].ts, g)
  {
    hide BucketStart;
    SplitAt(cs, n + 1);
    SlotBarsEnds(cs[..n + 1], g);
    SlotBarsGrow(cs[..n + 1], cs[n + 1..], g);
    i := |SlotBars(cs[..n + 1], g)| - 1;
  }

  // ------------------------------------------------------------ the backfill

  /** The latest `n` of the bars. */
  function Latest(bars: seq<SlotBar>, n: nat): seq<SlotBar> {
    if |bars| <= n then bars else bars[|bars| - n..]
  }

  const EMA_BARS: nat := 30
  const FOPOK_LOOKBACK: nat := 100
  const FOPOK_TF: Buckets := Grid(15, 0)
  const FOPOK_HIGHER: Buckets := Grid(60, 0)
  const FLUSH_ROWS: nat := 5000

  /** One parameter set. `fomak` and `fopok` are the key computations, which are
    * not part of this model; `fomak` may refuse its input. */
  datatype Settings<!K, !F> = Settings(
    lookback: nat, warmup: nat, higher: Buckets, base: int,
    fomak: (seq<Bar>, seq<Bar>, seq<SlotBar>) -> Option<K>,
    fopok: (seq<SlotBar>, seq<SlotBar>, int) -> F)
  {
    function Need(): nat { lookback + warmup }
  }

  datatype KeyRow<K, F> = KeyRow(validFrom: int, key: K, position: Option<F>)

  /** The key row for the moment `known` ends, computed from `known` alone. */
  function RowAt<K, F>(known: seq<Bar>, s: Settings<K, F>): Option<KeyRow<K, F>>
    requires s.Need() <= |known| && s.lookback > 0
  {
    var n := |known|;
    var window, warmup := known[n - s.lookback..], known[n - s.Need()..n - s.lookback];
    var higher := Latest(ClosedBars(known, s.higher), EMA_BARS);
    if |higher| < 25 then None
    else
      var key := s.fomak(window, warmup, higher);
      if key.None? then None
      else
        var own, hi := ClosedBars(known, FOPOK_TF), ClosedBars(known, FOPOK_HIGHER);
        var position :=
          if |own| >= 20 && |hi| >= 20
          then Some(s.fopok(Latest(own, FOPOK_LOOKBACK), Latest(hi, FOPOK_LOOKBACK), known[n - 1].close))
          else None;
        Some(KeyRow(known[n - 1].ts + s.base, key.value, position))
  }

  /** The rows for every moment up to `n` candles, oldest first. */
  function Rows<K, F>(m5: seq<Bar>, n: nat, s: Settings<K, F>): seq<KeyRow<K, F>>
    requires n <= |m5| && s.lookback > 0
  {
    if n < s.Need() || n == 0 then []
    else
      var row := RowAt(m5[..n], s);
      Rows(m5, n - 1, s) + if row.None? then [] else [row.value]
  }

  /** The bars of one timeframe, resampled once, cut for the candle at `i - 1`. */
  method CutBars(ghost m5: seq<Bar>, bars: seq<SlotBar>, ghost i: nat, end: int, g: Buckets) returns (cut: seq<SlotBar>)
    requires M5Series(m5) && 0 < i <= |m5| && end == m5[i - 1].ts && bars == SlotBars(m5, g)
    ensures cut == ClosedBars(m5[..i], g)
  {
    hide SlotBars, BucketStart, Increasing, ClosedBars, SlotsIncrease, Pick, M5Series;
    SplitAt(m5, i);
    SeriesIncreasing(m5);
    SlotBarsIncrease(m5, g);
    PickIsClosed(m5[..i], m5[i..], g);
    var j := Pick(bars, end, g);
    cut := bars[..j];
  }

  /** `backfill`: rows are collected in `out` and written in batches. */
  method Backfill<K, F>(m5: seq<Bar>, s: Settings<K, F>) returns (table: seq<KeyRow<K, F>>)
    requires M5Series(m5) && s.lookback > 0
    ensures Backfilled(m5, s, table)
    ensures table == Rows(m5, |m5|, s)
  {
    hide Backfilled, SlotBars, BucketStart, M5Series, ClosedBars, RowAt;
    RowsBackfilled(m5, s);
    var hiBars := Resample(m5, s.higher);
    var ownTf := Resample(m5, FOPOK_TF);
    var ownHigher := Resample(m5, FOPOK_HIGHER);
    table := [];
    var out: seq<KeyRow<K, F>> := [];
    if |m5| < s.Need() {
      return;
    }
    var i := s.Need();
    assert Rows(m5, i - 1, s) == [];
    while i <= |m5|
      invariant s.Need() <= i <= |m5| + 1
      invariant table + out == Rows(m5, i - 1, s)
    {
      var row := MakeRow(m5, i, s, hiBars, ownTf, ownHigher);
      if row.Some? {
        assert table + (out + [row.value]) == table + out + [row.value];
        out := out + [row.value];
        if |out| >= FLUSH_ROWS {
          table, out := table + out, [];
        }
      }
      i := i + 1;
    }
    table := table + out;
  }

  method MakeRow<K, F>(m5: seq<Bar>, i: nat, s: Settings<K, F>, hiBars: seq<SlotBar>, ownTf: seq<SlotBar>,
                       ownHigher: seq<SlotBar>) returns (row: Option<KeyRow<K, F>>)
    requires M5Series(m5) && s.lookback > 0 && s.Need() <= i <= |m5|
    requires hiBars == SlotBars(m5, s.higher)
    requires ownTf == SlotBars(m5, FOPOK_TF) && ownHigher == SlotBars(m5, FOPOK_HIGHER)
    ensures row == RowAt(m5[..i], s)
  {
    hide SlotBars, BucketStart, M5Series, ClosedBars;
    var window, warmup := m5[i - s.lookback..i], m5[i - s.Need()..i - s.lookback];
    assert window == m5[..i][i - s.lookback..] && warmup == m5[..i][i - s.Need()..i - s.lookback];
    var end := window[|window| - 1].ts;
    var closed := CutBars(m5, hiBars, i, end, s.higher);
    var higher := Latest(closed, EMA_BARS);
    if |higher| < 25 {
      return None;
    }
    var key := s.fomak(window, warmup, higher);
    if key.None? {
      return None;
    }
    var a := CutBars(m5, ownTf, i, end, FOPOK_TF);
    var b := CutBars(m5, ownHigher, i, end, FOPOK_HIGHER);
    var position: Option<F> := None;
    if |a| >= 20 && |b| >= 20 {
      position := Some(s.fopok(Latest(a, FOPOK_LOOKBACK), Latest(b, FOPOK_LOOKBACK), window[|window| - 1].close));
    }
    return Some(KeyRow(end + s.base, key.value, position));
  }

  /** No look-ahead: whatever follows `known`, the rows up to its end stay the same. */
  lemma {:induction false} LaterCandlesChangeNothing<K, F>(known: seq<Bar>, later: seq<Bar>, n: nat, s: Settings<K, F>)
    requires n <= |known| && s.lookback > 0
    ensures Rows(known + later, n, s) == Rows(known, n, s)
  {
    hide RowAt;
    if n >= s.Need() && n > 0 {
      LaterCandlesChangeNothing(known, later, n - 1, s);
      assert (known + later)[..n] == known[..n];
    }
  }

  lemma {:induction false} RowsOnlyGrow<K, F>(m5: seq<Bar>, n: nat, m: nat, s: Settings<K, F>)
    requires n <= m <= |m5| && s.lookback > 0
    ensures Rows(m5, n, s) <= Rows(m5, m, s)
  {
    hide RowAt;
    if n < m {
      RowsOnlyGrow(m5, n, m - 1, s);
    }
  }

  /** So what a backfill writes stands: one over a longer series begins with the same rows. */
  lemma {:induction false} WrittenRowsStand<K, F>(known: seq<Bar>, later: seq<Bar>, s: Settings<K, F>)
    requires s.lookback > 0
    ensures Rows(known, |known|, s) <= Rows(known + later, |known + later|, s)
  {
    hide Rows;
    LaterCandlesChangeNothing(known, later, |known|, s);
    RowsOnlyGrow(known + later, |known|, |known + later|, s);
  }

  // ------------------------------------------------------- what a row is computed from

  /** The newest `n` bars that are closed five minutes after the newest known candle
    * opened (all of them where there are fewer), oldest first. */
  ghost predicate NewestClosed(bars: seq<SlotBar>, known: seq<Bar>, g: Buckets, n: nat)
    requires known != []
  {
    var all, end := SlotBars(known, g), known[|known| - 1].ts;
    exists i: nat, j: nat ::
      Closes(all, end, g, j) && i <= j && bars == all[i..j] && (if j <= n then i == 0 else j - i == n)
  }

  /** The bars closed five minutes after `end` are the first `j`. */
  predicate Closes(bars: seq<SlotBar>, end: int, g: Buckets, j: nat) {
    j <= |bars| && forall i :: 0 <= i < |bars| ==> (bars[i].slot + g.minutes <= end + 5 <==> i < j)
  }

  lemma {:induction false} ClosedBarsAre(known: seq<Bar>, g: Buckets)
    requires known != [] && Increasing(known)
    ensures var all, closed := SlotBars(known, g), ClosedBars(known, g);
            closed == all[..|closed|] && Closes(all, known[|known| - 1].ts, g, |closed|)
  {
    hide BucketStart, SlotBars;
    var all := SlotBars(known, g);
    SlotBarsIncrease(known, g);
    SlotBarsEnds(known, g);
    forall i | 0 <= i < |all| - 1 ensures all[i].slot + g.minutes <= known[|known| - 1].ts {
      SlotAligned(known, g, i);
      SlotAligned(known, g, |all| - 1);
      AlignedSteps(all[i].slot, all[|all| - 1].slot, g);
    }
  }

  lemma {:induction false} LatestAreNewest(known: seq<Bar>, g: Buckets, n: nat)
    requires known != [] && Increasing(known)
    ensures NewestClosed(Latest(ClosedBars(known, g), n), known, g, n)
  {
    hide BucketStart, SlotBars, ClosedBars, Increasing;
    ClosedBarsAre(known, g);
    var all, j := SlotBars(known, g), |ClosedBars(known, g)|;
    var i := if j <= n then 0 else j - n;
    assert all[..j][i..] == all[i..j];
    assert all[..j] == all[0..j];
    assert Closes(all, known[|known| - 1].ts, g, j) && i <= j;
  }

  /** The row of a moment, from what it is computed from: the `lookback` newest candles,
    * the `warmup` before them and the newest 30 closed bars of the higher timeframe, of
    * which there must be 25; the position from the newest 100 closed M15 and H1 bars and
    * the last close, where there are 20 of each; valid from the end of the last candle. */
  ghost predicate RowFrom<K, F>(row: Option<KeyRow<K, F>>, known: seq<Bar>, s: Settings<K, F>, higher: seq<SlotBar>,
                                own: seq<SlotBar>, hi: seq<SlotBar>)
    requires s.lookback + s.warmup <= |known| && s.lookback > 0
  {
    var n := |known|;
    var key := s.fomak(known[n - s.lookback..], known[n - s.lookback - s.warmup..n - s.lookback], higher);
    && NewestClosed(higher, known, s.higher, 30)
    && NewestClosed(own, known, Grid(15, 0), 100) && NewestClosed(hi, known, Grid(60, 0), 100)
    && (row.Some? <==> |higher| >= 25 && key.Some?)
    && (row.Some? ==>
          && row.value.validFrom == known[n - 1].ts + s.base
          && key == Some(row.value.key)
          && row.value.position == if |own| >= 20 && |hi| >= 20 then Some(s.fopok(own, hi, known[n - 1].close)) else None)
  }

  lemma {:induction false} RowSays<K, F>(known: seq<Bar>, s: Settings<K, F>)
    returns (higher: seq<SlotBar>, own: seq<SlotBar>, hi: seq<SlotBar>)
    requires s.lookback + s.warmup <= |known| && s.lookback > 0 && Increasing(known)
    ensures RowFrom(RowAt(known, s), known, s, higher, own, hi)
  {
    hide BucketStart, SlotBars, ClosedBars, Increasing, NewestClosed;
    higher := Latest(ClosedBars(known, s.higher), EMA_BARS);
    own := Latest(ClosedBars(known, FOPOK_TF), FOPOK_LOOKBACK);
    hi := Latest(ClosedBars(known, FOPOK_HIGHER), FOPOK_LOOKBACK);
    LatestAreNewest(known, s.higher, 30);
    LatestAreNewest(known, Grid(15, 0), 100);
    LatestAreNewest(known, Grid(60, 0), 100);
  }

  lemma {:induction false} KnownIncreasing(m5: seq<Bar>, n: nat)
    requires Increasing(m5) && n <= |m5|
    ensures Increasing(m5[..n])
  {
  }

  /** What the candles known at a moment give: a row, or none. */
  ghost predicate Gives<K, F>(known: seq<Bar>, s: Settings<K, F>, row: Option<KeyRow<K, F>>) {
    && 0 < s.lookback && s.lookback + s.warmup <= |known|
    && exists higher, own, hi :: RowFrom(row, known, s, higher, own, hi)
  }

  /** The table holds, oldest first, the row of every moment that gives one: a moment is
    * the end of one of the candles that have enough candles before them. */
  ghost predicate FilledAt<K, F>(m5: seq<Bar>, s: Settings<K, F>, table: seq<KeyRow<K, F>>, moments: seq<nat>) {
    && |moments| == |table|
    && (forall k, l :: 0 <= k < l < |moments| ==> moments[k] < moments[l])
    && (forall k :: 0 <= k < |moments| ==> moments[k] <= |m5| && Gives(m5[..moments[k]], s, Some(table[k])))
    && forall i: nat :: s.lookback + s.warmup <= i <= |m5| && i !in moments ==> Gives(m5[..i], s, None)
  }

  ghost predicate Backfilled<K, F>(m5: seq<Bar>, s: Settings<K, F>, table: seq<KeyRow<K, F>>) {
    exists moments: seq<nat> :: FilledAt(m5, s, table, moments)
  }

  lemma {:induction false} RowAtGives<K, F>(m5: seq<Bar>, n: nat, s: Settings<K, F>)
    requires s.lookback + s.warmup <= n <= |m5| && s.lookback > 0 && Increasing(m5)
    ensures Gives(m5[..n], s, RowAt(m5[..n], s))
  {
    hide RowAt, RowFrom, Increasing;
    KnownIncreasing(m5, n);
    var higher, own, hi := RowSays(m5[..n], s);
  }

  lemma {:induction false} NothingBackfilled<K, F>(m5: seq<Bar>, s: Settings<K, F>)
    requires |m5| < s.lookback + s.warmup
    ensures FilledAt(m5, s, [], [])
  {
  }

  lemma {:induction false} OneMoreMoment<K, F>(m5: seq<Bar>, s: Settings<K, F>, table: seq<KeyRow<K, F>>,
                                               moments: seq<nat>, row: Option<KeyRow<K, F>>)
    requires m5 != [] && FilledAt(m5[..|m5| - 1], s, table, moments) && Gives(m5, s, row)
    ensures row.Some? ==> FilledAt(m5, s, table + [row.value], moments + [|m5|])
    ensures row.None? ==> FilledAt(m5, s, table, moments)
  {
    hide Gives;
    var init := m5[..|m5| - 1];
    assert m5[..|m5|] == m5;
    assert forall i: nat :: i < |m5| ==> init[..i] == m5[..i];
    assert row.Some? ==> forall i :: i in moments + [|m5|] <==> i in moments || i == |m5|;
    assert |m5| !in moments by {
      assert forall k :: 0 <= k < |moments| ==> moments[k] <= |init|;
    }
  }

  lemma {:induction false} RowsFilledAt<K, F>(m5: seq<Bar>, s: Settings<K, F>) returns (moments: seq<nat>)
    requires s.lookback > 0 && Increasing(m5)
    ensures FilledAt(m5, s, Rows(m5, |m5|, s), moments)
    decreases |m5|
  {
    hide RowAt, FilledAt, Gives, Increasing;
    if |m5| < s.lookback + s.warmup {
      moments := [];
      NothingBackfilled(m5, s);
    } else {
      var n := |m5|;
      var init := m5[..n - 1];
      KnownIncreasing(m5, n - 1);
      moments := RowsFilledAt(init, s);
      RowAtGives(m5, n, s);
      assert m5[..n] == m5;
      OneMoreMoment(m5, s, Rows(init, n - 1, s), moments, RowAt(m5, s));
      LaterCandlesChangeNothing(init, m5[n - 1..], n - 1, s);
      assert init + m5[n - 1..] == m5;
      assert Rows(init, n - 1, s) + [] == Rows(init, n - 1, s);
      if RowAt(m5, s).Some? {
        moments := moments + [n];
      }
    }
  }

  lemma {:induction false} RowsBackfilled<K, F>(m5: seq<Bar>, s: Settings<K, F>)
    requires s.lookback > 0 && M5Series(m5)
    ensures Backfilled(m5, s, Rows(m5, |m5|, s))
  {
    hide Rows, FilledAt, M5Series;
    SeriesIncreasing(m5);
    var moments := RowsFilledAt(m5, s);
  }

  /** In particular, a key computation that gives back its third argument writes the
    * newest 30 closed bars of some moment. */
  lemma {:induction false} KeysAreNewestBars<F>(m5: seq<Bar>, s: Settings<seq<SlotBar>, F>,
                                                table: seq<KeyRow<seq<SlotBar>, F>>, k: nat)
    returns (i: nat)
    requires Backfilled(m5, s, table) && k < |table| && forall w, u, h :: s.fomak(w, u, h) == Some(h)
    ensures 0 < i <= |m5| && NewestClosed(table[k].key, m5[..i], s.higher, 30)
    ensures table[k].validFrom == m5[i - 1].ts + s.base
  {
    hide FilledAt, Gives;
    var moments: seq<nat> :| FilledAt(m5, s, table, moments);
    i := MomentOf(m5, s, table, moments, k);
    GivesNewest(m5[..i], s, table[k]);
  }

  lemma {:induction false} MomentOf<K, F>(m5: seq<Bar>, s: Settings<K, F>, table: seq<KeyRow<K, F>>,
                                          moments: seq<nat>, k: nat) returns (i: nat)
    requires FilledAt(m5, s, table, moments) && k < |table|
    ensures 0 < i <= |m5| && Gives(m5[..i], s, Some(table[k]))
  {
    hide RowFrom;
    i := moments[k];
  }

  lemma {:induction false} GivesNewest<F>(known: seq<Bar>, s: Settings<seq<SlotBar>, F>, row: KeyRow<seq<SlotBar>, F>)
    requires Gives(known, s, Some(row)) && forall w, u, h :: s.fomak(w, u, h) == Some(h)
    ensures known != [] && NewestClosed(row.key, known, s.higher, 30) && row.validFrom == known[|known| - 1].ts + s.base
  {
    hide NewestClosed;
    var higher, own, hi :| RowFrom(Some(row), known, s, higher, own, hi);
  }
}
