/** `resample_candles`: labelled candles in, labelled bars of a larger
  * timeframe out, or the error the caller would see. */
module Resampler {
  import opened Wrappers
  import opened Seqs
  import opened Candles
  import BarSpec
  import CandleLaws

  /** A timeframe label; `Other` is any label missing from the table of minutes. */
  datatype Timeframe = M1 | M5 | M15 | M30 | H1 | H4 | D1 | Other(name: string)

  datatype Candle = Candle(bar: Bar, timeframe: Timeframe)

  datatype ResampleError =
    | UnknownSource(timeframe: Timeframe)
    | UnknownTarget(timeframe: Timeframe)
    | TargetNotLarger
    | TargetNotMultiple

  function TfMinutes(tf: Timeframe): Option<int> {
    match tf
    case M1 => Some(1)
    case M5 => Some(5)
    case M15 => Some(15)
    case M30 => Some(30)
    case H1 => Some(60)
    case H4 => Some(240)
    case D1 => Some(1440)
    case Other(_) => None
  }

  function Bars(candles: seq<Candle>): seq<Bar> {
    if candles == [] then [] else Bars(candles[..|candles| - 1]) + [candles[|candles| - 1].bar]
  }

  function Labelled(bars: seq<Bar>, tf: Timeframe): seq<Candle> {
    if bars == [] then [] else Labelled(bars[..|bars| - 1], tf) + [Candle(bars[|bars| - 1], tf)]
  }

  /** The grid of `target` for candles labelled `source`, if they are compatible. */
  function TargetGrid(source: Timeframe, target: Timeframe, offsetHours: int): Result<Buckets, ResampleError> {
    var s, t := TfMinutes(source), TfMinutes(target);
    if s.None? then Err(UnknownSource(source))
    else if t.None? then Err(UnknownTarget(target))
    else if t.value <= s.value then Err(TargetNotLarger)
    else if t.value % s.value != 0 then Err(TargetNotMultiple)
    else Ok(Grid(t.value, offsetHours * 60))
  }

  /** `_bucket_start`: shift, floor-divide, multiply, shift back. */
  function FloorToBucket(ts: int, g: Buckets): (r: int)
    ensures r == BucketStart(ts, g)
  {
    BucketStartIsFloor(ts, g);
    (ts - g.offset) / g.minutes * g.minutes + g.offset
  }

  /** What resampling returns, in terms of the reference grouping. */
  function Resample(candles: seq<Candle>, target: Timeframe, offsetHours: int): Result<seq<Candle>, ResampleError> {
    if candles == [] then Ok([])
    else
      var grid := TargetGrid(candles[0].timeframe, target, offsetHours);
      if grid.Err? then Err(grid.error)
      else Ok(Labelled(Grouped(Bars(candles), grid.value), target))
  }

  /** How long a timeframe is, in minutes. */
  predicate Lasts(tf: Timeframe, m: int) {
    || (tf.M1? && m == 1) || (tf.M5? && m == 5) || (tf.M15? && m == 15) || (tf.M30? && m == 30)
    || (tf.H1? && m == 60) || (tf.H4? && m == 240) || (tf.D1? && m == 1440)
  }

  /** `bars` are the candles without their labels. */
  predicate Unlabelled(candles: seq<Candle>, bars: seq<Bar>) {
    |bars| == |candles| && forall i :: 0 <= i < |bars| ==> bars[i] == candles[i].bar
  }

  /** The bars carry the label and are what the candles make. */
  ghost predicate Resampled(candles: seq<Candle>, result: seq<Candle>, target: Timeframe, m: int, offsetHours: int) {
    && (forall b :: b in result ==> b.timeframe == target)
    && forall cs, bars :: Unlabelled(candles, cs) && Unlabelled(result, bars) ==>
                            BarSpec.Resampled(cs, bars, m, 60 * offsetHours)
  }

  /** No candles give no bars. Otherwise the first of four errors that applies, or the
    * bars of the target's length. */
  ghost predicate Answers(candles: seq<Candle>, target: Timeframe, offsetHours: int,
                          r: Result<seq<Candle>, ResampleError>)
  {
    if candles == [] then r == Ok([])
    else
      var source := candles[0].timeframe;
      && (r == Err(UnknownSource(source)) <==> source.Other?)
      && (r == Err(UnknownTarget(target)) <==> !source.Other? && target.Other?)
      && forall s, t :: Lasts(source, s) && Lasts(target, t) ==>
           && (r == Err(TargetNotLarger) <==> t <= s)
           && (r == Err(TargetNotMultiple) <==> t > s && t % s != 0)
           && (r.Ok? <==> t > s && t % s == 0)
           && (r.Ok? ==> Resampled(candles, r.value, target, t, offsetHours))
  }

  method ResampleCandles(candles: seq<Candle>, target: Timeframe, offsetHours: int)
    returns (r: Result<seq<Candle>, ResampleError>)
    ensures r == Resample(candles, target, offsetHours)
    ensures Answers(candles, target, offsetHours, r)
  {
    hide Answers, Grouped, Labelled, Bars, BarsOf, TargetGrid;
    ResampleSays(candles, target, offsetHours);
    GridIs(if candles == [] then target else candles[0].timeframe, target, offsetHours);
    if candles == [] {
      return Ok([]);
    }
    var source, wanted := TfMinutes(candles[0].timeframe), TfMinutes(target);
    if source.None? {
      return Err(UnknownSource(candles[0].timeframe));
    }
    if wanted.None? {
      return Err(UnknownTarget(target));
    }
    if wanted.value <= source.value {
      return Err(TargetNotLarger);
    }
    if wanted.value % source.value != 0 {
      return Err(TargetNotMultiple);
    }
    var g: Buckets := Grid(wanted.value, offsetHours * 60);
    var buckets := CollectBuckets(Bars(candles), g);
    var result := EmitBars(Bars(candles), buckets, g, target);
    return Ok(result);
  }

  /** First loop: a dictionary from bucket to its candles in input order. */
  method CollectBuckets(cs: seq<Bar>, g: Buckets) returns (buckets: map<int, seq<Bar>>)
    ensures buckets.Keys == Keys(cs, g)
    ensures forall k :: k in buckets ==> buckets[k] == Group(cs, k, g)
  {
    hide BucketStart, FloorToBucket, Group;
    buckets := map[];
    var i := 0;
    while i < |cs|
      invariant i <= |cs|
      invariant buckets.Keys == Keys(cs[..i], g)
      invariant forall k :: k in buckets ==> buckets[k] == Group(cs[..i], k, g)
    {
      var key := FloorToBucket(cs[i].ts, g);
      TakeNext(cs, i);
      KeysExtend(cs[..i], cs[i], g);
      GroupNonEmpty(cs[..i], key, g);
      forall k { GroupExtend(cs[..i], cs[i], k, g); }
      if key in buckets {
        buckets := buckets[key := buckets[key] + [cs[i]]];
      } else {
        buckets := buckets[key := [cs[i]]];
      }
      i := i + 1;
    }
    TakeAll(cs);
  }

  /** Second loop: one bar per bucket, smallest key first. */
  method EmitBars(ghost cs: seq<Bar>, buckets: map<int, seq<Bar>>, g: Buckets, target: Timeframe)
    returns (result: seq<Candle>)
    requires buckets.Keys == Keys(cs, g)
    requires forall k :: k in buckets ==> buckets[k] == Group(cs, k, g)
    ensures result == Labelled(Grouped(cs, g), target)
  {
    var keys := Ascending(buckets.Keys);
    result := [];
    var i := 0;
    while i < |keys|
      invariant i <= |keys|
      invariant forall k :: k in keys[..i] ==> k in Keys(cs, g)
      invariant result == Labelled(BarsOf(keys[..i], cs, g), target)
    {
      var key := keys[i];
      TakeNext(keys, i);
      assert key in keys;
      GroupNonEmpty(cs, key, g);
      var bar := Aggregate(key, buckets[key]);
      BarsOfOne(keys[..i], key, cs, g);
      LabelledOne(BarsOf(keys[..i], cs, g), bar, target);
      result := result + [Candle(bar, target)];
      i := i + 1;
    }
    TakeAll(keys);
  }

  lemma {:induction false} BarsOfOne(ks: seq<int>, k: int, cs: seq<Bar>, g: Buckets)
    requires forall x :: x in ks + [k] ==> x in Keys(cs, g)
    ensures BarsOf(ks + [k], cs, g) == BarsOf(ks, cs, g) + [BarOf(cs, k, g)]
  {
    assert (ks + [k])[..|ks + [k]| - 1] == ks;
  }

  lemma {:induction false} LabelledOne(bars: seq<Bar>, b: Bar, tf: Timeframe)
    ensures Labelled(bars + [b], tf) == Labelled(bars, tf) + [Candle(b, tf)]
  {
    assert (bars + [b])[..|bars + [b]| - 1] == bars;
  }

  lemma {:induction false} BarsLabelled(bars: seq<Bar>, tf: Timeframe)
    ensures Bars(Labelled(bars, tf)) == bars
    ensures bars != [] ==> Labelled(bars, tf) != [] && Labelled(bars, tf)[0].timeframe == tf
  {
    if bars != [] {
      var init, c := bars[..|bars| - 1], Candle(bars[|bars| - 1], tf);
      BarsLabelled(init, tf);
      BarsOneMore(Labelled(init, tf), c);
      assert bars == init + [c.bar];
    }
  }

  lemma {:induction false} BarsOneMore(candles: seq<Candle>, c: Candle)
    ensures Bars(candles + [c]) == Bars(candles) + [c.bar]
  {
    assert (candles + [c])[..|candles + [c]| - 1] == candles;
  }

  lemma {:induction false} GridsCompose(source: Timeframe, middle: Timeframe, target: Timeframe, offsetHours: int)
    requires TargetGrid(source, middle, offsetHours).Ok? && TargetGrid(middle, target, offsetHours).Ok?
    ensures TargetGrid(source, target, offsetHours) == TargetGrid(middle, target, offsetHours)
    ensures var fine := TargetGrid(source, middle, offsetHours).value;
            var coarse := TargetGrid(middle, target, offsetHours).value;
            Nested(fine, coarse)
  {
    ModZeroIsMultiple(TfMinutes(target).value, TfMinutes(middle).value);
  }

  lemma {:induction false} ResampleLabelled(bars: seq<Bar>, tf: Timeframe, target: Timeframe, offsetHours: int)
    requires bars != [] && TargetGrid(tf, target, offsetHours).Ok?
    ensures Resample(Labelled(bars, tf), target, offsetHours)
         == Ok(Labelled(Grouped(bars, TargetGrid(tf, target, offsetHours).value), target))
  {
    BarsLabelled(bars, tf);
  }

  lemma {:induction false} BarsThere(candles: seq<Candle>)
    requires candles != []
    ensures Bars(candles) != []
  {
  }

  /** Going through a middle timeframe changes nothing: M5 to M15 to H1 is M5 to H1. */
  lemma {:induction false} ResampleComposes(candles: seq<Candle>, middle: Timeframe, target: Timeframe, offsetHours: int)
    requires candles != []
    requires TargetGrid(candles[0].timeframe, middle, offsetHours).Ok?
    requires TargetGrid(middle, target, offsetHours).Ok?
    requires InOrder(Bars(candles), TargetGrid(candles[0].timeframe, middle, offsetHours).value)
    ensures Resample(candles, middle, offsetHours).Ok?
    ensures Resample(Resample(candles, middle, offsetHours).value, target, offsetHours)
         == Resample(candles, target, offsetHours)
  {
    hide BucketStart, Nested, Grouped, Labelled, Bars, Streamed, TargetGrid, InOrder;
    var cs, source := Bars(candles), candles[0].timeframe;
    BarsThere(candles);
    var fine := TargetGrid(source, middle, offsetHours).value;
    var coarse := TargetGrid(middle, target, offsetHours).value;
    GridsCompose(source, middle, target, offsetHours);
    StreamedIsGrouped(cs, fine);
    StreamedEnds(cs, fine);
    ResampleLabelled(Grouped(cs, fine), middle, target, offsetHours);
    CandleLaws.GroupedComposes(cs, fine, coarse);
  }

  // --------------------------------------------------------- what the bars are

  lemma {:induction false} BarsIndexed(candles: seq<Candle>)
    ensures Unlabelled(candles, Bars(candles))
  {
    if candles != [] {
      BarsIndexed(candles[..|candles| - 1]);
    }
  }

  lemma {:induction false} LabelledIndexed(bars: seq<Bar>, tf: Timeframe)
    ensures Unlabelled(Labelled(bars, tf), bars) && forall b :: b in Labelled(bars, tf) ==> b.timeframe == tf
  {
    if bars != [] {
      LabelledIndexed(bars[..|bars| - 1], tf);
    }
  }

  lemma {:induction false} SameBars(candles: seq<Candle>, x: seq<Bar>, y: seq<Bar>)
    requires Unlabelled(candles, x) && Unlabelled(candles, y)
    ensures x == y
  {
  }

  lemma {:induction false} GroupedIsResampled(candles: seq<Candle>, g: Buckets, target: Timeframe, offsetHours: int)
    requires g.offset == 60 * offsetHours
    ensures Resampled(candles, Labelled(Grouped(Bars(candles), g), target), target, g.minutes, offsetHours)
  {
    hide Grouped, Bars, Labelled, Unlabelled, BarSpec.Resampled;
    var bars := Grouped(Bars(candles), g);
    BarsIndexed(candles);
    LabelledIndexed(bars, target);
    BarSpec.GroupedIsResampled(Bars(candles), g);
    forall cs, out | Unlabelled(candles, cs) && Unlabelled(Labelled(bars, target), out)
      ensures BarSpec.Resampled(cs, out, g.minutes, 60 * offsetHours)
    {
      SameBars(candles, cs, Bars(candles));
      SameBars(Labelled(bars, target), out, bars);
    }
  }

  lemma {:induction false} GridIs(source: Timeframe, target: Timeframe, offsetHours: int)
    ensures var g, s, t := TargetGrid(source, target, offsetHours), TfMinutes(source), TfMinutes(target);
            g == if s.None? then Err(UnknownSource(source)) else if t.None? then Err(UnknownTarget(target))
                 else if t.value <= s.value then Err(TargetNotLarger)
                 else if t.value % s.value != 0 then Err(TargetNotMultiple) else Ok(Grid(t.value, offsetHours * 60))
  {
  }

  lemma {:induction false} LengthIs(tf: Timeframe)
    ensures TfMinutes(tf).None? <==> tf.Other?
    ensures forall m :: Lasts(tf, m) <==> TfMinutes(tf) == Some(m)
  {
  }

  lemma {:induction false} ResampleSays(candles: seq<Candle>, target: Timeframe, offsetHours: int)
    ensures Answers(candles, target, offsetHours, Resample(candles, target, offsetHours))
  {
    hide Resampled, Grouped, Labelled, Bars, Lasts, TfMinutes, TargetGrid;
    if candles != [] {
      var source := candles[0].timeframe;
      LengthIs(source);
      LengthIs(target);
      GridIs(source, target, offsetHours);
      var grid := TargetGrid(source, target, offsetHours);
      if grid.Ok? {
        GroupedIsResampled(candles, grid.value, target, offsetHours);
      }
    }
  }
}
