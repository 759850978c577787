/** Candles, the bucket grid they are aggregated on, and the two definitions of
  * aggregation the project compares: `Grouped`, which collects the candles of
  * every bucket, and `Streamed`, which folds the series once from the left.
  * Timestamps are whole minutes on one fixed offset; prices and volumes are
  * integers. */
module Candles {

  datatype Bar = Bar(ts: int, open: int, high: int, low: int, close: int, volume: int, spread: int)

  /** A bucket grid: boundaries every `minutes`, shifted by `offset`. */
  datatype Grid = Grid(minutes: int, offset: int)
  type Buckets = g: Grid | g.minutes > 0 witness Grid(5, 0)

  // ---------------------------------------------------------------- buckets

  /** The bucket of `ts`: the boundary at or before it, found by stepping from
    * the grid's offset. `BucketStartIsFloor` gives the closed form. */
  function BucketStart(ts: int, g: Buckets): (r: int)
    ensures r <= ts < r + g.minutes
    decreases ts < g.offset, if ts < g.offset then g.offset - ts else ts - g.offset
  {
    if ts < g.offset then BucketStart(ts + g.minutes, g) - g.minutes
    else if ts >= g.offset + g.minutes then BucketStart(ts - g.minutes, g) + g.minutes
    else g.offset
  }

  /** `ts` is itself a boundary. */
  predicate Aligned(ts: int, g: Buckets) {
    BucketStart(ts, g) == ts
  }

  /** Where the bucket of `ts` ends. */
  function EndOf(ts: int, g: Buckets): int {
    BucketStart(ts, g) + g.minutes
  }

  /** Moving by one bucket moves the bucket start by one bucket. */
  lemma {:induction false} NextBucket(ts: int, g: Buckets)
    ensures BucketStart(ts + g.minutes, g) == BucketStart(ts, g) + g.minutes
    ensures BucketStart(ts - g.minutes, g) == BucketStart(ts, g) - g.minutes
  {
  }

  lemma {:induction false} FirstBucket(ts: int, g: Buckets)
    requires g.offset <= ts < g.offset + g.minutes
    ensures BucketStart(ts, g) == g.offset
  {
  }

  lemma {:induction false} AlignedSteps(a: int, b: int, g: Buckets)
    requires Aligned(a, g) && Aligned(b, g) && a < b
    ensures a + g.minutes <= b
    decreases a < g.offset, if a < g.offset then g.offset - a else a - g.offset
  {
    hide BucketStart;
    NextBucket(a, g);
    NextBucket(b, g);
    if a < g.offset {
      AlignedSteps(a + g.minutes, b + g.minutes, g);
    } else if a >= g.offset + g.minutes {
      AlignedSteps(a - g.minutes, b - g.minutes, g);
    } else {
      FirstBucket(a, g);
      if b < g.offset + g.minutes { FirstBucket(b, g); }
    }
  }

  lemma {:induction false} BucketStartAligned(ts: int, g: Buckets)
    ensures Aligned(BucketStart(ts, g), g)
    decreases ts < g.offset, if ts < g.offset then g.offset - ts else ts - g.offset
  {
    hide BucketStart;
    NextBucket(ts, g);
    NextBucket(BucketStart(ts, g), g);
    if ts < g.offset {
      BucketStartAligned(ts + g.minutes, g);
    } else if ts >= g.offset + g.minutes {
      BucketStartAligned(ts - g.minutes, g);
    } else {
      FirstBucket(ts, g);
      FirstBucket(g.offset, g);
    }
  }

  lemma {:induction false} BucketStartUnique(ts: int, g: Buckets, r: int)
    requires r <= ts < r + g.minutes && Aligned(r, g)
    ensures r == BucketStart(ts, g)
  {
    var s := BucketStart(ts, g);
    BucketStartAligned(ts, g);
    if r < s {
      AlignedSteps(r, s, g);
    } else if s < r {
      AlignedSteps(s, r, g);
    }
  }

  lemma {:induction false} MultiplesAligned(q: int, g: Buckets)
    ensures Aligned(q * g.minutes + g.offset, g)
    decreases if q < 0 then -q else q
  {
    hide BucketStart;
    FirstBucket(g.offset, g);
    if q > 0 {
      MultiplesAligned(q - 1, g);
      NextBucket((q - 1) * g.minutes + g.offset, g);
      assert (q - 1) * g.minutes == q * g.minutes - g.minutes;
    } else if q < 0 {
      MultiplesAligned(q + 1, g);
      NextBucket((q + 1) * g.minutes + g.offset, g);
      assert (q + 1) * g.minutes == q * g.minutes + g.minutes;
    }
  }

  /** The floor division the code computes is the bucket start. */
  lemma {:induction false} BucketStartIsFloor(ts: int, g: Buckets)
    ensures BucketStart(ts, g) == (ts - g.offset) / g.minutes * g.minutes + g.offset
  {
    var x := ts - g.offset;
    assert x == x / g.minutes * g.minutes + x % g.minutes;
    MultiplesAligned(x / g.minutes, g);
    BucketStartUnique(ts, g, x / g.minutes * g.minutes + g.offset);
  }

  /** A boundary separates timestamps exactly as it separates their buckets. */
  lemma {:induction false} BoundarySeparates(a: int, ts: int, g: Buckets)
    requires Aligned(a, g)
    ensures a <= ts <==> a <= BucketStart(ts, g)
    ensures ts < a <==> BucketStart(ts, g) + g.minutes <= a
  {
    var s := BucketStart(ts, g);
    BucketStartAligned(ts, g);
    if s < a {
      AlignedSteps(s, a, g);
    }
  }

  lemma {:induction false} BucketStartMonotone(a: int, b: int, g: Buckets)
    requires a <= b
    ensures BucketStart(a, g) <= BucketStart(b, g)
  {
    BucketStartAligned(a, g);
    BoundarySeparates(BucketStart(a, g), b, g);
  }

  /** `m` is a positive multiple of `n`. */
  predicate MultipleOf(m: int, n: int)
    requires n > 0
    decreases m
  {
    m == n || (m > n && MultipleOf(m - n, n))
  }

  lemma {:induction false} ModZeroIsMultiple(m: int, n: int)
    requires n > 0 && m > 0 && m % n == 0
    ensures MultipleOf(m, n)
    decreases m
  {
    if m < n {
      QuotientUnique(m, n, 0, m);
    } else if m > n {
      assert (m - n) % n == m % n by {
        var q := m / n;
        assert m == q * n + m % n;
        assert m - n == (q - 1) * n + m % n;
        QuotientUnique(m - n, n, q - 1, m % n);
      }
      ModZeroIsMultiple(m - n, n);
    }
  }

  lemma {:induction false} QuotientUnique(x: int, n: int, q: int, r: int)
    requires n > 0 && x == q * n + r && 0 <= r < n
    ensures x % n == r
  {
    var d := q - x / n;
    assert x == x / n * n + x % n;
    assert d * n == x % n - r;
    assert d >= 1 ==> d * n >= n;
    assert d <= -1 ==> d * n <= -n;
  }

  /** Every boundary of `coarse` is a boundary of `fine`. */
  predicate Nested(fine: Buckets, coarse: Buckets) {
    fine.offset == coarse.offset && MultipleOf(coarse.minutes, fine.minutes)
  }

  lemma {:induction false} ManyBuckets(ts: int, g: Buckets, n: int)
    requires MultipleOf(n, g.minutes)
    ensures BucketStart(ts + n, g) == BucketStart(ts, g) + n
    ensures BucketStart(ts - n, g) == BucketStart(ts, g) - n
    decreases n
  {
    hide BucketStart;
    NextBucket(ts, g);
    if n > g.minutes {
      ManyBuckets(ts + g.minutes, g, n - g.minutes);
      ManyBuckets(ts - g.minutes, g, n - g.minutes);
    }
  }

  lemma {:induction false} CoarseIsFine(ts: int, fine: Buckets, coarse: Buckets)
    requires Nested(fine, coarse) && Aligned(ts, coarse)
    ensures Aligned(ts, fine)
    decreases ts < coarse.offset, if ts < coarse.offset then coarse.offset - ts else ts - coarse.offset
  {
    NextBucket(ts, coarse);
    ManyBuckets(ts, fine, coarse.minutes);
    if ts < coarse.offset {
      CoarseIsFine(ts + coarse.minutes, fine, coarse);
    } else if ts >= coarse.offset + coarse.minutes {
      CoarseIsFine(ts - coarse.minutes, fine, coarse);
    }
  }

  /** Buckets nest: flooring to the finer grid first changes nothing. */
  lemma {:induction false} BucketsNest(ts: int, fine: Buckets, coarse: Buckets)
    requires Nested(fine, coarse)
    ensures BucketStart(BucketStart(ts, fine), coarse) == BucketStart(ts, coarse)
  {
    var c := BucketStart(ts, coarse);
    BucketStartAligned(ts, coarse);
    CoarseIsFine(c, fine, coarse);
    BoundarySeparates(c, ts, fine);
    BucketStartUnique(BucketStart(ts, fine), coarse, c);
  }

  // ------------------------------------------------- one pass from the left

  function Max(a: int, b: int): int { if a >= b then a else b }
  function Min(a: int, b: int): int { if a <= b then a else b }

  /** `c` as a bar of its own: only the timestamp moves, to the bucket start. */
  function Single(c: Bar, g: Buckets): Bar {
    c.(ts := BucketStart(c.ts, g))
  }

  /** Two consecutive parts of one bar put together. */
  function Combine(a: Bar, b: Bar): Bar {
    Bar(a.ts, a.open, Max(a.high, b.high), Min(a.low, b.low), b.close, a.volume + b.volume, b.spread)
  }

  /** Two bar series laid end to end; a bar cut in two at the seam is healed. */
  function Join(x: seq<Bar>, y: seq<Bar>): seq<Bar> {
    if x != [] && y != [] && x[|x| - 1].ts == y[0].ts then
      x[..|x| - 1] + [Combine(x[|x| - 1], y[0])] + y[1..]
    else
      x + y
  }

  /** The series folded once from the left, the last bar still open. */
  function Streamed(cs: seq<Bar>, g: Buckets): seq<Bar> {
    if cs == [] then []
    else Join(Streamed(cs[..|cs| - 1], g), [Single(cs[|cs| - 1], g)])
  }

  lemma {:induction false} JoinLeft(u: seq<Bar>, v: seq<Bar>, z: seq<Bar>)
    requires v != []
    ensures Join(u + v, z) == u + Join(v, z)
  {
    if z != [] {
      assert (u + v)[..|u + v| - 1] == u + v[..|v| - 1];
    }
  }

  lemma {:induction false} JoinRight(x: seq<Bar>, u: seq<Bar>, v: seq<Bar>)
    requires u != []
    ensures Join(x, u + v) == Join(x, u) + v
  {
    assert (u + v)[1..] == u[1..] + v;
    if x != [] && x[|x| - 1].ts == u[0].ts {
      var head := x[..|x| - 1] + [Combine(x[|x| - 1], u[0])];
      assert head + (u[1..] + v) == head + u[1..] + v;
    } else {
      assert x + (u + v) == x + u + v;
    }
  }

  lemma {:induction false} JoinSingles(l: Bar, y: seq<Bar>, r: Bar)
    requires y != []
    ensures Join(Join([l], y), [r]) == Join([l], Join(y, [r]))
  {
    var p, m := [y[0]], y[1..];
    assert y == p + m;
    if m == [] {
      assert y == p;
      assert Join([l], p) == if l.ts == y[0].ts then [Combine(l, y[0])] else [l, y[0]];
      assert Join(p, [r]) == if y[0].ts == r.ts then [Combine(y[0], r)] else [y[0], r];
    } else {
      JoinRight([l], p, m);
      JoinLeft(Join([l], p), m, [r]);
      JoinLeft(p, m, [r]);
      JoinRight([l], p, Join(m, [r]));
    }
  }

  lemma {:induction false} JoinAssociative(x: seq<Bar>, y: seq<Bar>, z: seq<Bar>)
    ensures Join(Join(x, y), z) == Join(x, Join(y, z))
  {
    if x == [] || y == [] || z == [] {
      assert x + y == if x == [] then y else if y == [] then x else x + y;
      assert y + z == if y == [] then z else if z == [] then y else y + z;
      assert Join(x, y) + [] == Join(x, y) && [] + Join(y, z) == Join(y, z);
    } else {
      var x', l, r, z' := x[..|x| - 1], x[|x| - 1], z[0], z[1..];
      assert x == x' + [l] && z == [r] + z';
      JoinLeft(x', [l], y);
      JoinRight(x' + Join([l], y), [r], z');
      JoinLeft(x', Join([l], y), [r]);
      JoinSingles(l, y, r);
      JoinRight(y, [r], z');
      JoinRight(x, Join(y, [r]), z');
      JoinLeft(x', [l], Join(y, [r]));
    }
  }

  lemma {:induction false} StreamedEnds(cs: seq<Bar>, g: Buckets)
    requires cs != []
    ensures var s := Streamed(cs, g);
            && s != []
            && s[0].ts == BucketStart(cs[0].ts, g)
            && s[|s| - 1].ts == BucketStart(cs[|cs| - 1].ts, g)
  {
    if |cs| > 1 {
      StreamedEnds(cs[..|cs| - 1], g);
    }
  }

  /** Streaming is a homomorphism: a series may be cut anywhere. */
  lemma {:induction false} StreamedConcat(a: seq<Bar>, b: seq<Bar>, g: Buckets)
    ensures Streamed(a + b, g) == Join(Streamed(a, g), Streamed(b, g))
  {
    if b == [] {
      assert a + b == a;
      assert Streamed(a, g) + [] == Streamed(a, g);
    } else {
      var b', c := b[..|b| - 1], b[|b| - 1];
      assert (a + b)[..|a + b| - 1] == a + b';
      StreamedConcat(a, b', g);
      JoinAssociative(Streamed(a, g), Streamed(b', g), [Single(c, g)]);
    }
  }

  // -------------------------------------------------- the reference grouping

  /** No candle falls into an earlier bucket than its predecessors. */
  predicate InOrder(cs: seq<Bar>, g: Buckets) {
    forall i, j :: 0 <= i < j < |cs| ==> BucketStart(cs[i].ts, g) <= BucketStart(cs[j].ts, g)
  }

  predicate Increasing(cs: seq<Bar>) {
    forall i, j :: 0 <= i < j < |cs| ==> cs[i].ts < cs[j].ts
  }

  function Keys(cs: seq<Bar>, g: Buckets): set<int> {
    set c | c in cs :: BucketStart(c.ts, g)
  }

  /** The candles of bucket `key`, in input order. */
  function Group(cs: seq<Bar>, key: int, g: Buckets): seq<Bar> {
    if cs == [] then []
    else Group(cs[..|cs| - 1], key, g) + if BucketStart(cs[|cs| - 1].ts, g) == key then [cs[|cs| - 1]] else []
  }

  function MaxHigh(cs: seq<Bar>): int
    requires cs != []
  {
    if |cs| == 1 then cs[0].high else Max(MaxHigh(cs[..|cs| - 1]), cs[|cs| - 1].high)
  }

  function MinLow(cs: seq<Bar>): int
    requires cs != []
  {
    if |cs| == 1 then cs[0].low else Min(MinLow(cs[..|cs| - 1]), cs[|cs| - 1].low)
  }

  /** Every candle of a group lies inside the range of its bar, and both ends are reached. */
  lemma {:induction false} RangeIsTight(cs: seq<Bar>)
    requires cs != []
    ensures forall c :: c in cs ==> MinLow(cs) <= c.low && c.high <= MaxHigh(cs)
    ensures exists c :: c in cs && c.high == MaxHigh(cs)
    ensures exists c :: c in cs && c.low == MinLow(cs)
  {
    var cs', c := cs[..|cs| - 1], cs[|cs| - 1];
    assert cs == cs' + [c];
    if cs' == [] {
      assert c in cs;
    } else {
      RangeIsTight(cs');
      var hi :| hi in cs' && hi.high == MaxHigh(cs');
      var lo :| lo in cs' && lo.low == MinLow(cs');
      assert hi in cs && lo in cs && c in cs;
    }
  }

  function TotalVolume(cs: seq<Bar>): int {
    if |cs| == 0 then 0 else TotalVolume(cs[..|cs| - 1]) + cs[|cs| - 1].volume
  }

  function Aggregate(key: int, group: seq<Bar>): Bar
    requires group != []
  {
    Bar(key, group[0].open, MaxHigh(group), MinLow(group),
        group[|group| - 1].close, TotalVolume(group), group[|group| - 1].spread)
  }

  lemma {:induction false} MaxExists(s: set<int>)
    requires s != {}
    ensures exists m :: m in s && forall x :: x in s ==> x <= m
  {
    assert (forall a :: a !in s) ==> s == {};
    var a :| a in s;
    if s != {a} {
      MaxExists(s - {a});
      var m :| m in s - {a} && forall x :: x in s - {a} ==> x <= m;
      var r := if a >= m then a else m;
      assert forall x :: x in s ==> x == a || x in s - {a};
      assert r in s && forall x :: x in s ==> x <= r;
    }
  }

  function Greatest(s: set<int>): (m: int)
    requires s != {}
    ensures m in s && forall x :: x in s ==> x <= m
  {
    MaxExists(s);
    var m :| m in s && forall x :: x in s ==> x <= m;
    m
  }

  /** The elements of `s`, smallest first. */
  function Ascending(s: set<int>): (r: seq<int>)
    ensures forall x :: x in r <==> x in s
    ensures forall i, j :: 0 <= i < j < |r| ==> r[i] < r[j]
  {
    if s == {} then [] else Ascending(s - {Greatest(s)}) + [Greatest(s)]
  }

  lemma {:induction false} AscendingExtend(s: set<int>, k: int)
    requires forall x :: x in s ==> x < k
    ensures Ascending(s + {k}) == Ascending(s) + [k]
  {
    assert Greatest(s + {k}) == k;
    assert s + {k} - {k} == s;
  }

  lemma {:induction false} AscendingLast(s: set<int>, k: int)
    requires k in s && forall x :: x in s ==> x <= k
    ensures var ks := Ascending(s); ks != [] && ks[|ks| - 1] == k && k !in ks[..|ks| - 1]
  {
    var ks := Ascending(s);
    assert k in ks && ks[|ks| - 1] in ks;
  }

  lemma {:induction false} GroupNonEmpty(cs: seq<Bar>, key: int, g: Buckets)
    ensures Group(cs, key, g) != [] <==> key in Keys(cs, g)
  {
    if cs != [] {
      var cs', c := cs[..|cs| - 1], cs[|cs| - 1];
      assert cs == cs' + [c];
      GroupNonEmpty(cs', key, g);
    }
  }

  function BarOf(cs: seq<Bar>, key: int, g: Buckets): Bar
    requires key in Keys(cs, g)
  {
    GroupNonEmpty(cs, key, g);
    Aggregate(key, Group(cs, key, g))
  }

  /** One bar per key, in the order of `ks`. */
  function BarsOf(ks: seq<int>, cs: seq<Bar>, g: Buckets): seq<Bar>
    requires forall k :: k in ks ==> k in Keys(cs, g)
  {
    if ks == [] then [] else BarsOf(ks[..|ks| - 1], cs, g) + [BarOf(cs, ks[|ks| - 1], g)]
  }

  /** The reference definition of resampling: a bar per bucket, in bucket order. */
  function Grouped(cs: seq<Bar>, g: Buckets): seq<Bar> {
    BarsOf(Ascending(Keys(cs, g)), cs, g)
  }

  lemma {:induction false} KeysExtend(cs: seq<Bar>, c: Bar, g: Buckets)
    ensures Keys(cs + [c], g) == Keys(cs, g) + {BucketStart(c.ts, g)}
  {
    var k := BucketStart(c.ts, g);
    forall x | x in Keys(cs, g) + {k}
      ensures x in Keys(cs + [c], g)
    {
      if x == k {
        assert c in cs + [c];
      } else {
        var d :| d in cs && BucketStart(d.ts, g) == x;
        assert d in cs + [c];
      }
    }
  }

  lemma {:induction false} GroupExtend(cs: seq<Bar>, c: Bar, key: int, g: Buckets)
    ensures Group(cs + [c], key, g) ==
            if BucketStart(c.ts, g) == key then Group(cs, key, g) + [c] else Group(cs, key, g)
  {
    assert (cs + [c])[..|cs|] == cs;
  }

  lemma {:induction false} AggregateExtend(key: int, group: seq<Bar>, c: Bar, g: Buckets)
    requires group != []
    ensures Aggregate(key, group + [c]) == Combine(Aggregate(key, group), Single(c, g))
  {
    assert (group + [c])[..|group|] == group;
  }

  lemma {:induction false} InOrderLast(cs: seq<Bar>, c: Bar, g: Buckets)
    requires InOrder(cs + [c], g)
    ensures InOrder(cs, g)
    ensures forall k :: k in Keys(cs, g) ==> k <= BucketStart(c.ts, g)
  {
    var all := cs + [c];
    assert forall i :: 0 <= i < |cs| ==> all[i] == cs[i];
    assert all[|cs|] == c;
  }

  /** On candles in bucket order one pass computes the reference grouping. */
  lemma {:induction false} StreamedIsGrouped(cs: seq<Bar>, g: Buckets)
    requires InOrder(cs, g)
    ensures Streamed(cs, g) == Grouped(cs, g)
  {
    if cs == [] {
      assert Keys(cs, g) == {};
    } else {
      var cs', c := cs[..|cs| - 1], cs[|cs| - 1];
      assert cs == cs' + [c];
      InOrderLast(cs', c, g);
      StreamedIsGrouped(cs', g);
      GroupedExtend(cs', c, g);
    }
  }

  lemma {:induction false} BarOfExtend(cs: seq<Bar>, c: Bar, key: int, g: Buckets)
    requires key in Keys(cs + [c], g)
    ensures key != BucketStart(c.ts, g) ==> key in Keys(cs, g) && BarOf(cs + [c], key, g) == BarOf(cs, key, g)
    ensures key == BucketStart(c.ts, g) ==>
              BarOf(cs + [c], key, g) ==
              if key in Keys(cs, g) then Combine(BarOf(cs, key, g), Single(c, g)) else Single(c, g)
  {
    KeysExtend(cs, c, g);
    GroupExtend(cs, c, key, g);
    GroupNonEmpty(cs, key, g);
    if key == BucketStart(c.ts, g) && key in Keys(cs, g) {
      AggregateExtend(key, Group(cs, key, g), c, g);
    } else if key == BucketStart(c.ts, g) {
      assert Group(cs + [c], key, g) == [c];
      AggregateOne(key, c);
    }
  }

  lemma {:induction false} AggregateOne(key: int, c: Bar)
    ensures Aggregate(key, [c]) == c.(ts := key)
  {
    assert [c][..|[c]| - 1] == [];
    assert TotalVolume([c]) == TotalVolume([]) + c.volume;
  }

  lemma {:induction false} BarsOfExtend(ks: seq<int>, cs: seq<Bar>, c: Bar, g: Buckets)
    requires forall k :: k in ks ==> k in Keys(cs, g) && k in Keys(cs + [c], g) && k != BucketStart(c.ts, g)
    ensures BarsOf(ks, cs + [c], g) == BarsOf(ks, cs, g)
  {
    if ks != [] {
      var k := ks[|ks| - 1];
      assert k in ks && forall x :: x in ks[..|ks| - 1] ==> x in ks;
      BarsOfExtend(ks[..|ks| - 1], cs, c, g);
      BarOfExtend(cs, c, k, g);
    }
  }

  /** The new candle falls into the last bucket ... */
  lemma {:induction false} BarsOfMerge(ks: seq<int>, cs: seq<Bar>, c: Bar, g: Buckets)
    requires ks != [] && ks[|ks| - 1] == BucketStart(c.ts, g) && BucketStart(c.ts, g) !in ks[..|ks| - 1]
    requires forall k :: k in ks ==> k in Keys(cs, g)
    requires Keys(cs + [c], g) == Keys(cs, g)
    ensures BarsOf(ks, cs + [c], g) == Join(BarsOf(ks, cs, g), [Single(c, g)])
  {
    var init, k := ks[..|ks| - 1], ks[|ks| - 1];
    assert k in ks && forall x :: x in init ==> x in ks;
    BarsOfExtend(init, cs, c, g);
    BarOfExtend(cs, c, k, g);
    JoinLeft(BarsOf(init, cs, g), [BarOf(cs, k, g)], [Single(c, g)]);
  }

  lemma {:induction false} BarsOfOneMore(ks: seq<int>, k: int, cs: seq<Bar>, g: Buckets)
    requires (forall x :: x in ks ==> x in Keys(cs, g)) && k in Keys(cs, g)
    ensures BarsOf(ks + [k], cs, g) == BarsOf(ks, cs, g) + [BarOf(cs, k, g)]
  {
    hide BucketStart, Keys, BarOf;
    assert (ks + [k])[..|ks + [k]| - 1] == ks;
  }

  lemma {:induction false} BarsOfEnd(ks: seq<int>, cs: seq<Bar>, g: Buckets)
    requires forall x :: x in ks ==> x in Keys(cs, g)
    ensures var bars := BarsOf(ks, cs, g); bars != [] ==> bars[|bars| - 1].ts in ks
  {
    hide BucketStart, Keys, Group, MaxHigh, MinLow, TotalVolume;
  }

  lemma {:induction false} JoinApart(x: seq<Bar>, c: Bar, g: Buckets)
    requires x != [] ==> x[|x| - 1].ts != BucketStart(c.ts, g)
    ensures Join(x, [Single(c, g)]) == x + [Single(c, g)]
  {
    hide BucketStart;
  }

  /** ... or opens a new one. */
  lemma {:induction false} BarsOfAppend(ks: seq<int>, cs: seq<Bar>, c: Bar, g: Buckets)
    requires BucketStart(c.ts, g) !in ks
    requires forall k :: k in ks <==> k in Keys(cs, g)
    requires Keys(cs + [c], g) == Keys(cs, g) + {BucketStart(c.ts, g)}
    ensures BarsOf(ks + [BucketStart(c.ts, g)], cs + [c], g) == Join(BarsOf(ks, cs, g), [Single(c, g)])
  {
    hide *;
    BarsOfExtend(ks, cs, c, g);
    BarOfExtend(cs, c, BucketStart(c.ts, g), g);
    BarsOfOneMore(ks, BucketStart(c.ts, g), cs + [c], g);
    BarsOfEnd(ks, cs, g);
    JoinApart(BarsOf(ks, cs, g), c, g);
  }

  lemma {:induction false} GroupedExtend(cs: seq<Bar>, c: Bar, g: Buckets)
    requires forall k :: k in Keys(cs, g) ==> k <= BucketStart(c.ts, g)
    ensures Grouped(cs + [c], g) == Join(Grouped(cs, g), [Single(c, g)])
  {
    var k, seen := BucketStart(c.ts, g), Keys(cs, g);
    var ks := Ascending(seen);
    KeysExtend(cs, c, g);
    if k in seen {
      assert seen + {k} == seen;
      AscendingLast(seen, k);
      BarsOfMerge(ks, cs, c, g);
    } else {
      AscendingExtend(seen, k);
      BarsOfAppend(ks, cs, c, g);
    }
  }
}
