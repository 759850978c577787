/** Reading only the newest rows of a candle table, and dropping placeholders. */
module Windows {
  import opened Wrappers
  import opened Seqs
  import opened Candles
  import opened CandleLaws
  import opened Tables
  import BarSpec

  /** One week of M5 rows, read on top of what is needed to survive null rows. */
  const NULL_FILTER_BUFFER_M5: nat := 7 * 24 * 12

  // ------------------------------------------------------------- null rows

  /** Placeholder for a slot nobody delivered. */
  function NullCandle(ts: int): Bar {
    Bar(ts, 0, 0, 0, 0, 0, 0)
  }

  predicate IsNull(c: Bar) {
    c == NullCandle(c.ts)
  }

  function DropNulls(cs: seq<Bar>): seq<Bar> {
    if cs == [] then []
    else DropNulls(cs[..|cs| - 1]) + if IsNull(cs[|cs| - 1]) then [] else [cs[|cs| - 1]]
  }

  function CountNulls(cs: seq<Bar>): nat {
    if cs == [] then 0
    else CountNulls(cs[..|cs| - 1]) + if IsNull(cs[|cs| - 1]) then 1 else 0
  }

  lemma {:induction false} DropNullsConcat(a: seq<Bar>, b: seq<Bar>)
    ensures DropNulls(a + b) == DropNulls(a) + DropNulls(b)
  {
    if b == [] {
      assert a + b == a;
    } else {
      DropLastConcat(a, b);
      DropNullsConcat(a, b[..|b| - 1]);
    }
  }

  lemma {:induction false} DropNullsCount(cs: seq<Bar>)
    ensures |DropNulls(cs)| + CountNulls(cs) == |cs|
  {
    if cs != [] {
      DropNullsCount(cs[..|cs| - 1]);
    }
  }

  lemma {:induction false} SeriesInit(cs: seq<Bar>)
    requires M5Series(cs) && cs != []
    ensures M5Series(cs[..|cs| - 1]) && cs[|cs| - 1].ts % 5 == 0
    ensures |cs| > 1 ==> cs[|cs| - 2].ts < cs[|cs| - 1].ts
  {
  }

  lemma {:induction false} SeriesAppend(cs: seq<Bar>, c: Bar)
    requires M5Series(cs) && c.ts % 5 == 0 && (cs != [] ==> cs[|cs| - 1].ts < c.ts)
    ensures M5Series(cs + [c])
  {
    IncreasingAppend(cs, c);
  }

  lemma {:induction false} DropNullsSeries(cs: seq<Bar>)
    requires M5Series(cs)
    ensures M5Series(DropNulls(cs))
    ensures DropNulls(cs) != [] ==> cs != [] && DropNulls(cs)[|DropNulls(cs)| - 1].ts <= cs[|cs| - 1].ts
  {
    hide M5Series;
    if cs == [] {
      assert DropNulls(cs) == cs;
    } else {
      var init, c := cs[..|cs| - 1], cs[|cs| - 1];
      SeriesInit(cs);
      DropNullsSeries(init);
      assert DropNulls(init) + [] == DropNulls(init);
      assert init != [] ==> init[|init| - 1] == cs[|cs| - 2];
      if !IsNull(c) {
        SeriesAppend(DropNulls(init), c);
      }
    }
  }

  // ------------------------------------------------- reading the newest rows

  /** The rows up to the anchor, or all of them. */
  function UpTo(t: seq<Bar>, start: Option<int>): seq<Bar>
    requires Increasing(t)
  {
    if start.None? then t else t[..CountUpTo(t, start.value)]
  }

  /** The newest `n` rows, oldest first. */
  function Newest(t: seq<Bar>, n: nat): seq<Bar> {
    if |t| <= n then t else t[|t| - n..]
  }

  /** The tail slice `s[-n:]`: everything when `n` is zero. */
  function Tail(s: seq<Bar>, n: nat): seq<Bar> {
    if n == 0 || |s| <= n then s else s[|s| - n..]
  }

  /** How many M5 rows a read of `limit` bars of `k` slots looks at. */
  function RowsRead(limit: nat, k: nat): nat {
    limit * k + k + NULL_FILTER_BUFFER_M5
  }

  /** The bars a derived read returns, from the rows it looked at. */
  function WindowBars(history: seq<Bar>, limit: nat, k: nat, g: Buckets): seq<Bar> {
    Tail(Grouped(DropNulls(Newest(history, RowsRead(limit, k))), g), limit)
  }

  lemma {:induction false} TailOfConcat(u: seq<Bar>, v: seq<Bar>, n: nat)
    requires 0 < n <= |v|
    ensures Tail(u + v, n) == Tail(v, n)
  {
    assert (u + v)[|u + v| - n..] == v[|v| - n..];
  }

  lemma {:induction false} TailOfJoin(x: seq<Bar>, y: seq<Bar>, n: nat)
    requires 0 < n < |y|
    ensures Tail(Join(x, y), n) == Tail(y, n)
  {
    hide Tail;
    TailOfConcat(x, y, n);
    assert y == [y[0]] + y[1..];
    TailOfConcat([y[0]], y[1..], n);
    if x != [] {
      TailOfConcat(x[..|x| - 1] + [Combine(x[|x| - 1], y[0])], y[1..], n);
    }
  }

  lemma {:induction false} EnoughBars(rows: nat, bars: nat, limit: nat, k: nat)
    requires limit * k + k <= rows <= k * bars && k > 0
    ensures limit < bars
  {
    assert bars <= limit ==> k * bars <= k * limit;
  }

  lemma {:induction false} SplitSeries(a: seq<Bar>, b: seq<Bar>)
    requires M5Series(a + b)
    ensures M5Series(a) && M5Series(b)
  {
    assert a == (a + b)[..|a|] && b == (a + b)[|a|..];
  }

  /** Bars of a suffix with more than `limit` bars: the one bar the cut may have
    * truncated is cut off. */
  lemma {:induction false} SuffixExact(p: seq<Bar>, s: seq<Bar>, limit: nat, g: Buckets)
    requires Increasing(p + s) && Increasing(s) && 0 < limit < |Streamed(s, g)|
    ensures Tail(Grouped(s, g), limit) == Tail(Grouped(p + s, g), limit)
  {
    IncreasingInOrder(p + s, g);
    IncreasingInOrder(s, g);
    StreamedIsGrouped(p + s, g);
    StreamedIsGrouped(s, g);
    StreamedConcat(p, s, g);
    TailOfJoin(Streamed(p, g), Streamed(s, g), limit);
  }

  lemma {:induction false} NewestSplit(history: seq<Bar>, n: nat)
    ensures var k := if |history| <= n then 0 else |history| - n;
            Newest(history, n) == history[k..] && history == history[..k] + history[k..]
  {
    assert history[0..] == history;
  }

  lemma {:induction false} WindowParts(history: seq<Bar>, limit: nat, k: nat)
    requires M5Series(history) && RowsRead(limit, k) < |history|
    requires CountNulls(Newest(history, RowsRead(limit, k))) <= NULL_FILTER_BUFFER_M5
    ensures var older, s := history[..|history| - RowsRead(limit, k)], DropNulls(Newest(history, RowsRead(limit, k)));
            && DropNulls(history) == DropNulls(older) + s
            && M5Series(DropNulls(older) + s) && M5Series(s)
            && limit * k + k <= |s|
  {
    var n := RowsRead(limit, k);
    var older, rows := history[..|history| - n], Newest(history, n);
    hide M5Series, DropNulls, CountNulls;
    NewestSplit(history, n);
    DropNullsConcat(older, rows);
    DropNullsCount(rows);
    DropNullsSeries(history);
    SplitSeries(DropNulls(older), DropNulls(rows));
  }

  /** Reading only the newest rows is exact: the bars are the last `limit` bars
    * of the whole non-null history, as long as at most the buffer's worth of
    * the rows read are null. */
  lemma {:induction false} WindowExact(history: seq<Bar>, limit: nat, k: nat, g: Buckets)
    requires M5Series(history) && M5Grid(g) && g.minutes == 5 * k && limit > 0
    requires CountNulls(Newest(history, RowsRead(limit, k))) <= NULL_FILTER_BUFFER_M5
    ensures WindowBars(history, limit, k, g) == Tail(Grouped(DropNulls(history), g), limit)
  {
    hide M5Series, DropNulls, CountNulls, Grouped, Tail, M5Grid, RowsRead;
    if |history| > RowsRead(limit, k) {
      var older, s := history[..|history| - RowsRead(limit, k)], DropNulls(Newest(history, RowsRead(limit, k)));
      WindowParts(history, limit, k);
      BarsHoldEnough(s, g, k, limit);
      SeriesIncreasing(s);
      SeriesIncreasing(DropNulls(older) + s);
      SuffixExact(DropNulls(older), s, limit, g);
    }
  }

  /** A read of M5 candles: more rows than asked for, placeholders dropped first,
    * then the newest `limit`. */
  function ProductionM5(history: seq<Bar>, limit: nat): seq<Bar> {
    Tail(DropNulls(Newest(history, limit + NULL_FILTER_BUFFER_M5)), limit)
  }

  lemma {:induction false} TailAgrees(x: seq<Bar>, y: seq<Bar>, n: nat)
    requires n > 0
    ensures Tail(x + y, n) == Tail(y, n) <==> x == [] || |y| >= n
  {
    if x == [] {
      assert x + y == y;
    } else if |y| >= n {
      assert (x + y)[|x + y| - n..] == y[|y| - n..];
    } else {
      assert |Tail(x + y, n)| > |y|;
    }
  }

  /** The M5 read is exact if and only if the rows it looks at hold `limit`
    * candles or nothing but placeholders is older; so it is whenever at most the
    * buffer's worth of the rows read are null. */
  lemma {:induction false} M5WindowExactIff(history: seq<Bar>, limit: nat)
    requires limit > 0
    ensures var n := limit + NULL_FILTER_BUFFER_M5;
            var older, rows := history[..if |history| <= n then 0 else |history| - n], Newest(history, n);
            && (ProductionM5(history, limit) == Tail(DropNulls(history), limit) <==>
                |DropNulls(rows)| >= limit || DropNulls(older) == [])
            && (CountNulls(rows) <= NULL_FILTER_BUFFER_M5 ==>
                  ProductionM5(history, limit) == Tail(DropNulls(history), limit))
  {
    hide Tail, CountNulls;
    var n := limit + NULL_FILTER_BUFFER_M5;
    var older, rows := history[..if |history| <= n then 0 else |history| - n], Newest(history, n);
    NewestSplit(history, n);
    DropNullsConcat(older, rows);
    DropNullsCount(rows);
    TailAgrees(DropNulls(older), DropNulls(rows), limit);
    if |history| <= n {
      assert older == [];
    }
  }

  lemma {:induction false} BarsHoldEnough(s: seq<Bar>, g: Buckets, k: nat, limit: nat)
    requires M5Series(s) && M5Grid(g) && g.minutes == 5 * k && limit * k + k <= |s|
    ensures limit < |Streamed(s, g)|
  {
    hide *;
    assert limit * k >= 0;
    BarsHoldCandles(s, g, k);
    EnoughBars(|s|, |Streamed(s, g)|, limit, k);
  }

  // ------------------------------------------ exactly when the window is exact

  lemma {:induction false} VolumesPositive(cs: seq<Bar>, g: Buckets)
    requires forall c :: c in cs ==> c.volume > 0
    ensures forall b :: b in Streamed(cs, g) ==> b.volume > 0
  {
    if cs != [] {
      VolumesPositive(cs[..|cs| - 1], g);
      JoinPositive(Streamed(cs[..|cs| - 1], g), Single(cs[|cs| - 1], g));
    }
  }

  lemma {:induction false} JoinPositive(x: seq<Bar>, b: Bar)
    requires b.volume > 0 && forall c :: c in x ==> c.volume > 0
    ensures forall c :: c in Join(x, [b]) ==> c.volume > 0
  {
    if x != [] {
      assert x[|x| - 1] in x && forall c :: c in x[..|x| - 1] ==> c in x;
    }
  }

  lemma {:induction false} TailOfJoinIff(x: seq<Bar>, y: seq<Bar>, n: nat)
    requires x != [] && n > 0 && x[|x| - 1].volume > 0
    ensures Tail(Join(x, y), n) == Tail(y, n) <==>
            n < |y| || (n == |y| && x[|x| - 1].ts != y[0].ts)
  {
    var z := Join(x, y);
    if y == [] {
      assert z == x;
    } else if x[|x| - 1].ts == y[0].ts {
      assert z[|x| - 1].volume > y[0].volume;
      assert |z| == |x| - 1 + |y|;
      if n == |y| {
        assert Tail(z, n)[0] == z[|x| - 1];
      }
    } else if n == |y| {
      assert Tail(z, n) == y;
    }
  }

  /** Whatever was dropped before the window, the bars are exact if and only if
    * nothing was dropped, or the rows kept make more than `limit` bars, or they
    * make exactly `limit` and the cut fell on a bar boundary. (Candles that were
    * cut off have ticks in them.) */
  lemma {:induction false} WindowExactIff(p: seq<Bar>, s: seq<Bar>, limit: nat, g: Buckets)
    requires Increasing(p + s) && Increasing(s) && limit > 0
    requires forall c :: c in p ==> c.volume > 0
    ensures Tail(Grouped(s, g), limit) == Tail(Grouped(p + s, g), limit) <==>
            || p == []
            || limit < |Grouped(s, g)|
            || (s != [] && limit == |Grouped(s, g)| && BucketStart(p[|p| - 1].ts, g) != BucketStart(s[0].ts, g))
  {
    IncreasingInOrder(p + s, g);
    IncreasingInOrder(s, g);
    StreamedIsGrouped(p + s, g);
    StreamedIsGrouped(s, g);
    if p == [] {
      assert p + s == s;
    } else {
      var x, y := Streamed(p, g), Streamed(s, g);
      StreamedConcat(p, s, g);
      StreamedEnds(p, g);
      VolumesPositive(p, g);
      assert x[|x| - 1] in x;
      if s != [] {
        StreamedEnds(s, g);
      }
      TailOfJoinIff(x, y, limit);
    }
  }

  lemma {:induction false} AnchoredSeries(rows: seq<Bar>, start: Option<int>)
    requires M5Series(rows)
    ensures M5Series(UpTo(rows, start))
  {
    if start.Some? {
      var n := CountUpTo(rows, start.value);
      assert rows == rows[..n] + rows[n..];
      SplitSeries(rows[..n], rows[n..]);
    }
  }

  // ------------------------------------------- what a read returns, row by row

  /** The row is no placeholder: it has a price, a spread or a tick. */
  predicate HasTrade(c: Bar) {
    c.open != 0 || c.high != 0 || c.low != 0 || c.close != 0 || c.spread != 0 || c.volume != 0
  }

  /** `rows[lo..hi]` are the newest `n` rows at or before `start`. */
  ghost predicate NewestRows(rows: seq<Bar>, start: Option<int>, n: nat, lo: nat, hi: nat) {
    && lo <= hi <= |rows| && (hi - lo == n || (lo == 0 && hi < n))
    && forall i :: 0 <= i < |rows| ==> (i < hi <==> start.None? || rows[i].ts <= start.value)
  }

  /** `r` is the last `n` of `all`, and everything when `n` is zero or there are fewer. */
  ghost predicate LastOf(all: seq<Bar>, n: nat, r: seq<Bar>) {
    && |r| == (if n == 0 || |all| <= n then |all| else n)
    && r == all[|all| - |r|..]
  }

  /** A read of M5 candles: the last `limit` candles among the newest `limit + 2016` rows. */
  ghost predicate CandlesRead(rows: seq<Bar>, start: Option<int>, limit: nat, r: seq<Bar>) {
    exists lo: nat, hi: nat, kept: seq<Bar> ::
      NewestRows(rows, start, limit + 2016, lo, hi) && Keeps(HasTrade, rows[lo..hi], kept) && LastOf(kept, limit, r)
  }

  /** A read of bars of `k` slots: the last `limit` bars the candles among the newest
    * `limit * k + k + 2016` rows make. */
  ghost predicate BarsRead(rows: seq<Bar>, start: Option<int>, limit: nat, k: nat, offset: int, r: seq<Bar>) {
    exists lo: nat, hi: nat, kept: seq<Bar>, bars: seq<Bar> ::
      && NewestRows(rows, start, limit * k + k + 2016, lo, hi) && Keeps(HasTrade, rows[lo..hi], kept)
      && BarSpec.Resampled(kept, bars, 5 * k, offset) && LastOf(bars, limit, r)
  }

  lemma {:induction false} NewestAre(rows: seq<Bar>, start: Option<int>, n: nat) returns (lo: nat, hi: nat)
    requires Increasing(rows)
    ensures NewestRows(rows, start, n, lo, hi) && Newest(UpTo(rows, start), n) == rows[lo..hi]
  {
    hi := if start.None? then |rows| else CountUpTo(rows, start.value);
    lo := if hi <= n then 0 else hi - n;
    assert rows[..|rows|] == rows;
    assert rows[..hi][lo..] == rows[lo..hi] && rows[0..hi] == rows[..hi];
  }

  lemma {:induction false} DropNullsKeeps(rows: seq<Bar>)
    ensures Keeps(HasTrade, rows, DropNulls(rows))
  {
    hide Keeps;
    if rows == [] {
      KeepsNone(HasTrade);
    } else {
      var init, c := rows[..|rows| - 1], rows[|rows| - 1];
      DropNullsKeeps(init);
      KeepsNext(HasTrade, init, DropNulls(init), c);
      assert init + [c] == rows && DropNulls(init) + [] == DropNulls(init);
    }
  }

  lemma {:induction false} TailIsLast(all: seq<Bar>, n: nat)
    ensures LastOf(all, n, Tail(all, n))
  {
  }

  lemma {:induction false} ReadsCandles(rows: seq<Bar>, start: Option<int>, limit: nat)
    requires Increasing(rows)
    ensures CandlesRead(rows, start, limit, ProductionM5(UpTo(rows, start), limit))
  {
    hide Newest, UpTo, DropNulls, Tail, LastOf, Keeps, NewestRows, Increasing;
    var lo, hi := NewestAre(rows, start, limit + NULL_FILTER_BUFFER_M5);
    NewestInside(rows, start, limit + NULL_FILTER_BUFFER_M5, lo, hi);
    DropNullsKeeps(rows[lo..hi]);
    TailIsLast(DropNulls(rows[lo..hi]), limit);
  }

  lemma {:induction false} NewestInside(rows: seq<Bar>, start: Option<int>, n: nat, lo: nat, hi: nat)
    requires NewestRows(rows, start, n, lo, hi)
    ensures lo <= hi <= |rows|
  {
  }

  lemma {:induction false} ReadsBars(rows: seq<Bar>, start: Option<int>, limit: nat, k: nat, g: Buckets)
    requires Increasing(rows) && g.minutes == 5 * k
    ensures BarsRead(rows, start, limit, k, g.offset, WindowBars(UpTo(rows, start), limit, k, g))
  {
    hide Newest, UpTo, DropNulls, Tail, LastOf, Keeps, NewestRows, Increasing, Grouped, BarSpec.Resampled;
    var lo, hi := NewestAre(rows, start, RowsRead(limit, k));
    NewestInside(rows, start, RowsRead(limit, k), lo, hi);
    DropNullsKeeps(rows[lo..hi]);
    var kept := DropNulls(rows[lo..hi]);
    BarSpec.GroupedIsResampled(kept, g);
    TailIsLast(Grouped(kept, g), limit);
  }
}
