/** The bars of the mirror and the bars the agents see: whether reading a higher
  * timeframe from the mirror gives what the live store would have given. */
module MirrorReads {
  import opened Wrappers
  import opened Seqs
  import opened Candles
  import opened CandleLaws
  import opened Tables
  import opened Windows
  import opened ReportingSync
  import ReportingReader
  import opened LateRows

  /** What the mirror read returns from a mirror that has caught up with `history`. */
  function MirrorRead(history: seq<Bar>, limit: nat, anchor: Option<int>, g: Buckets)
    : Result<seq<Bar>, ReportingReader.ReadError>
    requires Increasing(history)
  {
    OneShotOrdered(history, g);
    ReportingReader.Read(OneShot(history, g), limit, anchor)
  }

  /** The bars it looks at, without placeholders. */
  function MirrorBars(history: seq<Bar>, limit: nat, anchor: Option<int>, g: Buckets): seq<Bar>
    requires Increasing(history)
  {
    OneShotOrdered(history, g);
    ReportingReader.DropZeroClose(Newest(UpTo(OneShot(history, g), anchor), limit))
  }

  lemma {:induction false} OneShotOrdered(m5: seq<Bar>, g: Buckets)
    requires Increasing(m5)
    ensures Increasing(OneShot(m5, g))
  {
    OneShotIsClosed(m5, g);
    ClosedIncreasing(m5, g);
  }

  /** No placeholder among the rows: each has a close price. */
  predicate Priced(rows: seq<Bar>) {
    forall c :: c in rows ==> c.close != 0
  }

  predicate Within(part: seq<Bar>, rows: seq<Bar>) {
    forall c :: c in part ==> c in rows
  }

  lemma {:induction false} PricedPart(part: seq<Bar>, rows: seq<Bar>)
    requires Priced(rows) && Within(part, rows)
    ensures Priced(part)
  {
  }

  lemma {:induction false} PricedKept(rows: seq<Bar>)
    requires Priced(rows)
    ensures DropNulls(rows) == rows && ReportingReader.DropZeroClose(rows) == rows
  {
    hide *;
    if rows == [] {
      NothingToDrop();
    } else {
      var init, c := rows[..|rows| - 1], rows[|rows| - 1];
      LastIsPriced(rows);
      PricedKept(init);
      KeepOne(init, c);
    }
  }

  lemma {:induction false} NothingToDrop()
    ensures DropNulls([]) == [] && ReportingReader.DropZeroClose([]) == []
  {
  }

  lemma {:induction false} LastIsPriced(rows: seq<Bar>)
    requires Priced(rows) && rows != []
    ensures rows[|rows| - 1].close != 0 && Priced(rows[..|rows| - 1]) && rows == rows[..|rows| - 1] + [rows[|rows| - 1]]
  {
  }

  lemma {:induction false} KeepOne(rows: seq<Bar>, c: Bar)
    requires c.close != 0
    ensures DropNulls(rows + [c]) == DropNulls(rows) + [c]
    ensures ReportingReader.DropZeroClose(rows + [c]) == ReportingReader.DropZeroClose(rows) + [c]
  {
    hide IsNull;
    PricedIsNoNull(c);
    assert (rows + [c])[..|rows + [c]| - 1] == rows;
  }

  lemma {:induction false} PricedIsNoNull(c: Bar)
    requires c.close != 0
    ensures !IsNull(c)
  {
  }

  /** A bar closes at the close of one of its candles. */
  lemma {:induction false} PricedBars(cs: seq<Bar>, g: Buckets)
    requires Priced(cs)
    ensures Priced(Streamed(cs, g))
  {
    hide BucketStart;
    if cs != [] {
      var init, c := cs[..|cs| - 1], cs[|cs| - 1];
      assert c in cs && forall d :: d in init ==> d in cs;
      PricedBars(init, g);
      PricedJoin(Streamed(init, g), Single(c, g));
    }
  }

  lemma {:induction false} PricedJoin(x: seq<Bar>, b: Bar)
    requires Priced(x) && b.close != 0
    ensures Priced(Join(x, [b]))
  {
    if x != [] {
      assert forall c :: c in x[..|x| - 1] ==> c in x;
    }
  }

  // -------------------------------------------------------------- without anchor

  /** The live read on rows without placeholders: the last bars of the history. */
  lemma {:induction false} LiveBars(history: seq<Bar>, limit: nat, k: nat, g: Buckets)
    requires M5Series(history) && M5Grid(g) && g.minutes == 5 * k && limit > 0
    requires Priced(Newest(history, RowsRead(limit, k)))
    ensures WindowBars(history, limit, k, g) == Tail(Streamed(history, g), limit)
    ensures Priced(Tail(Streamed(history, g), limit))
  {
    hide M5Series, Grouped, Tail, Streamed, M5Grid, Priced, RowsRead, BucketStart, Increasing;
    var n := RowsRead(limit, k);
    var rows := Newest(history, n);
    PricedKept(rows);
    NewestSplit(history, n);
    SeriesIncreasing(history);
    if |history| > n {
      var older := history[..|history| - n];
      SplitSeries(older, rows);
      SeriesIncreasing(rows);
      EnoughRows(limit, k);
      BarsHoldEnough(rows, g, k, limit);
      SuffixExact(older, rows, limit, g);
    }
    SplitSeriesAt(history, n);
    SeriesIncreasing(rows);
    GroupedIsStreamed(history, g);
    GroupedIsStreamed(rows, g);
    PricedBars(rows, g);
    TailPart(Streamed(rows, g), limit);
    PricedPart(Tail(Streamed(rows, g), limit), Streamed(rows, g));
  }

  lemma {:induction false} EnoughRows(limit: nat, k: nat)
    ensures limit * k + k <= RowsRead(limit, k)
  {
  }

  lemma {:induction false} SplitSeriesAt(history: seq<Bar>, n: nat)
    requires M5Series(history)
    ensures M5Series(Newest(history, n))
  {
    NewestSplit(history, n);
  }

  lemma {:induction false} TailPart(s: seq<Bar>, n: nat)
    ensures Within(Tail(s, n), s)
  {
  }

  lemma {:induction false} NewestIsTail(s: seq<Bar>, n: nat)
    requires n > 0
    ensures Newest(s, n) == Tail(s, n)
  {
  }

  lemma {:induction false} TailWithoutLast(s: seq<Bar>, n: nat)
    requires n > 0 && s != []
    ensures Tail(s, n + 1) != []
    ensures Tail(s[..|s| - 1], n) == Tail(s, n + 1)[..|Tail(s, n + 1)| - 1]
    ensures Within(Tail(s[..|s| - 1], n), Tail(s, n + 1))
  {
  }

  lemma {:induction false} PricedNewest(history: seq<Bar>, m: nat, n: nat)
    requires Priced(Newest(history, n)) && m <= n
    ensures Priced(Newest(history, m))
  {
    NewestSplit(history, m);
    NewestSplit(history, n);
    forall c | c in Newest(history, m) ensures c in Newest(history, n) {
      var i :| 0 <= i < |Newest(history, m)| && Newest(history, m)[i] == c;
      var d := |Newest(history, n)| - |Newest(history, m)|;
      assert Newest(history, n)[i + d] == c;
    }
  }

  lemma {:induction false} RowsGrow(limit: nat, k: nat)
    ensures RowsRead(limit, k) <= RowsRead(limit + 1, k)
  {
    assert (limit + 1) * k == limit * k + k;
  }

  lemma {:induction false} MirrorReadGives(history: seq<Bar>, limit: nat, anchor: Option<int>, g: Buckets)
    requires Increasing(history) && Increasing(OneShot(history, g))
    ensures var looked := UpTo(OneShot(history, g), anchor);
            MirrorRead(history, limit, anchor, g) ==
            if limit == 0 || looked == [] then Err(ReportingReader.NothingAtOrBefore)
            else Ok(MirrorBars(history, limit, anchor, g))
  {
    hide OneShot, ReportingReader.DropZeroClose, UpTo, Increasing;
  }

  lemma {:induction false} ShortHistory(history: seq<Bar>, g: Buckets)
    requires Increasing(history) && |history| < 2
    ensures OneShot(history, g) == [] && Increasing(OneShot(history, g))
    ensures forall anchor :: UpTo(OneShot(history, g), anchor) == []
  {
    OneShotIsClosed(history, g);
  }

  /** A mirrored bar is the bar the agents see: where the rows read hold no
    * placeholder, the mirror read returns what the live read on a zero offset
    * returns without the bar that is still filling, and raises where that leaves
    * nothing. So the two return the same if and only if M5 has reached the end of
    * the newest bar (of at least two candles). */
  lemma {:induction false} MirrorIsLiveIff(history: seq<Bar>, limit: nat, k: nat, g: Buckets)
    requires M5Series(history) && Increasing(history) && M5Grid(g) && g.minutes == 5 * k
    requires Priced(Newest(history, RowsRead(limit + 1, k)))
    ensures var read, live := MirrorRead(history, limit, None, g), WindowBars(history, limit, k, g);
            var longer := WindowBars(history, limit + 1, k, g);
            var complete := |history| >= 2 && Closed(history, g) == Streamed(history, g);
            var shown :=
              if limit == 0 || |history| < 2 || longer == [] then []
              else if complete then live else longer[..|longer| - 1];
            && read == (if shown == [] then Err(ReportingReader.NothingAtOrBefore) else Ok(shown))
            && (read == Ok(live) <==> limit > 0 && complete)
  {
    hide *;
    if |history| < 2 {
      ShortHistory(history, g);
      MirrorReadGives(history, limit, None, g);
    } else {
      OneShotOrdered(history, g);
      MirrorReadGives(history, limit, None, g);
      if limit > 0 {
        MirrorBarsAreLive(history, limit, k, g);
        LookedAtAll(history, g);
        BarsThere(history, g);
      }
    }
  }

  lemma {:induction false} LookedAtAll(history: seq<Bar>, g: Buckets)
    requires Increasing(history) && |history| >= 2 && Increasing(OneShot(history, g))
    ensures UpTo(OneShot(history, g), None) == OneShot(history, g) == Closed(history, g)
  {
    OneShotIsClosed(history, g);
  }

  lemma {:induction false} MirrorBarsAreLive(history: seq<Bar>, limit: nat, k: nat, g: Buckets)
    requires M5Series(history) && Increasing(history) && |history| >= 2 && limit > 0
    requires M5Grid(g) && g.minutes == 5 * k
    requires Priced(Newest(history, RowsRead(limit + 1, k)))
    ensures var mirror, live, longer := MirrorBars(history, limit, None, g), WindowBars(history, limit, k, g),
                                        WindowBars(history, limit + 1, k, g);
            && longer != []
            && mirror == (if Closed(history, g) == Streamed(history, g) then live else longer[..|longer| - 1])
            && (mirror == live <==> Closed(history, g) == Streamed(history, g))
            && (mirror == [] <==> Closed(history, g) == [])
  {
    hide M5Series, Tail, Streamed, M5Grid, Priced, RowsRead, BucketStart, Increasing, WindowBars;
    var bars, closed := Streamed(history, g), Closed(history, g);
    RowsGrow(limit, k);
    PricedNewest(history, RowsRead(limit, k), RowsRead(limit + 1, k));
    LiveBars(history, limit, k, g);
    LiveBars(history, limit + 1, k, g);
    OneShotIsClosed(history, g);
    NewestIsTail(closed, limit);
    StreamedEnds(history, g);
    TailWithoutLast(bars, limit);
    if closed == bars {
      PricedKept(Tail(bars, limit));
    } else {
      PricedPart(Tail(closed, limit), Tail(bars, limit + 1));
      PricedKept(Tail(closed, limit));
      IncreasingInOrder(history, g);
      TailsDiffer(bars, limit);
    }
  }

  lemma {:induction false} TailsDiffer(s: seq<Bar>, n: nat)
    requires n > 0 && s != [] && Increasing(s)
    ensures Tail(s[..|s| - 1], n) != Tail(s, n)
  {
    var t, u := Tail(s[..|s| - 1], n), Tail(s, n);
    assert u[|u| - 1] == s[|s| - 1];
    if t != [] {
      assert t[|t| - 1] == s[|s| - 2];
    }
  }

  // ----------------------------------------------------------------- with anchor

  /** The candles up to the anchor, those after it in the bar it falls into, and the rest. */
  lemma {:induction false} AroundAnchor(history: seq<Bar>, a: int, g: Buckets) returns (n: nat, m: nat)
    requires Increasing(history)
    ensures n == CountUpTo(history, a) <= m <= |history| && UpTo(history, Some(a)) == history[..n]
    ensures forall i :: 0 <= i < n ==> history[i].ts <= a
    ensures forall i :: n <= i < |history| ==> a < history[i].ts
    ensures var next := BucketStart(a, g) + g.minutes;
            && (forall i :: 0 <= i < m ==> history[i].ts < next)
            && (forall i :: m <= i < |history| ==> next <= history[i].ts)
            && (n == m <==> n == |history| || next <= history[n].ts)
  {
    hide BucketStart;
    NextAligned(a, g);
    n := CountUpTo(history, a);
    m := CountUpTo(history, BucketStart(a, g) + g.minutes - 1);
    assert n > 0 ==> history[n - 1].ts <= a;
    assert m < |history| ==> BucketStart(a, g) + g.minutes <= history[m].ts;
    assert m > 0 ==> history[m - 1].ts < BucketStart(a, g) + g.minutes;
    assert n < m ==> history[n].ts <= history[m - 1].ts;
  }

  /** The bars that began by the anchor are those of the candles before the end of
    * the bar the anchor falls into, once M5 has reached that end. */
  lemma {:induction false} BarsBegun(history: seq<Bar>, m: nat, a: int, g: Buckets)
    requires Increasing(history) && |history| >= 2 && m <= |history|
    requires var next := BucketStart(a, g) + g.minutes;
             && (forall i :: 0 <= i < m ==> history[i].ts < next)
             && (forall i :: m <= i < |history| ==> next <= history[i].ts)
             && next <= history[|history| - 1].ts + 5
    requires Increasing(OneShot(history, g))
    ensures UpTo(OneShot(history, g), Some(a)) == Streamed(history[..m], g)
  {
    hide *;
    var next := BucketStart(a, g) + g.minutes;
    var x, y := history[..m], history[m..];
    var later := if y == [] then [] else Closed(y, g);
    NextAligned(a, g);
    SplitAt(history, m);
    SplitIncreasing(history, m);
    CutBefore(history, m, next);
    OneShotIsClosed(history, g);
    ClosedParts(x, y, next, g);
    BarsBefore(x, next, g);
    BarsFrom(y, next, g);
    CountBegun(Streamed(x, g), later, a, next, g);
  }

  lemma {:induction false} CutBefore(history: seq<Bar>, m: nat, next: int)
    requires history != [] && m <= |history| && next <= history[|history| - 1].ts + 5
    requires (forall i :: 0 <= i < m ==> history[i].ts < next) && (forall i :: m <= i < |history| ==> next <= history[i].ts)
    ensures var x, y := history[..m], history[m..];
            && (x != [] ==> x[|x| - 1].ts < next) && (y != [] ==> next <= y[0].ts)
            && (y == [] ==> x != [] && next <= x[|x| - 1].ts + 5)
  {
  }

  lemma {:induction false} ClosedParts(x: seq<Bar>, y: seq<Bar>, next: int, g: Buckets)
    requires Increasing(x) && Increasing(y) && Aligned(next, g)
    requires (x != [] ==> x[|x| - 1].ts < next) && (y != [] ==> next <= y[0].ts)
    requires y == [] ==> x != [] && next <= x[|x| - 1].ts + 5
    ensures Closed(x + y, g) == Streamed(x, g) + if y == [] then [] else Closed(y, g)
  {
    hide *;
    if y == [] {
      assert x + y == x && Streamed(x, g) + [] == Streamed(x, g);
      AllClosed(x, next, g);
    } else {
      ClosedCut(x, y, next, g);
    }
  }

  lemma {:induction false} NextAligned(a: int, g: Buckets)
    ensures Aligned(BucketStart(a, g) + g.minutes, g) && BucketStart(a, g) <= a < BucketStart(a, g) + g.minutes
  {
    hide BucketStart;
    BucketStartAligned(a, g);
    NextBucket(BucketStart(a, g), g);
  }

  lemma {:induction false} AllClosed(cs: seq<Bar>, next: int, g: Buckets)
    requires cs != [] && cs[|cs| - 1].ts < next <= cs[|cs| - 1].ts + 5 && Aligned(next, g)
    ensures Closed(cs, g) == Streamed(cs, g)
  {
    hide BucketStart, Streamed;
    StreamedEnds(cs, g);
    BoundarySeparates(next, cs[|cs| - 1].ts, g);
  }

  lemma {:induction false} BarsBefore(cs: seq<Bar>, next: int, g: Buckets)
    requires Increasing(cs) && Aligned(next, g) && (cs != [] ==> cs[|cs| - 1].ts < next)
    ensures Streamed(cs, g) != [] ==> Streamed(cs, g)[|Streamed(cs, g)| - 1].ts + g.minutes <= next
  {
    hide BucketStart;
    if cs != [] {
      StreamedEnds(cs, g);
      BoundarySeparates(next, cs[|cs| - 1].ts, g);
    }
  }

  lemma {:induction false} BarsFrom(cs: seq<Bar>, next: int, g: Buckets)
    requires Increasing(cs) && Aligned(next, g) && (cs != [] ==> next <= cs[0].ts)
    ensures Closed(cs, g) != [] ==> next <= Closed(cs, g)[0].ts
  {
    hide BucketStart;
    if cs != [] {
      StreamedEnds(cs, g);
      BoundarySeparates(next, cs[0].ts, g);
    }
  }

  lemma {:induction false} CountBegun(x: seq<Bar>, y: seq<Bar>, a: int, next: int, g: Buckets)
    requires Increasing(x + y) && next - g.minutes <= a < next
    requires (x != [] ==> x[|x| - 1].ts + g.minutes <= next) && (y != [] ==> next <= y[0].ts)
    ensures UpTo(x + y, Some(a)) == x
  {
    var all := x + y;
    assert (x != [] ==> all[|x| - 1] == x[|x| - 1]) && (y != [] ==> all[|x|] == y[0]);
    CountUnique(all, a, |x|);
    DropPrefix(x, y);
  }

  /** More candles in a bar make another bar. */
  lemma {:induction false} BarGrows(known: seq<Bar>, more: seq<Bar>, bucket: int, g: Buckets)
    requires forall c :: c in more ==> c.volume > 0 && BucketStart(c.ts, g) == bucket
    ensures BucketVolume(known + more, g, bucket) >= BucketVolume(known, g, bucket)
    ensures more != [] ==> BucketVolume(known + more, g, bucket) > BucketVolume(known, g, bucket)
  {
    hide BucketStart;
    if more == [] {
      assert known + more == known;
    } else {
      var init, c := more[..|more| - 1], more[|more| - 1];
      assert c in more && forall d :: d in init ==> d in more;
      DropLastConcat(known, more);
      BarGrows(known, init, bucket, g);
      assert known + more == (known + init) + [c];
      BucketVolumeSnoc(known + init, c, g, bucket);
    }
  }

  /** Series that differ in the bar of a bucket, the last one of the longer, are told
    * apart by their newest bars. */
  lemma {:induction false} NewestDiffer(known: seq<Bar>, more: seq<Bar>, limit: nat, bucket: int, g: Buckets)
    requires Increasing(known + more) && Increasing(known) && more != [] && limit > 0
    requires forall c :: c in more ==> c.volume > 0 && BucketStart(c.ts, g) == bucket
    ensures Tail(Streamed(known, g), limit) != Tail(Streamed(known + more, g), limit)
  {
    hide BucketStart, Streamed, Increasing;
    var x, y := Streamed(known, g), Streamed(known + more, g);
    assert more[|more| - 1] in more && (known + more)[|known + more| - 1] == more[|more| - 1];
    StreamedEnds(known + more, g);
    IncreasingInOrder(known, g);
    IncreasingInOrder(known + more, g);
    BarGrows(known, more, bucket, g);
    BarVolume(known, g, bucket);
    BarVolume(known + more, g, bucket);
    LastLookup(y, bucket);
    TailEnds(y, limit);
    TailEnds(x, limit);
    if x != [] {
      LastLookup(x, bucket);
    }
  }

  lemma {:induction false} TailEnds(s: seq<Bar>, n: nat)
    requires n > 0
    ensures s == [] ==> Tail(s, n) == []
    ensures s != [] ==> Tail(s, n) != [] && Tail(s, n)[|Tail(s, n)| - 1] == s[|s| - 1]
  {
  }

  lemma {:induction false} SameBar(a: int, ts: int, g: Buckets)
    requires a < ts < BucketStart(a, g) + g.minutes
    ensures BucketStart(ts, g) == BucketStart(a, g)
  {
    hide BucketStart;
    BucketStartAligned(a, g);
    BucketStartUnique(ts, g, BucketStart(a, g));
  }

  lemma {:induction false} CompleteBarsAgree(history: seq<Bar>, limit: nat, k: nat, g: Buckets, a: int, n: nat)
    requires M5Series(history) && Increasing(history) && |history| >= 2 && limit > 0
    requires M5Grid(g) && g.minutes == 5 * k && n == CountUpTo(history, a)
    requires Priced(history) && forall c :: c in history ==> c.volume > 0
    requires BucketStart(a, g) + g.minutes <= history[|history| - 1].ts + 5
    ensures Increasing(OneShot(history, g))
    ensures UpTo(OneShot(history, g), Some(a)) == [] ==> n == 0
    ensures n > 0 ==> UpTo(OneShot(history, g), Some(a)) != []
    ensures n == 0 && (n == |history| || BucketStart(a, g) + g.minutes <= history[n].ts) ==>
              UpTo(OneShot(history, g), Some(a)) == []
    ensures MirrorBars(history, limit, Some(a), g) == WindowBars(UpTo(history, Some(a)), limit, k, g) <==>
            n == |history| || BucketStart(a, g) + g.minutes <= history[n].ts
  {
    hide *;
    var i, m := AroundAnchor(history, a, g);
    assert i == n;
    var known, begun, more := history[..n], history[..m], history[n..m];
    TakeTwo(history, n, m);
    AnchoredSeries(history, Some(a));
    OneShotOrdered(history, g);
    BarsBegun(history, m, a, g);
    SplitIncreasing(history, m);
    SplitIncreasing(history, n);
    PartsPriced(history, n, m);
    MirrorGives(history, limit, a, begun, g);
    NewestPriced(known, RowsRead(limit, k));
    LiveBars(known, limit, k, g);
    BarsThere(begun, g);
    if n < m {
      MoreInBar(history, n, m, a, g);
      NewestDiffer(known, more, limit, BucketStart(a, g), g);
    }
  }

  lemma {:induction false} BarsThere(cs: seq<Bar>, g: Buckets)
    ensures Streamed(cs, g) == [] <==> cs == []
  {
    hide BucketStart;
    if cs != [] {
      StreamedEnds(cs, g);
    }
  }

  /** While M5 has not reached the end of the anchor's bar, the mirror shows all it has. */
  lemma {:induction false} AllBegun(history: seq<Bar>, a: int, g: Buckets)
    requires Increasing(history) && |history| >= 2 && history[|history| - 1].ts + 5 < EndOf(a, g)
    ensures Increasing(OneShot(history, g))
    ensures UpTo(OneShot(history, g), Some(a)) == Closed(history, g)
  {
    hide *;
    EndOfIs(a, g);
    var next, bars := BucketStart(a, g) + g.minutes, Closed(history, g);
    NextAligned(a, g);
    OneShotOrdered(history, g);
    OneShotIsClosed(history, g);
    BarsBefore(history, next, g);
    ClosedEither(history, g);
    IncreasingInOrder(history, g);
    InitBefore(Streamed(history, g), bars, next - g.minutes);
    CountBegun(bars, [], a, next, g);
    assert bars + [] == bars;
  }

  lemma {:induction false} InitBefore(bars: seq<Bar>, part: seq<Bar>, t: int)
    requires Increasing(bars) && bars != [] && bars[|bars| - 1].ts <= t
    requires part == bars || part == bars[..|bars| - 1]
    ensures Increasing(part) && Increasing(part + []) && (part != [] ==> part[|part| - 1].ts <= t)
  {
    assert part + [] == part;
    if part != [] {
      assert part[|part| - 1].ts <= bars[|bars| - 1].ts;
    }
  }

  /** Candles of one bar make one bar. */
  lemma {:induction false} OneBar(cs: seq<Bar>, bucket: int, g: Buckets)
    requires cs != [] && forall c :: c in cs ==> BucketStart(c.ts, g) == bucket
    ensures |Streamed(cs, g)| == 1
  {
    hide BucketStart;
    if |cs| > 1 {
      var init := cs[..|cs| - 1];
      assert forall c :: c in init ==> c in cs;
      assert init[|init| - 1] in cs && cs[|cs| - 1] in cs;
      OneBar(init, bucket, g);
      StreamedEnds(init, g);
    }
  }

  /** The bar of the newest known candle is complete, and as of `a` it is the newest
    * bar the mirror has: no later candle falls into it, and none into the bar of `a`
    * unless that bar is still filling. */
  predicate SameNewestBar(history: seq<Bar>, a: int, n: nat, g: Buckets)
    requires 0 < n <= |history|
  {
    var last := history[|history| - 1].ts;
    && EndOf(history[n - 1].ts, g) <= last + 5
    && (n < |history| ==>
          EndOf(history[n - 1].ts, g) <= history[n].ts && (EndOf(a, g) <= history[n].ts || last + 5 < EndOf(a, g)))
  }

  lemma {:induction false} CompleteCondition(history: seq<Bar>, a: int, n: nat, g: Buckets)
    requires Increasing(history) && 0 < n <= |history| && history[n - 1].ts <= a
    requires EndOf(a, g) <= history[|history| - 1].ts + 5
    ensures SameNewestBar(history, a, n, g) <==> n == |history| || EndOf(a, g) <= history[n].ts
  {
    hide BucketStart;
    BucketStartMonotone(history[n - 1].ts, a, g);
  }

  /** What the two reads return while the anchor's bar is still filling. */
  lemma {:induction false} FillingReads(history: seq<Bar>, limit: nat, k: nat, g: Buckets, a: int)
    requires M5Series(history) && Increasing(history) && |history| >= 2 && limit > 0
    requires M5Grid(g) && g.minutes == 5 * k && Priced(history)
    requires history[|history| - 1].ts + 5 < EndOf(a, g)
    ensures MirrorRead(history, limit, Some(a), g) ==
            if Closed(history, g) == [] then Err(ReportingReader.NothingAtOrBefore) else Ok(Tail(Closed(history, g), limit))
    ensures WindowBars(UpTo(history, Some(a)), limit, k, g) == Tail(Streamed(UpTo(history, Some(a)), g), limit)
  {
    hide *;
    AllBegun(history, a, g);
    MirrorReadGives(history, limit, Some(a), g);
    MirrorShows(history, limit, a, Closed(history, g), g);
    AnchoredSeries(history, Some(a));
    KnownPriced(history, a);
    NewestPriced(UpTo(history, Some(a)), RowsRead(limit, k));
    LiveBars(UpTo(history, Some(a)), limit, k, g);
  }

  lemma {:induction false} KnownPriced(history: seq<Bar>, a: int)
    requires Increasing(history) && Priced(history)
    ensures Priced(UpTo(history, Some(a)))
  {
  }

  /** All candles are known: the same unless the newest bar is not complete. */
  lemma {:induction false} FillingAllKnown(history: seq<Bar>, limit: nat, g: Buckets, a: int)
    requires Increasing(history) && history != [] && limit > 0
    ensures Closed(history, g) != [] && Tail(Closed(history, g), limit) == Tail(Streamed(history, g), limit) <==>
            SameNewestBar(history, a, |history|, g)
  {
    hide *;
    IncreasingInOrder(history, g);
    BarsThere(history, g);
    TailsDiffer(Streamed(history, g), limit);
    CompleteWhen(history, a, g);
  }

  lemma {:induction false} CompleteWhen(history: seq<Bar>, a: int, g: Buckets)
    requires history != []
    ensures var bars := Streamed(history, g);
            && bars != []
            && (Closed(history, g) == bars <==> SameNewestBar(history, a, |history|, g))
            && (Closed(history, g) != bars ==> Closed(history, g) == bars[..|bars| - 1])
  {
    hide BucketStart, Streamed;
    StreamedEnds(history, g);
  }

  /** With candles after the anchor: the same unless its bar had begun. */
  lemma {:induction false} FillingSomeLater(history: seq<Bar>, limit: nat, g: Buckets, a: int, n: nat)
    requires Increasing(history) && 0 < n < |history| && limit > 0 && history[n - 1].ts <= a < history[n].ts
    requires history[|history| - 1].ts + 5 < EndOf(a, g)
    ensures Closed(history, g) != [] && Tail(Closed(history, g), limit) == Tail(Streamed(history[..n], g), limit) <==>
            SameNewestBar(history, a, n, g)
  {
    hide *;
    var known, more, b := history[..n], history[n..], BucketStart(a, g);
    LaterInBar(history, n, a, g);
    KnownBefore(history, n, a, g);
    BarsThere(known, g);
    if SameNewestBar(history, a, n, g) {
      SplitAt(history, n);
      StreamedCut(known, more, b, g);
      OneBar(more, b, g);
      WithoutLast(Streamed(known, g), Streamed(more, g));
    } else {
      LastBarMissing(history, n, a, g);
      TailEnds(Streamed(known, g), limit);
      TailEnds(Closed(history, g), limit);
    }
  }

  lemma {:induction false} WithoutLast(x: seq<Bar>, y: seq<Bar>)
    requires |y| == 1
    ensures (x + y)[..|x + y| - 1] == x
  {
  }

  lemma {:induction false} LaterInBar(history: seq<Bar>, n: nat, a: int, g: Buckets)
    requires Increasing(history) && n < |history| && a < history[n].ts
    requires history[|history| - 1].ts + 5 < EndOf(a, g)
    ensures forall c :: c in history[n..] ==> BucketStart(c.ts, g) == BucketStart(a, g)
    ensures history[n..] != [] && BucketStart(a, g) <= history[n..][0].ts && Aligned(BucketStart(a, g), g)
    ensures Closed(history, g) == Streamed(history, g)[..|Streamed(history, g)| - 1]
  {
    hide BucketStart, Streamed;
    forall c | c in history[n..] ensures BucketStart(c.ts, g) == BucketStart(a, g) {
      var i :| 0 <= i < |history| - n && history[n..][i] == c;
      assert history[n + i] == c;
      SameBar(a, c.ts, g);
    }
    assert history[n..][|history| - n - 1] == history[|history| - 1];
    BucketStartAligned(a, g);
    StreamedEnds(history, g);
  }

  lemma {:induction false} KnownBefore(history: seq<Bar>, n: nat, a: int, g: Buckets)
    requires Increasing(history) && 0 < n < |history| && history[n - 1].ts <= a < history[n].ts
    requires history[|history| - 1].ts + 5 < EndOf(a, g)
    ensures SameNewestBar(history, a, n, g) <==> history[n - 1].ts < BucketStart(a, g)
    ensures history[..n] != [] && history[..n][|history[..n]| - 1] == history[n - 1]
    ensures !(history[n - 1].ts < BucketStart(a, g)) ==> BucketStart(history[n - 1].ts, g) == BucketStart(a, g)
  {
    hide BucketStart;
    BucketStartAligned(a, g);
    BoundarySeparates(BucketStart(a, g), history[n - 1].ts, g);
    BucketStartMonotone(history[n - 1].ts, a, g);
  }

  /** The last bar of the mirror comes before the bar the live read ends with. */
  lemma {:induction false} LastBarMissing(history: seq<Bar>, n: nat, a: int, g: Buckets)
    requires Increasing(history) && 0 < n < |history|
    requires BucketStart(history[n - 1].ts, g) == BucketStart(a, g)
    requires BucketStart(history[|history| - 1].ts, g) == BucketStart(a, g)
    requires Closed(history, g) == Streamed(history, g)[..|Streamed(history, g)| - 1]
    ensures var x, y := Streamed(history[..n], g), Closed(history, g);
            x != [] && (y != [] ==> x[|x| - 1].ts != y[|y| - 1].ts)
  {
    hide BucketStart, Streamed;
    StreamedEnds(history, g);
    StreamedEnds(history[..n], g);
    IncreasingInOrder(history, g);
  }

  /** Reading as of a moment does not carry over. The mirror gives every complete bar
    * that had begun by the anchor, with all its candles, also those after the anchor;
    * the live read builds the newest bar from the candles up to the anchor, complete
    * or not; and where the mirror has no bar it raises. The two return the same if
    * and only if some candle is known at the anchor and its bar is the newest one on
    * both sides. (Candles have volume and there are no placeholders.) */
  lemma {:induction false} AnchoredReadsAgreeIff(history: seq<Bar>, limit: nat, k: nat, g: Buckets, a: int, n: nat)
    requires M5Series(history) && Increasing(history) && M5Grid(g) && g.minutes == 5 * k
    requires n == CountUpTo(history, a) && Priced(history) && forall c :: c in history ==> c.volume > 0
    ensures MirrorRead(history, limit, Some(a), g) == Ok(WindowBars(UpTo(history, Some(a)), limit, k, g)) <==>
            limit > 0 && |history| >= 2 && n > 0 && SameNewestBar(history, a, n, g)
  {
    hide *;
    KnownCount(history, a, n);
    if |history| < 2 {
      ShortHistory(history, g);
      MirrorReadGives(history, limit, Some(a), g);
    } else if limit == 0 {
      OneShotOrdered(history, g);
      MirrorReadGives(history, limit, Some(a), g);
    } else if EndOf(a, g) <= history[|history| - 1].ts + 5 {
      EndOfIs(a, g);
      CompleteBarsAgree(history, limit, k, g, a, n);
      MirrorReadGives(history, limit, Some(a), g);
      if n > 0 {
        CompleteCondition(history, a, n, g);
      }
    } else {
      FillingReads(history, limit, k, g, a);
      KnownRows(history, a, n);
      if n == |history| {
        FillingAllKnown(history, limit, g, a);
      } else if n > 0 {
        FillingSomeLater(history, limit, g, a, n);
      } else {
        BarsThere([], g);
        TailEnds(Streamed([], g), limit);
        TailEnds(Closed(history, g), limit);
      }
    }
  }

  lemma {:induction false} KnownRows(history: seq<Bar>, a: int, n: nat)
    requires Increasing(history) && n == CountUpTo(history, a)
    ensures UpTo(history, Some(a)) == history[..n] && (n == |history| ==> history[..n] == history)
    ensures n == 0 ==> history[..n] == []
  {
  }

  lemma {:induction false} EndOfIs(ts: int, g: Buckets)
    ensures EndOf(ts, g) == BucketStart(ts, g) + g.minutes
  {
  }

  lemma {:induction false} KnownCount(history: seq<Bar>, a: int, n: nat)
    requires Increasing(history) && n == CountUpTo(history, a)
    ensures n <= |history| && (n > 0 ==> history[n - 1].ts <= a) && (n < |history| ==> a < history[n].ts)
  {
  }

  lemma {:induction false} TakeTwo(s: seq<Bar>, n: nat, m: nat)
    requires n <= m <= |s|
    ensures s[..m] == s[..n] + s[n..m] && (n < m ==> s[n..m] != []) && (n == m ==> s[..n] == s[..m])
  {
  }

  lemma {:induction false} MoreInBar(history: seq<Bar>, n: nat, m: nat, a: int, g: Buckets)
    requires n <= m <= |history| && forall c :: c in history ==> c.volume > 0
    requires forall i :: n <= i < m ==> a < history[i].ts < BucketStart(a, g) + g.minutes
    ensures forall c :: c in history[n..m] ==> c.volume > 0 && BucketStart(c.ts, g) == BucketStart(a, g)
  {
    hide BucketStart;
    forall c | c in history[n..m] ensures c.volume > 0 && BucketStart(c.ts, g) == BucketStart(a, g) {
      var i :| 0 <= i < m - n && history[n..m][i] == c;
      assert history[n + i] == c;
      SameBar(a, c.ts, g);
    }
  }

  lemma {:induction false} PartsPriced(history: seq<Bar>, n: nat, m: nat)
    requires Priced(history) && n <= |history| && m <= |history|
    ensures Priced(history[..n]) && Priced(history[..m])
  {
  }

  lemma {:induction false} NewestPriced(rows: seq<Bar>, n: nat)
    requires Priced(rows)
    ensures Priced(Newest(rows, n))
  {
    NewestSplit(rows, n);
  }

  /** The list the mirror shows, from the bars that had begun. */
  lemma {:induction false} MirrorShows(history: seq<Bar>, limit: nat, a: int, begun: seq<Bar>, g: Buckets)
    requires Increasing(history) && limit > 0 && Priced(history) && Increasing(OneShot(history, g)) && |history| >= 2
    requires UpTo(OneShot(history, g), Some(a)) == begun == Closed(history, g)
    ensures MirrorBars(history, limit, Some(a), g) == Tail(begun, limit)
  {
    hide BucketStart, Streamed, Increasing, Tail, OneShot;
    PricedBars(history, g);
    ClosedEither(history, g);
    NewestIsTail(begun, limit);
    TailPart(begun, limit);
    PricedInit(Streamed(history, g));
    PricedPart(Tail(begun, limit), begun);
    PricedKept(Tail(begun, limit));
  }

  lemma {:induction false} PricedInit(rows: seq<Bar>)
    requires Priced(rows) && rows != []
    ensures Priced(rows[..|rows| - 1])
  {
  }

  lemma {:induction false} MirrorGives(history: seq<Bar>, limit: nat, a: int, begun: seq<Bar>, g: Buckets)
    requires Increasing(history) && limit > 0 && Priced(begun) && Increasing(OneShot(history, g))
    requires UpTo(OneShot(history, g), Some(a)) == Streamed(begun, g)
    ensures MirrorBars(history, limit, Some(a), g) == Tail(Streamed(begun, g), limit)
  {
    hide BucketStart, Streamed, Increasing, Tail, Priced, OneShot;
    PricedBars(begun, g);
    NewestIsTail(Streamed(begun, g), limit);
    TailPart(Streamed(begun, g), limit);
    PricedPart(Tail(Streamed(begun, g), limit), Streamed(begun, g));
    PricedKept(Tail(Streamed(begun, g), limit));
  }
}
