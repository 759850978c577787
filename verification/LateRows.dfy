/** Rows that production writes behind the mirror's back: a repaired gap, or a
  * candle that replaces a placeholder. When the mirror takes them up, and which
  * derived bars never do. */
module LateRows {
  import opened Wrappers
  import opened Seqs
  import opened Candles
  import opened CandleLaws
  import opened Tables
  import opened ReportingSync

  // ------------------------------------------------------- passes over the M5 table

  /** The M5 table after `n` passes over the same production rows. */
  function Passes(t: Table, prod: seq<Bar>, n: nat): Table
    requires Increasing(prod)
  {
    if n == 0 then t else M5Pass(Passes(t, prod, n - 1), prod)
  }

  /** How far `n` passes get. */
  function Reached(t: Table, prod: seq<Bar>, n: nat): nat
    requires Increasing(prod)
  {
    if Synced(t, prod) + n * BATCH <= |prod| then Synced(t, prod) + n * BATCH else |prod|
  }

  lemma {:induction false} OnePass(t: Table, prod: seq<Bar>)
    requires Increasing(prod)
    ensures Synced(t, prod) <= NextSynced(t, prod) <= |prod|
    ensures M5Pass(t, prod).rows == UpsertAll(t.rows, prod[Synced(t, prod)..NextSynced(t, prod)])
    ensures Synced(M5Pass(t, prod), prod) == NextSynced(t, prod)
  {
    var i, j := Synced(t, prod), NextSynced(t, prod);
    BatchIsSlice(t, prod);
    if i < j {
      CountUnique(prod, prod[j - 1].ts, j);
    }
  }

  /** Passes read on from the watermark and write what they read over the table. */
  lemma {:induction false} PassesWrite(t: Table, prod: seq<Bar>, n: nat)
    requires Increasing(prod)
    ensures Synced(t, prod) <= Reached(t, prod, n) <= |prod|
    ensures Synced(Passes(t, prod, n), prod) == Reached(t, prod, n)
    ensures Passes(t, prod, n).rows == UpsertAll(t.rows, prod[Synced(t, prod)..Reached(t, prod, n)])
  {
    hide *;
    OnePass(t, prod);
    PassesStep(t, prod, n);
    var i := Synced(t, prod);
    if n == 0 {
      NothingWritten(t.rows, 0);
      SliceParts(prod, i, i, i);
    } else {
      PassesWrite(t, prod, n - 1);
      OnePass(Passes(t, prod, n - 1), prod);
      ReachedStep(t, Passes(t, prod, n - 1), prod, n);
      var j, k := Reached(t, prod, n - 1), Reached(t, prod, n);
      SliceParts(prod, i, j, k);
      UpsertAllConcat(t.rows, prod[i..j], prod[j..k]);
    }
  }

  lemma {:induction false} PassesStep(t: Table, prod: seq<Bar>, n: nat)
    requires Increasing(prod) && Synced(t, prod) <= |prod|
    ensures n == 0 ==> Passes(t, prod, n) == t && Reached(t, prod, n) == Synced(t, prod)
    ensures n > 0 ==> Passes(t, prod, n) == M5Pass(Passes(t, prod, n - 1), prod)
  {
    hide M5Pass, Increasing, Synced;
  }

  lemma {:induction false} ReachedStep(t: Table, u: Table, prod: seq<Bar>, n: nat)
    requires Increasing(prod) && n > 0 && Synced(t, prod) <= |prod| && Synced(u, prod) == Reached(t, prod, n - 1)
    ensures NextSynced(u, prod) == Reached(t, prod, n)
    ensures Reached(t, prod, n - 1) <= Reached(t, prod, n) <= |prod|
  {
    hide Increasing, Synced;
  }

  lemma {:induction false} SliceParts(s: seq<Bar>, i: nat, j: nat, k: nat)
    requires i <= j <= k <= |s|
    ensures s[i..i] == [] && s[i..k] == s[i..j] + s[j..k]
  {
  }

  /** Where the whole of production has been read: written rows count, then stored ones. */
  lemma {:induction false} CaughtUpLookup(t: Table, prod: seq<Bar>, n: nat, ts: int)
    requires Increasing(prod) && Increasing(t.rows) && |prod| <= Synced(t, prod) + n * BATCH
    ensures Lookup(Passes(t, prod, n).rows, ts) ==
            if (Watermark(t).Some? ==> Watermark(t).value < ts) && Lookup(prod, ts).Some? then Lookup(prod, ts)
            else Lookup(t.rows, ts)
  {
    hide Passes, UpsertAll, Increasing, Lookup;
    PassesWrite(t, prod, n);
    var i := Synced(t, prod);
    assert prod[i..|prod|] == prod[i..];
    UpsertAllLookup(t.rows, prod[i..], ts);
    if Watermark(t).Some? {
      CutLookup(prod, i, Watermark(t).value, ts);
    } else {
      assert prod[0..] == prod;
    }
  }

  /** What a copy holds, row by row: nothing production does not hold, and all of it
    * up to the watermark. */
  lemma {:induction false} CopyLookup(t: Table, prod: seq<Bar>, ts: int)
    requires Increasing(prod) && Copies(t, prod)
    ensures Increasing(t.rows)
    ensures Lookup(t.rows, ts).Some? ==> Lookup(t.rows, ts) == Lookup(prod, ts)
    ensures Watermark(t).Some? && ts <= Watermark(t).value ==> Lookup(t.rows, ts) == Lookup(prod, ts)
  {
    hide Lookup;
    PrefixTake(t.rows, prod);
    SplitIncreasing(prod, |t.rows|);
    FoundIff(t.rows, prod, ts);
    if Watermark(t).Some? && ts <= Watermark(t).value && Lookup(prod, ts).Some? {
      var c := Lookup(prod, ts).value;
      var i :| 0 <= i < |prod| && prod[i] == c;
      assert i < Synced(t, prod);
      assert t.rows[i] == c;
    }
  }

  /** Exactly when the mirror takes a row up that production writes afterwards,
    * wherever it belongs: once production has been read again, mirror and production
    * are equal if and only if the row lies beyond the watermark, or there is no
    * watermark, or the mirror held the row already. */
  lemma {:induction false} TakenUpIff(t: Table, prod: seq<Bar>, r: Bar, n: nat)
    requires Increasing(prod) && Copies(t, prod) && Increasing(Upsert(prod, r))
    requires |Upsert(prod, r)| <= Synced(t, Upsert(prod, r)) + n * BATCH
    ensures Passes(t, Upsert(prod, r), n).rows == Upsert(prod, r) <==>
            Watermark(t).None? || Watermark(t).value < r.ts || r in t.rows
  {
    hide Passes, Lookup, Increasing, Copies, Upsert, Synced;
    var after := Passes(t, Upsert(prod, r), n).rows;
    CopyLookup(t, prod, r.ts);
    UpsertLookup(prod, r, r.ts);
    CaughtUpLookup(t, Upsert(prod, r), n, r.ts);
    if Watermark(t).None? || Watermark(t).value < r.ts || r in t.rows {
      PassesOrdered(t, Upsert(prod, r), n);
      forall ts ensures Lookup(after, ts) == Lookup(Upsert(prod, r), ts) {
        CaughtUpLookup(t, Upsert(prod, r), n, ts);
        CopyLookup(t, prod, ts);
        UpsertLookup(prod, r, ts);
        if r in t.rows {
          StoredRow(t.rows, r);
        }
      }
      SameLookups(after, Upsert(prod, r));
    } else if after == Upsert(prod, r) {
      LookupIn(t.rows, r.ts);
    }
  }

  lemma {:induction false} PassesOrdered(t: Table, prod: seq<Bar>, n: nat)
    requires Increasing(prod) && Increasing(t.rows)
    ensures Increasing(Passes(t, prod, n).rows)
  {
    hide M5Pass, Increasing;
    if n > 0 {
      PassesOrdered(t, prod, n - 1);
      M5PassKeeps(Passes(t, prod, n - 1), prod);
    }
  }

  /** Whatever row production writes next, at, below or above the old watermark, enough
    * passes make the mirror equal to production again. */
  ghost predicate ReadsAllAgain(t: Table, prod: seq<Bar>)
    requires Increasing(prod)
  {
    forall r: Bar, n: nat | Increasing(Upsert(prod, r)) && |Upsert(prod, r)| <= n * BATCH ::
      Passes(t, Upsert(prod, r), n).rows == Upsert(prod, r)
  }

  lemma {:induction false} ForgottenReadsAll(before: Table, t: Table, prod: seq<Bar>)
    requires Increasing(prod) && Copies(before, prod) && t.rows == before.rows && Watermark(t).None?
    ensures ReadsAllAgain(t, prod)
  {
    hide Passes, Increasing, Upsert;
    forall r: Bar, n: nat | Increasing(Upsert(prod, r)) && |Upsert(prod, r)| <= n * BATCH
      ensures Passes(t, Upsert(prod, r), n).rows == Upsert(prod, r)
    {
      TakenUpIff(t, prod, r, n);
    }
  }

  /** A failed pass starts the copy over: after it no late row is missed. */
  lemma {:induction false} FailedPassReadsAll(w: World, w': World)
    requires Increasing(w.prod) && Copies(w.mirror.m5, w.prod) && Next(w, FailedPass, w')
    ensures w'.prod == w.prod && Watermark(w'.mirror.m5) == None && w'.mirror.m5.rows == w.mirror.m5.rows
    ensures ReadsAllAgain(w'.mirror.m5, w'.prod)
  {
    hide Increasing, ReadsAllAgain, Copies;
    ForgottenReadsAll(w.mirror.m5, w'.mirror.m5, w.prod);
  }

  /** A row at or below the watermark makes no difference to a pass. */
  lemma {:induction false} BelowMarkIsNotRead(t: Table, prod: seq<Bar>, r: Bar)
    requires Increasing(prod) && Watermark(t).Some? && r.ts <= Watermark(t).value
    ensures Increasing(Upsert(prod, r)) && M5Pass(t, Upsert(prod, r)) == M5Pass(t, prod)
  {
    hide *;
    var mark := Watermark(t).value;
    UpsertKeeps(prod, r);
    SplitAtMark(prod, r, mark);
    RowsAfterMark(Upsert(prod[..CountUpTo(prod, mark)], r), prod[CountUpTo(prod, mark)..], mark);
    SameBatch(t, prod, Upsert(prod, r));
  }

  lemma {:induction false} SplitAtMark(prod: seq<Bar>, r: Bar, mark: int)
    requires Increasing(prod) && r.ts <= mark
    ensures var k := CountUpTo(prod, mark);
            var first, above := Upsert(prod[..k], r), prod[k..];
            && Upsert(prod, r) == first + above && first != [] && first[|first| - 1].ts <= mark
            && (above != [] ==> mark < above[0].ts) && RowsAfter(prod, Some(mark)) == above
  {
    hide *;
    var k := CountUpTo(prod, mark);
    AroundMark(prod, mark);
    SplitAt(prod, k);
    SplitIncreasing(prod, k);
    UpsertKeeps(prod[..k], r);
    LastIsMax(prod[..k], r, mark);
    UpsertBefore(prod[..k], prod[k..], r);
  }

  lemma {:induction false} AroundMark(prod: seq<Bar>, mark: int)
    requires Increasing(prod)
    ensures var k := CountUpTo(prod, mark);
            && k <= |prod| && RowsAfter(prod, Some(mark)) == prod[k..]
            && (forall c :: c in prod[k..] ==> mark < c.ts) && (forall c :: c in prod[..k] ==> c.ts <= mark)
  {
  }

  lemma {:induction false} LastIsMax(rows: seq<Bar>, r: Bar, mark: int)
    requires r.ts <= mark && forall c :: c in rows ==> c.ts <= mark
    ensures (if rows == [] then r.ts else Max(rows[|rows| - 1].ts, r.ts)) <= mark
  {
  }

  lemma {:induction false} SameBatch(t: Table, prod: seq<Bar>, other: seq<Bar>)
    requires Increasing(prod) && Increasing(other)
    requires RowsAfter(prod, Watermark(t)) == RowsAfter(other, Watermark(t))
    ensures M5Pass(t, prod) == M5Pass(t, other)
  {
  }

  lemma {:induction false} RowsAfterMark(first: seq<Bar>, above: seq<Bar>, mark: int)
    requires Increasing(first + above) && first != [] && first[|first| - 1].ts <= mark
    requires above != [] ==> mark < above[0].ts
    ensures RowsAfter(first + above, Some(mark)) == above
  {
    var all := first + above;
    assert all[|first| - 1] == first[|first| - 1] && (above != [] ==> all[|first|] == above[0]);
    CountUnique(all, mark, |first|);
    DropPrefix(first, above);
  }

  // ---------------------------------------------------------- what bars there are

  lemma {:induction false} ConcatLookup(a: seq<Bar>, b: seq<Bar>, ts: int)
    ensures Lookup(a + b, ts) == if Lookup(b, ts).Some? then Lookup(b, ts) else Lookup(a, ts)
  {
    if b == [] {
      assert a + b == a;
    } else {
      DropLastConcat(a, b);
      ConcatLookup(a, b[..|b| - 1], ts);
    }
  }

  lemma {:induction false} JoinLookup(x: seq<Bar>, b: Bar, ts: int)
    ensures Lookup(Join(x, [b]), ts).Some? <==> Lookup(x, ts).Some? || ts == b.ts
  {
    if x != [] && x[|x| - 1].ts == b.ts {
      var init, c := x[..|x| - 1], Combine(x[|x| - 1], b);
      assert Join(x, [b]) == init + [c];
      assert (init + [c])[..|init + [c]| - 1] == init;
    } else {
      assert (x + [b])[..|x + [b]| - 1] == x;
    }
  }

  /** Some candle of the series falls into the bucket. */
  predicate Touched(cs: seq<Bar>, g: Buckets, bucket: int) {
    exists c :: c in cs && BucketStart(c.ts, g) == bucket
  }

  lemma {:induction false} BarsAreTouched(cs: seq<Bar>, g: Buckets, ts: int)
    ensures Lookup(Streamed(cs, g), ts).Some? <==> Touched(cs, g, ts)
  {
    hide BucketStart, Lookup, Join;
    if cs == [] {
      NothingStored([]);
    } else {
      var init, c := cs[..|cs| - 1], cs[|cs| - 1];
      assert cs == init + [c];
      BarsAreTouched(init, g, ts);
      JoinLookup(Streamed(init, g), Single(c, g), ts);
      if Touched(init, g, ts) {
        var d :| d in init && BucketStart(d.ts, g) == ts;
        assert d in cs;
      }
      if ts == BucketStart(c.ts, g) {
        assert c in cs;
      }
    }
  }

  /** The bars written are those of the touched buckets that the series reaches the
    * end of. */
  lemma {:induction false} ClosedBars(cs: seq<Bar>, g: Buckets, ts: int)
    requires Increasing(cs) && cs != []
    ensures Lookup(Closed(cs, g), ts).Some? <==> Touched(cs, g, ts) && ts + g.minutes <= cs[|cs| - 1].ts + 5
  {
    hide BucketStart, Lookup, Streamed;
    var bars := Streamed(cs, g);
    BarsAreTouched(cs, g, ts);
    IncreasingInOrder(cs, g);
    StreamedEnds(cs, g);
    LastLookup(bars, ts);
    if Touched(cs, g, ts) && ts != bars[|bars| - 1].ts {
      LookupIn(bars, ts);
      BarBefore(cs, g, ts);
    }
  }

  lemma {:induction false} BarBefore(cs: seq<Bar>, g: Buckets, ts: int)
    requires Increasing(cs) && cs != [] && Touched(cs, g, ts) && ts < BucketStart(cs[|cs| - 1].ts, g)
    ensures ts + g.minutes <= cs[|cs| - 1].ts
  {
    hide BucketStart;
    var c :| c in cs && BucketStart(c.ts, g) == ts;
    BucketStartAligned(c.ts, g);
    BucketStartAligned(cs[|cs| - 1].ts, g);
    AlignedSteps(ts, BucketStart(cs[|cs| - 1].ts, g), g);
  }

  /** A row added leaves every bucket touched and the series no shorter. */
  lemma {:induction false} UpsertTouches(cs: seq<Bar>, r: Bar, g: Buckets, bucket: int)
    requires Increasing(cs) && cs != []
    ensures Upsert(cs, r) != [] && cs[|cs| - 1].ts <= Upsert(cs, r)[|Upsert(cs, r)| - 1].ts
    ensures Touched(cs, g, bucket) ==> Touched(Upsert(cs, r), g, bucket)
  {
    hide BucketStart, Upsert, Lookup;
    UpsertKeeps(cs, r);
    if Touched(cs, g, bucket) {
      var c :| c in cs && BucketStart(c.ts, g) == bucket;
      StoredRow(cs, c);
      UpsertLookup(cs, r, c.ts);
      LookupIn(Upsert(cs, r), c.ts);
    }
  }

  // ------------------------------------------------------ late rows and derived bars

  /** A row written among the later rows leaves the earlier ones alone. */
  lemma {:induction false} UpsertBehind(a: seq<Bar>, b: seq<Bar>, r: Bar)
    requires Increasing(a + b) && (a != [] ==> a[|a| - 1].ts < r.ts)
    ensures Upsert(a + b, r) == a + Upsert(b, r)
  {
    if b == [] {
      assert a + b == a;
    } else {
      var init, last := b[..|b| - 1], b[|b| - 1];
      DropLastConcat(a, b);
      SplitIncreasing(a + b, |a + b| - 1);
      if r.ts < last.ts {
        UpsertBehind(a, init, r);
      }
    }
  }

  lemma {:induction false} SeriesWith(m5: seq<Bar>, r: Bar)
    requires M5Series(m5) && r.ts % 5 == 0
    ensures M5Series(Upsert(m5, r))
  {
    UpsertKeeps(m5, r);
    forall i | 0 <= i < |Upsert(m5, r)| ensures Upsert(m5, r)[i].ts % 5 == 0 {
      var c := Upsert(m5, r)[i];
      StoredRow(Upsert(m5, r), c);
      UpsertLookup(m5, r, c.ts);
      if c.ts != r.ts {
        LookupIn(m5, c.ts);
      }
    }
  }

  /** The re-read rows, with what was appended and the late row among them, bring the
    * table up to date. */
  lemma {:induction false} RewriteWith(t: Table, older: seq<Bar>, rows: seq<Bar>, b: seq<Bar>, r: Bar, since: int,
                                       g: Buckets)
    requires Increasing(older + rows) && Increasing(older) && Increasing(rows) && Increasing(rows + b) && rows != []
    requires Aligned(since, g) && since <= rows[0].ts && since <= r.ts && (older != [] ==> older[|older| - 1].ts < since)
    requires t.rows == Closed(older + rows, g) && |Upsert(rows + b, r)| >= 2
    requires var fresher := Upsert(rows + b, r);
             Increasing(fresher) && Increasing(older + fresher) && since <= fresher[0].ts
    ensures WriteBars(t, Upsert(rows + b, r), g).rows == Closed(older + Upsert(rows + b, r), g)
  {
    var fresher := Upsert(rows + b, r);
    var x, y := Closed(rows, g), Closed(fresher, g);
    hide *;
    ClosedCut(older, rows, since, g);
    ClosedCut(older, fresher, since, g);
    ClosedIncreasing(older + rows, g);
    ClosedIncreasing(older + fresher, g);
    WrittenRows(t, fresher, g);
    UpsertAllKeeps(t.rows, y);
    forall ts ensures Lookup(WriteBars(t, fresher, g).rows, ts) == Lookup(Closed(older + fresher, g), ts) {
      ConcatLookup(Streamed(older, g), x, ts);
      ConcatLookup(Streamed(older, g), y, ts);
      ClosedBars(rows, g, ts);
      ClosedBars(fresher, g, ts);
      MoreTouches(rows, b, g, ts);
      UpsertTouches(rows + b, r, g, ts);
      UpsertAllLookup(t.rows, y, ts);
    }
    SameLookups(WriteBars(t, fresher, g).rows, Closed(older + fresher, g));
  }

  lemma {:induction false} MoreTouches(rows: seq<Bar>, b: seq<Bar>, g: Buckets, bucket: int)
    requires Increasing(rows + b) && rows != []
    ensures rows + b != [] && rows[|rows| - 1].ts <= (rows + b)[|rows + b| - 1].ts
    ensures Touched(rows, g, bucket) ==> Touched(rows + b, g, bucket)
  {
    hide BucketStart;
    assert (rows + b)[|rows| - 1] == rows[|rows| - 1];
    if Touched(rows, g, bucket) {
      var c :| c in rows && BucketStart(c.ts, g) == bucket;
      assert c in rows + b;
    }
  }

  lemma {:induction false} WrittenRows(t: Table, rows: seq<Bar>, g: Buckets)
    requires Increasing(rows) && |rows| >= 2
    ensures WriteBars(t, rows, g).rows == UpsertAll(t.rows, Closed(rows, g))
  {
    hide Increasing, Closed;
    WritesClosed(t, rows, g);
  }

  /** What is written behind the re-read part makes no difference to a pass. */
  lemma {:induction false} BehindReread(t: Table, m5: seq<Bar>, r: Bar, g: Buckets)
    requires Increasing(m5) && Increasing(Upsert(m5, r))
    requires Watermark(t).Some? && r.ts < Watermark(t).value - g.minutes
    ensures DerivedPass(t, Upsert(m5, r), g) == DerivedPass(t, m5, g)
  {
    hide *;
    var x := Watermark(t).value - g.minutes - 1;
    SplitAtMark(m5, r, x);
    RowsAfterMark(Upsert(m5[..CountUpTo(m5, x)], r), m5[CountUpTo(m5, x)..], x);
    RereadIsAfter(t, m5, g);
    RereadIsAfter(t, Upsert(m5, r), g);
    RereadIncreasing(t, m5, g);
    RereadIncreasing(t, Upsert(m5, r), g);
    PassWrites(t, m5, g);
    PassWrites(t, Upsert(m5, r), g);
  }

  lemma {:induction false} RereadIsAfter(t: Table, m5: seq<Bar>, g: Buckets)
    requires Increasing(m5) && Watermark(t).Some?
    ensures Reread(t, m5, g) == RowsAfter(m5, Some(Watermark(t).value - g.minutes - 1))
  {
  }

  /** The table holds the bars of `m5`, as the invariant of the mirror says. */
  ghost predicate HoldsBars(t: Table, m5: seq<Bar>, g: Buckets) {
    Increasing(m5) && t.rows == OneShot(m5, g) && Watermark(t) == LastStamp(t.rows)
  }

  lemma {:induction false} RewriteFrom(t: Table, older: seq<Bar>, rows: seq<Bar>, b: seq<Bar>, r: Bar, since: int,
                                       g: Buckets)
    requires Increasing(older + rows) && Increasing(older + (rows + b)) && rows != []
    requires Increasing(Upsert(older + (rows + b), r))
    requires Aligned(since, g) && since <= rows[0].ts && since <= r.ts && (older != [] ==> older[|older| - 1].ts < since)
    requires t.rows == Closed(older + rows, g) && Watermark(t) == Some(since + g.minutes)
    requires |Reread(t, Upsert(older + (rows + b), r), g)| >= 2
    ensures |Upsert(older + (rows + b), r)| >= 2
    ensures DerivedPass(t, Upsert(older + (rows + b), r), g).rows == Closed(Upsert(older + (rows + b), r), g)
  {
    hide *;
    var more := rows + b;
    var after := Upsert(older + more, r);
    BothIncreasing(older, rows);
    BothIncreasing(older, more);
    FirstOfMore(rows, b);
    UpsertBehind(older, more, r);
    UpsertKeeps(more, r);
    FirstOf(more, r, since);
    RereadFrom(t, older, Upsert(more, r), since, g);
    RewriteWith(t, older, rows, b, r, since, g);
    PassWrites(t, after, g);
    LongerThan(older, Upsert(more, r));
  }

  lemma {:induction false} FirstOfMore(rows: seq<Bar>, b: seq<Bar>)
    requires rows != []
    ensures rows + b != [] && (rows + b)[0] == rows[0]
  {
  }

  lemma {:induction false} BothIncreasing(a: seq<Bar>, b: seq<Bar>)
    requires Increasing(a + b)
    ensures Increasing(a) && Increasing(b)
  {
    SplitIncreasing(a + b, |a|);
    DropPrefix(a, b);
  }

  lemma {:induction false} RewriteFollows(t: Table, m5: seq<Bar>, b: seq<Bar>, r: Bar, g: Buckets)
    requires M5Series(m5) && M5Series(m5 + b) && M5Grid(g) && HoldsBars(t, m5, g) && Increasing(Upsert(m5 + b, r))
    requires Watermark(t).Some? && Watermark(t).value - g.minutes <= r.ts && |Reread(t, Upsert(m5 + b, r), g)| >= 2
    ensures DerivedPass(t, Upsert(m5 + b, r), g).rows == OneShot(Upsert(m5 + b, r), g)
  {
    hide M5Series, Increasing, OneShot, DerivedPass, Reread, Closed, Upsert, Aligned, M5Grid;
    var since := Watermark(t).value - g.minutes;
    SeriesIncreasing(m5 + b);
    OneShotIsClosed(m5, g);
    OneShotIsClosed(Upsert(m5 + b, r), g);
    var k, j := RereadCoversMark(t, m5, b, g);
    CutAt(m5, b, k);
    RewriteFrom(t, m5[..k], m5[k..], b, r, since, g);
  }

  lemma {:induction false} CutAt(m5: seq<Bar>, b: seq<Bar>, k: nat)
    requires k < |m5|
    ensures m5[..k] + m5[k..] == m5 && m5[..k] + (m5[k..] + b) == m5 + b
    ensures m5[k..] != [] && m5[k..][0] == m5[k] == (m5 + b)[k]
    ensures k > 0 ==> m5[..k][|m5[..k]| - 1] == m5[k - 1] == (m5 + b)[k - 1]
  {
  }

  lemma {:induction false} LongerThan(a: seq<Bar>, b: seq<Bar>)
    ensures |a + b| >= |b|
  {
  }

  lemma {:induction false} FirstOf(rows: seq<Bar>, r: Bar, since: int)
    requires Increasing(rows) && rows != [] && since <= rows[0].ts && since <= r.ts
    ensures Upsert(rows, r) != [] && since <= Upsert(rows, r)[0].ts
  {
    if |rows| > 1 {
      FirstOf(rows[..|rows| - 1], r, since);
    }
  }

  lemma {:induction false} RereadFrom(t: Table, older: seq<Bar>, rows: seq<Bar>, since: int, g: Buckets)
    requires Increasing(older + rows) && Watermark(t) == Some(since + g.minutes)
    requires (older != [] ==> older[|older| - 1].ts < since) && rows != [] && since <= rows[0].ts
    ensures Reread(t, older + rows, g) == rows
  {
    var all := older + rows;
    assert (older != [] ==> all[|older| - 1] == older[|older| - 1]) && all[|older|] == rows[0];
    CountUnique(all, since - 1, |older|);
    DropPrefix(older, rows);
  }

  /** Exactly when a derived table takes up a row written late into the M5 table, at its
    * next pass, whatever was appended by then: the row changes no bar, or nothing was
    * derived yet, or the row lies in the part the pass re-reads, from one bar before
    * the watermark on (and that part is more than the one row a pass skips). */
  lemma {:induction false} BarsFollowIff(t: Table, m5: seq<Bar>, b: seq<Bar>, r: Bar, g: Buckets)
    requires M5Series(m5) && M5Series(m5 + b) && r.ts % 5 == 0 && M5Grid(g) && HoldsBars(t, m5, g)
    requires Increasing(Upsert(m5 + b, r))
    ensures DerivedPass(t, Upsert(m5 + b, r), g).rows == OneShot(Upsert(m5 + b, r), g) <==>
            || OneShot(Upsert(m5 + b, r), g) == OneShot(m5 + b, g)
            || Watermark(t).None?
            || (Watermark(t).value - g.minutes <= r.ts && |Reread(t, Upsert(m5 + b, r), g)| >= 2)
  {
    hide DerivedPass, OneShot, Reread, Upsert, M5Series, Increasing;
    var after := Upsert(m5 + b, r);
    SeriesIncreasing(m5 + b);
    SeriesWith(m5 + b, r);
    RereadIncreasing(t, after, g);
    PassWrites(t, after, g);
    if Watermark(t).None? {
      FirstBars(t, after, g);
    } else if r.ts < Watermark(t).value - g.minutes {
      BehindReread(t, m5 + b, r, g);
      DerivedPassIsOneShot(t, m5, b, g);
    } else if |Reread(t, after, g)| >= 2 {
      RewriteFollows(t, m5, b, r, g);
    } else {
      BarsAreCovered(t, m5, g);
      if b != [] {
        AppendedIsReread(t, m5, b, r, g);
      }
      assert b == [] ==> m5 + b == m5;
    }
  }

  /** With a row appended a pass never re-reads one row only. */
  lemma {:induction false} AppendedIsReread(t: Table, m5: seq<Bar>, b: seq<Bar>, r: Bar, g: Buckets)
    requires Increasing(m5 + b) && Increasing(Upsert(m5 + b, r)) && Covered(t, m5, g) && b != []
    requires Watermark(t).Some?
    ensures |Reread(t, Upsert(m5 + b, r), g)| >= 2
  {
    hide BucketStart, Increasing, Upsert, Reread;
    var after := Upsert(m5 + b, r);
    var c :| c in m5 && BucketStart(c.ts, g) == Watermark(t).value;
    MarkBehindCandle(c.ts, g);
    EarlierThanLast(m5, b, c);
    var x := RowAtStamp(m5 + b, r, c);
    var y := RowAtStamp(m5 + b, r, b[|b| - 1]);
    RereadPart(t, after, g, x);
    RereadPart(t, after, g, y);
    TwoOf(Reread(t, after, g), x, y);
  }

  lemma {:induction false} EarlierThanLast(m5: seq<Bar>, b: seq<Bar>, c: Bar)
    requires Increasing(m5 + b) && c in m5 && b != []
    ensures c in m5 + b && b[|b| - 1] in m5 + b && c.ts < b[|b| - 1].ts
  {
    var i :| 0 <= i < |m5| && m5[i] == c;
    assert (m5 + b)[i] == c && (m5 + b)[|m5 + b| - 1] == b[|b| - 1];
  }

  /** After a row is written there is still a row at every stamp. */
  lemma {:induction false} RowAtStamp(cs: seq<Bar>, r: Bar, c: Bar) returns (d: Bar)
    requires c in cs
    ensures d in Upsert(cs, r) && d.ts == c.ts
  {
    hide Upsert;
    UpsertHolds(cs, r);
    d := if c.ts == r.ts then r else c;
  }

  lemma {:induction false} FirstBars(t: Table, m5: seq<Bar>, g: Buckets)
    requires Increasing(m5) && Watermark(t).None? && LastStamp(t.rows) == None
    ensures DerivedPass(t, m5, g).rows == OneShot(m5, g)
  {
    OneShotIsClosed(m5, g);
    if |m5| >= 2 {
      FirstWrite(t, m5, g);
    }
  }

  // ------------------------------------------------------------ old bars stand

  /** The watermark is a bar whose candles the M5 table has, up to its end. */
  predicate Covered(t: Table, m5: seq<Bar>, g: Buckets) {
    Watermark(t).Some? ==>
      var mark := Watermark(t).value;
      Aligned(mark, g) && Touched(m5, g, mark) && m5 != [] && mark + g.minutes <= m5[|m5| - 1].ts + 5
  }

  lemma {:induction false} RereadPart(t: Table, m5: seq<Bar>, g: Buckets, c: Bar)
    requires Increasing(m5) && m5 != [] && c in m5
    requires Watermark(t).Some? ==> Watermark(t).value - g.minutes <= c.ts
    ensures Increasing(Reread(t, m5, g)) && c in Reread(t, m5, g)
    ensures Reread(t, m5, g)[|Reread(t, m5, g)| - 1] == m5[|m5| - 1]
    ensures forall d :: d in Reread(t, m5, g) ==> d in m5 && (Watermark(t).Some? ==> Watermark(t).value - g.minutes <= d.ts)
  {
    hide *;
    RereadIncreasing(t, m5, g);
    if Watermark(t).Some? {
      var x := Watermark(t).value - g.minutes - 1;
      AroundMark(m5, x);
      RereadIsAfter(t, m5, g);
      TailHolds(m5, CountUpTo(m5, x), x, c);
    } else {
      RereadAll(t, m5, g);
    }
  }

  lemma {:induction false} RereadAll(t: Table, m5: seq<Bar>, g: Buckets)
    requires Increasing(m5) && Watermark(t).None?
    ensures Reread(t, m5, g) == m5
  {
  }

  lemma {:induction false} TailHolds(m5: seq<Bar>, n: nat, x: int, c: Bar)
    requires n <= |m5| && c in m5 && x < c.ts && forall d :: d in m5[..n] ==> d.ts <= x
    ensures c in m5[n..] && m5[n..][|m5[n..]| - 1] == m5[|m5| - 1] && forall d :: d in m5[n..] ==> d in m5
  {
    var i :| 0 <= i < |m5| && m5[i] == c;
    assert m5[n..][i - n] == c;
  }

  lemma {:induction false} BarOnBoundary(cs: seq<Bar>, g: Buckets, bucket: int, since: int)
    requires Touched(cs, g, bucket) && Aligned(since, g) && forall c :: c in cs ==> since <= c.ts
    ensures since <= bucket && Aligned(bucket, g)
  {
    hide BucketStart;
    var c :| c in cs && BucketStart(c.ts, g) == bucket;
    BoundarySeparates(since, c.ts, g);
    BucketStartAligned(c.ts, g);
  }

  lemma {:induction false} BarOnGrid(cs: seq<Bar>, g: Buckets, bucket: int)
    requires Touched(cs, g, bucket)
    ensures Aligned(bucket, g)
  {
    hide BucketStart;
    var c :| c in cs && BucketStart(c.ts, g) == bucket;
    BucketStartAligned(c.ts, g);
  }

  lemma {:induction false} TouchedIn(part: seq<Bar>, cs: seq<Bar>, g: Buckets, bucket: int)
    requires Touched(part, g, bucket) && forall c :: c in part ==> c in cs
    ensures Touched(cs, g, bucket)
  {
    hide BucketStart;
    var c :| c in part && BucketStart(c.ts, g) == bucket;
  }

  /** What a write of closed bars leaves: the watermark covered by the rows read. */
  lemma {:induction false} WriteCovers(t: Table, rows: seq<Bar>, g: Buckets)
    requires Increasing(rows) && |rows| >= 2 && Increasing(t.rows) && Closed(rows, g) != []
    ensures var u := WriteBars(t, rows, g);
            && Increasing(u.rows) && u.rows == UpsertAll(t.rows, Closed(rows, g)) && Covered(u, rows, g)
            && Watermark(u) == Some(Closed(rows, g)[|Closed(rows, g)| - 1].ts)
  {
    var bars := Closed(rows, g);
    hide BucketStart, Increasing, UpsertAll, Closed, Touched;
    WritesClosed(t, rows, g);
    ClosedIncreasing(rows, g);
    UpsertAllKeeps(t.rows, bars);
    NothingStored(bars);
    ClosedBars(rows, g, bars[|bars| - 1].ts);
    BarOnGrid(rows, g, bars[|bars| - 1].ts);
  }

  /** A pass rewrites no bar older than one bar before its watermark, and the
    * watermark does not go back. */
  lemma {:induction false} PassKeepsOldBars(t: Table, m5: seq<Bar>, g: Buckets, ts: int)
    requires Increasing(m5) && Increasing(t.rows) && Covered(t, m5, g)
    ensures var u := DerivedPass(t, m5, g);
            && Increasing(u.rows) && Covered(u, m5, g)
            && (Watermark(t).Some? ==>
                  && Watermark(u).Some? && Watermark(t).value <= Watermark(u).value
                  && (ts < Watermark(t).value - g.minutes ==> Lookup(u.rows, ts) == Lookup(t.rows, ts)))
  {
    hide BucketStart, Increasing, UpsertAll, Closed, Touched, WriteBars, Reread, DerivedPass, Lookup;
    RereadIncreasing(t, m5, g);
    PassWrites(t, m5, g);
    var rows := Reread(t, m5, g);
    if |rows| >= 2 && m5 != [] {
      var bars := Closed(rows, g);
      if Watermark(t).Some? {
        OldPartUntouched(t, m5, g, ts);
      }
      if bars != [] {
        WriteCovers(t, rows, g);
        CoveredByMore(t, WriteBars(t, rows, g), m5, g);
        UpsertAllLookup(t.rows, bars, ts);
      } else {
        WritesClosed(t, rows, g);
      }
    } else {
      NoRowsNoPass(t, m5, g);
    }
  }

  lemma {:induction false} NoRowsNoPass(t: Table, m5: seq<Bar>, g: Buckets)
    requires Increasing(m5) && (m5 == [] || |Reread(t, m5, g)| < 2)
    ensures DerivedPass(t, m5, g) == t
  {
  }

  /** The rows re-read hold the bar at the watermark and nothing behind it. */
  lemma {:induction false} OldPartUntouched(t: Table, m5: seq<Bar>, g: Buckets, ts: int)
    requires Increasing(m5) && Covered(t, m5, g) && Watermark(t).Some?
    ensures var bars, mark := Closed(Reread(t, m5, g), g), Watermark(t).value;
            && bars != [] && mark <= bars[|bars| - 1].ts
            && (ts < mark - g.minutes ==> Lookup(bars, ts) == None)
  {
    hide BucketStart, Increasing, Closed, Reread, Lookup;
    var mark, rows := Watermark(t).value, Reread(t, m5, g);
    var c :| c in m5 && BucketStart(c.ts, g) == mark;
    MarkBehindCandle(c.ts, g);
    RereadPart(t, m5, g, c);
    assert Touched(rows, g, mark);
    ClosedBars(rows, g, mark);
    ClosedBars(rows, g, ts);
    ClosedIncreasing(rows, g);
    NothingStored(Closed(rows, g));
    LastLookup(Closed(rows, g), mark);
    if Touched(rows, g, ts) {
      BarOnBoundary(rows, g, ts, mark - g.minutes);
    }
  }

  lemma {:induction false} MarkBehindCandle(ts: int, g: Buckets)
    ensures BucketStart(ts, g) <= ts && Aligned(BucketStart(ts, g) - g.minutes, g)
  {
    hide BucketStart;
    BucketStartAligned(ts, g);
    NextBucket(BucketStart(ts, g), g);
  }

  lemma {:induction false} CoveredByMore(t: Table, u: Table, m5: seq<Bar>, g: Buckets)
    requires Increasing(m5) && m5 != [] && |Reread(t, m5, g)| >= 2 && Covered(u, Reread(t, m5, g), g)
    ensures Covered(u, m5, g)
  {
    hide BucketStart, Increasing;
    var rows := Reread(t, m5, g);
    RereadIsPart(t, m5, g);
    if Watermark(u).Some? {
      TouchedIn(rows, m5, g, Watermark(u).value);
    }
  }

  lemma {:induction false} RereadIsPart(t: Table, m5: seq<Bar>, g: Buckets)
    requires Increasing(m5) && Reread(t, m5, g) != []
    ensures m5 != [] && Reread(t, m5, g)[|Reread(t, m5, g)| - 1] == m5[|m5| - 1]
    ensures forall d :: d in Reread(t, m5, g) ==> d in m5
  {
  }

  // -------------------------------------------------------------- whole runs

  /** A step of a run in which production may also write rows anywhere. */
  ghost predicate Step(w: World, w': World) {
    || (exists e :: Next(w, e, w'))
    || (exists r :: w' == w.(prod := Upsert(w.prod, r)))
  }

  ghost predicate IsDisturbedRun(ws: seq<World>) {
    && ws != [] && ws[0] == NOTHING
    && forall i :: 0 <= i < |ws| - 1 ==> Step(ws[i], ws[i + 1])
  }

  /** What holds in every such run. */
  ghost predicate Sound(w: World) {
    && WellFormed(w.mirror)
    && Increasing(w.prod)
    && forall k :: k in TIMEFRAMES ==>
         Increasing(w.mirror.derived[k].rows) && Covered(w.mirror.derived[k], w.mirror.m5.rows, TfGrid(k))
  }

  lemma {:induction false} UpsertAllTouches(cs: seq<Bar>, rows: seq<Bar>, g: Buckets, bucket: int)
    requires Increasing(cs) && cs != [] && Touched(cs, g, bucket)
    ensures var after := UpsertAll(cs, rows);
            Increasing(after) && after != [] && cs[|cs| - 1].ts <= after[|after| - 1].ts && Touched(after, g, bucket)
  {
    hide BucketStart, Upsert, Touched, Increasing;
    if rows != [] {
      UpsertAllTouches(cs, rows[..|rows| - 1], g, bucket);
      UpsertTouches(UpsertAll(cs, rows[..|rows| - 1]), rows[|rows| - 1], g, bucket);
      UpsertKeeps(UpsertAll(cs, rows[..|rows| - 1]), rows[|rows| - 1]);
    }
  }

  lemma {:induction false} CoveredAfterCopy(t: Table, m5: Table, prod: seq<Bar>, g: Buckets)
    requires Increasing(prod) && Increasing(m5.rows) && Covered(t, m5.rows, g)
    ensures Increasing(M5Pass(m5, prod).rows) && Covered(t, M5Pass(m5, prod).rows, g)
  {
    hide BucketStart, Increasing, UpsertAll, Touched;
    M5PassKeeps(m5, prod);
    OnePass(m5, prod);
    if Watermark(t).Some? {
      UpsertAllTouches(m5.rows, prod[Synced(m5, prod)..NextSynced(m5, prod)], g, Watermark(t).value);
    }
  }

  /** One step keeps the old bars of one table. */
  lemma {:induction false} StepKeepsOldBars(w: World, w': World, k: int, ts: int)
    requires Sound(w) && Step(w, w') && k in TIMEFRAMES && WellFormed(w'.mirror)
    ensures var t, u := w.mirror.derived[k], w'.mirror.derived[k];
            && Increasing(u.rows) && Covered(u, w'.mirror.m5.rows, TfGrid(k))
            && (Watermark(t).Some? ==>
                  && Watermark(u).Some? && Watermark(t).value <= Watermark(u).value
                  && (ts < Watermark(t).value - k ==> Lookup(u.rows, ts) == Lookup(t.rows, ts)))
  {
    hide BucketStart, Increasing, Covered, M5Pass, DerivedPass, M5Series, Lookup;
    if exists r :: w' == w.(prod := Upsert(w.prod, r)) {
    } else {
      var e :| Next(w, e, w');
      if e.Pass? {
        CoveredAfterCopy(w.mirror.derived[k], w.mirror.m5, w.prod, TfGrid(k));
        PassKeepsOldBars(w.mirror.derived[k], M5Pass(w.mirror.m5, w.prod).rows, TfGrid(k), ts);
      }
    }
  }

  lemma {:induction false} StepKeepsShape(w: World, w': World)
    requires Sound(w) && Step(w, w')
    ensures WellFormed(w'.mirror) && Increasing(w'.prod)
  {
    hide BucketStart, Covered, DerivedPass, UpsertAll, Upsert, M5Pass, Increasing;
    if r :| w' == w.(prod := Upsert(w.prod, r)) {
      UpsertKeeps(w.prod, r);
    } else {
      var e :| Next(w, e, w');
      match e
      case Pass => M5PassKeeps(w.mirror.m5, w.prod);
      case Append(rows) => SeriesOrdered(w.prod + rows);
      case FailedPass =>
    }
  }

  lemma {:induction false} SeriesOrdered(cs: seq<Bar>)
    requires M5Series(cs)
    ensures Increasing(cs)
  {
  }

  lemma {:induction false} StepKeepsSound(w: World, w': World)
    requires Sound(w) && Step(w, w')
    ensures Sound(w')
  {
    hide Step, Covered, Increasing;
    StepKeepsShape(w, w');
    forall k | k in TIMEFRAMES
      ensures Increasing(w'.mirror.derived[k].rows) && Covered(w'.mirror.derived[k], w'.mirror.m5.rows, TfGrid(k))
    {
      StepKeepsOldBars(w, w', k, 0);
    }
  }

  lemma {:induction false} NothingIsSound()
    ensures Sound(NOTHING)
  {
  }

  lemma {:induction false} RunsAreSound(ws: seq<World>, i: nat)
    requires IsDisturbedRun(ws) && i < |ws|
    ensures Sound(ws[i])
  {
    hide Sound, Step;
    if i == 0 {
      NothingIsSound();
    } else {
      RunsAreSound(ws, i - 1);
      assert Step(ws[i - 1], ws[i - 1 + 1]);
      StepKeepsSound(ws[i - 1], ws[i]);
    }
  }

  /** Whatever follows, appended rows, rows written anywhere, passes and failed
    * passes: a derived bar older than one bar before its table's watermark never
    * changes again. */
  lemma {:induction false} OldBarsStand(ws: seq<World>, i: nat, j: nat, k: int, ts: int)
    requires IsDisturbedRun(ws) && i <= j < |ws| && k in TIMEFRAMES
    ensures Sound(ws[i]) && Sound(ws[j])
    ensures var t, u := ws[i].mirror.derived[k], ws[j].mirror.derived[k];
            Watermark(t).Some? ==>
              && Watermark(u).Some? && Watermark(t).value <= Watermark(u).value
              && (ts < Watermark(t).value - k ==> Lookup(u.rows, ts) == Lookup(t.rows, ts))
    decreases j
  {
    hide Step, Covered, Increasing, Lookup;
    RunsAreSound(ws, i);
    RunsAreSound(ws, j);
    if i < j {
      OldBarsStand(ws, i, j - 1, k, ts);
      assert Step(ws[j - 1], ws[j - 1 + 1]);
      StepKeepsOldBars(ws[j - 1], ws[j], k, ts);
    }
  }

  // --------------------------------------------------------- the bar that stays

  function VolumeOf(row: Option<Bar>): int {
    if row.Some? then row.value.volume else 0
  }

  /** The volume of the candles in a bucket. */
  function BucketVolume(cs: seq<Bar>, g: Buckets, bucket: int): int {
    if cs == [] then 0
    else
      BucketVolume(cs[..|cs| - 1], g, bucket) +
      if BucketStart(cs[|cs| - 1].ts, g) == bucket then cs[|cs| - 1].volume else 0
  }

  lemma {:induction false} BucketVolumeSnoc(cs: seq<Bar>, c: Bar, g: Buckets, bucket: int)
    ensures BucketVolume(cs + [c], g, bucket) ==
            BucketVolume(cs, g, bucket) + if BucketStart(c.ts, g) == bucket then c.volume else 0
  {
    assert (cs + [c])[..|cs + [c]| - 1] == cs;
  }

  /** A row written adds its volume to its bucket, less what it replaces. */
  lemma {:induction false} BucketVolumeWith(cs: seq<Bar>, r: Bar, g: Buckets)
    requires Increasing(cs)
    ensures var b := BucketStart(r.ts, g);
            BucketVolume(Upsert(cs, r), g, b) == BucketVolume(cs, g, b) + r.volume - VolumeOf(Lookup(cs, r.ts))
  {
    hide BucketStart;
    var b := BucketStart(r.ts, g);
    if cs == [] {
      assert [] + [r] == [r];
      BucketVolumeSnoc([], r, g, b);
    } else {
      var init, last := cs[..|cs| - 1], cs[|cs| - 1];
      assert cs == init + [last];
      SplitIncreasing(cs, |cs| - 1);
      LastLookup(cs, r.ts);
      BucketVolumeSnoc(init, last, g, b);
      if last.ts < r.ts {
        BucketVolumeSnoc(cs, r, g, b);
      } else if last.ts == r.ts {
        BucketVolumeSnoc(init, r, g, b);
      } else {
        BucketVolumeWith(init, r, g);
        BucketVolumeSnoc(Upsert(init, r), last, g, b);
      }
    }
  }

  lemma {:induction false} JoinVolume(x: seq<Bar>, b: Bar, ts: int)
    requires Increasing(Join(x, [b]))
    ensures VolumeOf(Lookup(Join(x, [b]), ts)) == VolumeOf(Lookup(x, ts)) + if ts == b.ts then b.volume else 0
  {
    hide Increasing;
    if x != [] && x[|x| - 1].ts == b.ts {
      var init, c := x[..|x| - 1], Combine(x[|x| - 1], b);
      assert Join(x, [b]) == init + [c];
      assert (init + [c])[..|init + [c]| - 1] == init;
    } else {
      var z := x + [b];
      assert z[..|z| - 1] == x;
      NotBefore(x, b);
    }
  }

  lemma {:induction false} NotBefore(x: seq<Bar>, b: Bar)
    requires Increasing(x + [b])
    ensures Lookup(x, b.ts) == None
  {
    forall c | c in x ensures c.ts < b.ts {
      var i :| 0 <= i < |x| && x[i] == c;
      assert (x + [b])[i] == c && (x + [b])[|x|] == b;
    }
    if Lookup(x, b.ts).Some? {
      LookupIn(x, b.ts);
    }
  }

  lemma {:induction false} BarVolume(cs: seq<Bar>, g: Buckets, ts: int)
    requires Increasing(cs)
    ensures VolumeOf(Lookup(Streamed(cs, g), ts)) == BucketVolume(cs, g, ts)
  {
    hide BucketStart, Lookup, Join, Increasing;
    if cs == [] {
      NothingStored([]);
    } else {
      var init, c := cs[..|cs| - 1], cs[|cs| - 1];
      SplitIncreasing(cs, |cs| - 1);
      BarVolume(init, g, ts);
      IncreasingInOrder(cs, g);
      JoinVolume(Streamed(init, g), Single(c, g), ts);
    }
  }

  /** Closed bars are the bars, those that are closed. */
  lemma {:induction false} ClosedLookup(cs: seq<Bar>, g: Buckets, ts: int)
    requires Increasing(cs) && cs != [] && ts + g.minutes <= cs[|cs| - 1].ts + 5
    ensures Lookup(Closed(cs, g), ts) == Lookup(Streamed(cs, g), ts)
  {
    hide BucketStart, Lookup, Streamed, Increasing;
    IncreasingInOrder(cs, g);
    StreamedEnds(cs, g);
    LastLookup(Streamed(cs, g), ts);
  }

  /** A late row whose volume differs from what it replaces makes another bar. */
  lemma {:induction false} LateRowMakesAnotherBar(m5: seq<Bar>, r: Bar, g: Buckets)
    requires Increasing(m5) && |m5| >= 2 && Increasing(Upsert(m5, r)) && r.volume != VolumeOf(Lookup(m5, r.ts))
    requires BucketStart(r.ts, g) + g.minutes <= m5[|m5| - 1].ts + 5
    ensures var b := BucketStart(r.ts, g); Lookup(OneShot(Upsert(m5, r), g), b) != Lookup(OneShot(m5, g), b)
  {
    hide BucketStart, Lookup, Streamed, Increasing, OneShot, Upsert, Closed;
    var b, after := BucketStart(r.ts, g), Upsert(m5, r);
    BucketVolumeWith(m5, r, g);
    BarVolume(m5, g, b);
    BarVolume(after, g, b);
    NoShorter(m5, r);
    ClosedLookup(m5, g, b);
    ClosedLookup(after, g, b);
    OneShotIsClosed(m5, g);
    OneShotIsClosed(after, g);
  }

  lemma {:induction false} NoShorter(cs: seq<Bar>, r: Bar)
    requires cs != []
    ensures |Upsert(cs, r)| >= |cs| && Upsert(cs, r)[|Upsert(cs, r)| - 1].ts >= cs[|cs| - 1].ts
  {
    if |cs| > 1 {
      NoShorter(cs[..|cs| - 1], r);
    }
  }

  /** A row of other volume written further back than a pass re-reads: its bar never
    * becomes the bar with the row in it, whatever follows. Forgetting the M5
    * watermark brings the row into the M5 mirror, but not into the bar. */
  lemma {:induction false} BarStaysStale(ws: seq<World>, i: nat, j: nat, k: int, r: Bar)
    requires IsDisturbedRun(ws) && i <= j < |ws| && k in TIMEFRAMES && Increasing(ws[i].mirror.m5.rows)
    requires k in ws[i].mirror.derived && k in ws[j].mirror.derived
    requires HoldsBars(ws[i].mirror.derived[k], ws[i].mirror.m5.rows, TfGrid(k))
    requires var mark := Watermark(ws[i].mirror.derived[k]); mark.Some? && r.ts < mark.value - k
    requires r.volume != VolumeOf(Lookup(ws[i].mirror.m5.rows, r.ts)) && Increasing(Upsert(ws[i].mirror.m5.rows, r))
    ensures var b := BucketStart(r.ts, TfGrid(k));
            Lookup(ws[j].mirror.derived[k].rows, b) != Lookup(OneShot(Upsert(ws[i].mirror.m5.rows, r), TfGrid(k)), b)
  {
    hide BucketStart, Lookup, Increasing, Upsert, Covered, IsDisturbedRun, WellFormed;
    var b, m5, t := BucketStart(r.ts, TfGrid(k)), ws[i].mirror.m5.rows, ws[i].mirror.derived[k];
    OldBarsStand(ws, i, j, k, b);
    CoveredReaches(t, m5, TfGrid(k));
    LateRowMakesAnotherBar(m5, r, TfGrid(k));
  }

  lemma {:induction false} CoveredReaches(t: Table, m5: seq<Bar>, g: Buckets)
    requires Covered(t, m5, g) && Watermark(t).Some? && HoldsBars(t, m5, g)
    ensures |m5| >= 2 && Watermark(t).value + g.minutes <= m5[|m5| - 1].ts + 5
  {
  }

  // ------------------------------------------------------- a candle that comes late

  lemma {:induction false} BarsAreCovered(t: Table, m5: seq<Bar>, g: Buckets)
    requires HoldsBars(t, m5, g)
    ensures Covered(t, m5, g) && (Watermark(t).Some? ==> |m5| >= 2)
  {
    hide BucketStart, Increasing, Closed, Touched, OneShot;
    OneShotIsClosed(m5, g);
    if Watermark(t).Some? {
      var bars := Closed(m5, g);
      NothingStored(bars);
      ClosedBars(m5, g, bars[|bars| - 1].ts);
      BarOnGrid(m5, g, bars[|bars| - 1].ts);
    }
  }

  lemma {:induction false} UpsertHolds(cs: seq<Bar>, r: Bar)
    ensures r in Upsert(cs, r) && forall c :: c in cs && c.ts != r.ts ==> c in Upsert(cs, r)
  {
    if cs != [] {
      var init, last := cs[..|cs| - 1], cs[|cs| - 1];
      assert cs == init + [last];
      UpsertHolds(init, r);
    }
  }

  lemma {:induction false} TwoOf(rows: seq<Bar>, a: Bar, b: Bar)
    requires a in rows && b in rows && a != b
    ensures |rows| >= 2
  {
  }

  /** Re-reading a single row after a late one means that it stands in the bar at
    * the watermark. */
  lemma {:induction false} SingleReread(t: Table, m5: seq<Bar>, r: Bar, g: Buckets)
    requires Increasing(m5) && Increasing(Upsert(m5, r)) && Covered(t, m5, g)
    requires Watermark(t).Some? && Watermark(t).value - g.minutes <= r.ts && |Reread(t, Upsert(m5, r), g)| < 2
    ensures BucketStart(r.ts, g) == Watermark(t).value
  {
    hide BucketStart, Increasing, Upsert, Reread;
    var mark, after := Watermark(t).value, Upsert(m5, r);
    var c :| c in m5 && BucketStart(c.ts, g) == mark;
    MarkBehindCandle(c.ts, g);
    UpsertHolds(m5, r);
    RereadPart(t, after, g, r);
    if c.ts != r.ts {
      RereadPart(t, after, g, c);
      TwoOf(Reread(t, after, g), r, c);
    }
  }

  lemma {:induction false} CoveredLater(t: Table, m5: seq<Bar>, b: seq<Bar>, g: Buckets)
    requires Covered(t, m5, g) && Increasing(m5 + b)
    ensures Covered(t, m5 + b, g)
  {
    hide BucketStart;
    if Watermark(t).Some? {
      MoreTouches(m5, b, g, Watermark(t).value);
    }
  }

  /** For a late candle, one with other volume than what its slot held: the derived
    * table takes it up at its next pass, whatever was appended by then, if and only if
    * nothing was derived yet, or the candle lies no further back than one bar before
    * the watermark and is not all that is read, which it never is once a row has been
    * appended. */
  lemma {:induction false} LateCandleFollowsIff(t: Table, m5: seq<Bar>, b: seq<Bar>, r: Bar, g: Buckets)
    requires M5Series(m5) && M5Series(m5 + b) && r.ts % 5 == 0 && M5Grid(g) && HoldsBars(t, m5, g)
    requires Increasing(Upsert(m5 + b, r)) && Increasing(m5 + b) && r.volume != VolumeOf(Lookup(m5 + b, r.ts))
    ensures DerivedPass(t, Upsert(m5 + b, r), g).rows == OneShot(Upsert(m5 + b, r), g) <==>
            || Watermark(t).None?
            || (Watermark(t).value - g.minutes <= r.ts && |Reread(t, Upsert(m5 + b, r), g)| >= 2)
    ensures Watermark(t).Some? && b != [] ==> |Reread(t, Upsert(m5 + b, r), g)| >= 2
  {
    hide DerivedPass, OneShot, Reread, Upsert, M5Series, Increasing, BucketStart, Lookup, Touched;
    BarsFollowIff(t, m5, b, r, g);
    BarsAreCovered(t, m5, g);
    CoveredLater(t, m5, b, g);
    if Watermark(t).Some? {
      if b != [] {
        AppendedIsReread(t, m5, b, r, g);
      }
      if r.ts < Watermark(t).value - g.minutes {
        LateRowMakesAnotherBar(m5 + b, r, g);
      } else if |Reread(t, Upsert(m5 + b, r), g)| < 2 {
        SingleReread(t, m5 + b, r, g);
        LateRowMakesAnotherBar(m5 + b, r, g);
      }
    }
  }
}
