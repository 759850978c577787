/** The reporting mirror: an incremental copy of the production M5 table and of
  * every higher timeframe derived from it, driven by a watermark per table. */
module ReportingSync {
  import opened Wrappers
  import opened Seqs
  import opened Candles
  import opened CandleLaws
  import opened Tables

  const BATCH: nat := 20_000

  /** A row of `sync_state`. */
  datatype SyncState = SyncState(mark: Option<int>, rows: nat, failed: bool)

  datatype Table = Table(rows: seq<Bar>, state: Option<SyncState>)

  function Watermark(t: Table): Option<int> {
    if t.state.None? then None else t.state.value.mark
  }

  function Written(rows: seq<Bar>, mark: int): Table {
    Table(rows, Some(SyncState(Some(mark), |rows|, false)))
  }

  function LastStamp(rows: seq<Bar>): Option<int> {
    if rows == [] then None else Some(rows[|rows| - 1].ts)
  }

  // ------------------------------------------------------------ one M5 pass

  function Limit(rows: seq<Bar>, n: nat): seq<Bar> {
    if |rows| <= n then rows else rows[..n]
  }

  /** The M5 table after one pass. */
  function M5Pass(t: Table, prod: seq<Bar>): Table
    requires Increasing(prod)
  {
    var rows := Limit(RowsAfter(prod, Watermark(t)), BATCH);
    if rows == [] then t else Written(UpsertAll(t.rows, rows), rows[|rows| - 1].ts)
  }

  // ------------------------------------------------------- one derived pass

  /** The bars without the newest one, unless M5 reaches that bar's end. */
  function DropIncomplete(bars: seq<Bar>, m5: seq<Bar>, minutes: int): seq<Bar>
    requires bars != [] && m5 != []
  {
    if bars[|bars| - 1].ts + minutes > m5[|m5| - 1].ts + 5 then bars[..|bars| - 1] else bars
  }

  lemma {:induction false} GroupedIsStreamed(m5: seq<Bar>, g: Buckets)
    requires Increasing(m5)
    ensures Grouped(m5, g) == Streamed(m5, g)
    ensures m5 != [] ==> Grouped(m5, g) != [] && DropIncomplete(Grouped(m5, g), m5, g.minutes) == Closed(m5, g)
  {
    IncreasingInOrder(m5, g);
    StreamedIsGrouped(m5, g);
    if m5 != [] {
      StreamedEnds(m5, g);
    }
  }

  /** What the mirror of a higher timeframe should hold: the whole M5 table
    * resampled at once, newest bar dropped while incomplete. A single M5 row is
    * never resampled. */
  function OneShot(m5: seq<Bar>, g: Buckets): seq<Bar>
    requires Increasing(m5)
  {
    if |m5| < 2 then []
    else
      GroupedIsStreamed(m5, g);
      DropIncomplete(Grouped(m5, g), m5, g.minutes)
  }

  /** The rows a derived pass re-reads: from one bar before the watermark on. */
  function Reread(t: Table, m5: seq<Bar>, g: Buckets): seq<Bar>
    requires Increasing(m5)
  {
    RowsFrom(m5, if Watermark(t).None? then None else Some(Watermark(t).value - g.minutes))
  }

  /** Resample the re-read rows and write the complete bars. */
  function WriteBars(t: Table, rows: seq<Bar>, g: Buckets): Table
    requires Increasing(rows)
  {
    if |rows| < 2 then t
    else
      GroupedIsStreamed(rows, g);
      var bars := DropIncomplete(Grouped(rows, g), rows, g.minutes);
      if bars == [] then t else Written(UpsertAll(t.rows, bars), bars[|bars| - 1].ts)
  }

  /** The table of one higher timeframe after one pass. */
  function DerivedPass(t: Table, m5: seq<Bar>, g: Buckets): Table
    requires Increasing(m5)
  {
    RereadIncreasing(t, m5, g);
    WriteBars(t, Reread(t, m5, g), g)
  }

  /** The complete bars of the re-read rows; none when there is only one row. */
  function BarsToWrite(t: Table, m5: seq<Bar>, g: Buckets): seq<Bar>
    requires Increasing(m5)
  {
    RereadIncreasing(t, m5, g);
    OneShot(Reread(t, m5, g), g)
  }

  lemma {:induction false} RereadIncreasing(t: Table, m5: seq<Bar>, g: Buckets)
    requires Increasing(m5)
    ensures Increasing(Reread(t, m5, g))
  {
    if Watermark(t).Some? {
      SliceIncreasing(m5, CountUpTo(m5, Watermark(t).value - g.minutes - 1), |m5|);
    }
  }

  // --------------------------------------- the derived pass equals one shot

  /** Every bar has a candle in it, so its timestamp is a bucket boundary. */
  lemma {:induction false} BarHasCandle(cs: seq<Bar>, g: Buckets, i: nat)
    requires i < |Streamed(cs, g)|
    ensures exists j :: 0 <= j < |cs| && BucketStart(cs[j].ts, g) == Streamed(cs, g)[i].ts
  {
    var cs', c := cs[..|cs| - 1], cs[|cs| - 1];
    StreamedEnds(cs, g);
    if i == |Streamed(cs, g)| - 1 {
      assert BucketStart(cs[|cs| - 1].ts, g) == Streamed(cs, g)[i].ts;
    } else {
      assert Streamed(cs, g)[i] == Streamed(cs', g)[i];
      BarHasCandle(cs', g, i);
      var j :| 0 <= j < |cs'| && BucketStart(cs'[j].ts, g) == Streamed(cs', g)[i].ts;
      assert cs'[j] == cs[j];
    }
  }

  /** The mirror row at the watermark and the M5 rows the next pass re-reads. */
  lemma {:induction false} RereadCoversMark(t: Table, a: seq<Bar>, b: seq<Bar>, g: Buckets) returns (k: nat, j: nat)
    requires M5Series(a + b) && M5Series(a)
    requires t.rows == Closed(a, g) && t.rows != [] && Watermark(t) == Some(t.rows[|t.rows| - 1].ts)
    ensures k <= j < |a| && Reread(t, a + b, g) == (a + b)[k..]
    ensures var since := Watermark(t).value - g.minutes;
            Aligned(since, g) && since <= (a + b)[k].ts && (k > 0 ==> (a + b)[k - 1].ts < since)
  {
    hide BucketStart, Streamed;
    var mark := Watermark(t).value;
    BarHasCandle(a, g, |t.rows| - 1);
    j :| 0 <= j < |a| && BucketStart(a[j].ts, g) == mark;
    BucketStartAligned(a[j].ts, g);
    NextBucket(mark, g);
    k := CountUpTo(a + b, mark - g.minutes - 1);
    assert (a + b)[j] == a[j];
  }

  /** The bars before the re-read window are all older than the watermark. */
  lemma {:induction false} OlderBars(p: seq<Bar>, bars: seq<Bar>, g: Buckets, since: int, n: nat)
    requires Aligned(since, g) && (p != [] ==> p[|p| - 1].ts < since)
    requires Increasing(p) && Streamed(p, g) <= bars
    requires 0 < n <= |bars| && since <= bars[n - 1].ts
    ensures |Streamed(p, g)| < n
  {
    var s := Streamed(p, g);
    IncreasingInOrder(p, g);
    if p != [] {
      StreamedEnds(p, g);
      BoundarySeparates(since, p[|p| - 1].ts, g);
    }
    assert forall i :: 0 <= i < |s| ==> s[i].ts <= s[|s| - 1].ts;
  }

  lemma {:induction false} OverlayTail(full: seq<Bar>, n: nat, i: nat)
    requires Increasing(full) && i <= n <= |full|
    ensures UpsertAll(full[..n], full[i..]) == full
  {
    Overlay(full, n, i, |full|);
    assert full[i..|full|] == full[i..];
    TakeAll(full);
  }

  lemma {:induction false} ClosedIncreasing(cs: seq<Bar>, g: Buckets)
    requires Increasing(cs)
    ensures Increasing(Closed(cs, g))
  {
    IncreasingInOrder(cs, g);
  }

  lemma {:induction false} OlderBarsIn(older: seq<Bar>, rows: seq<Bar>, since: int, n: nat, g: Buckets)
    requires Increasing(older) && rows != []
    requires Aligned(since, g) && since <= rows[0].ts && (older != [] ==> older[|older| - 1].ts < since)
    requires 0 < n <= |Closed(older + rows, g)| && since <= Closed(older + rows, g)[n - 1].ts
    ensures |Streamed(older, g)| < n
  {
    hide Increasing, Aligned, Closed;
    ClosedCut(older, rows, since, g);
    OlderBars(older, Closed(older + rows, g), g, since, n);
  }

  lemma {:induction false} WritesClosed(t: Table, rows: seq<Bar>, g: Buckets)
    requires Increasing(rows) && |rows| >= 2
    ensures var bars := Closed(rows, g);
            WriteBars(t, rows, g) == if bars == [] then t else Written(UpsertAll(t.rows, bars), bars[|bars| - 1].ts)
  {
    GroupedIsStreamed(rows, g);
  }

  lemma {:induction false} FirstWrite(t: Table, m5: seq<Bar>, g: Buckets)
    requires Increasing(m5) && |m5| >= 2 && t.rows == [] && Watermark(t) == None
    ensures WriteBars(t, m5, g).rows == Closed(m5, g)
    ensures Watermark(WriteBars(t, m5, g)) == LastStamp(Closed(m5, g))
  {
    var bars := Closed(m5, g);
    ClosedIncreasing(m5, g);
    WritesClosed(t, m5, g);
    OverlayTail(bars, 0, 0);
    assert bars[..0] == [] && bars[0..] == bars;
  }

  /** The re-read bars complete a table that holds a prefix reaching into them. */
  lemma {:induction false} CompletesTable(t: Table, rows: seq<Bar>, head: seq<Bar>, g: Buckets)
    requires Increasing(rows) && |rows| >= 2 && Increasing(head + Closed(rows, g))
    requires |head| < |t.rows| && t.rows <= head + Closed(rows, g)
    ensures WriteBars(t, rows, g).rows == head + Closed(rows, g)
    ensures Watermark(WriteBars(t, rows, g)) == LastStamp(head + Closed(rows, g))
  {
    var bars := Closed(rows, g);
    WritesClosed(t, rows, g);
    PrefixAt(t.rows, head + bars);
    DropLastConcat(head, bars);
    DropPrefix(head, bars);
    OverlayTail(head + bars, |t.rows|, |head|);
  }

  /** Rows re-read from the boundary `since` complete a table that holds a
    * prefix reaching that boundary. */
  lemma {:induction false} WriteFromBoundary(t: Table, older: seq<Bar>, rows: seq<Bar>, since: int, g: Buckets)
    requires Increasing(older + rows) && Increasing(older) && Increasing(rows) && |rows| >= 2
    requires Aligned(since, g) && since <= rows[0].ts && (older != [] ==> older[|older| - 1].ts < since)
    requires t.rows != [] && t.rows <= Closed(older + rows, g) && since <= t.rows[|t.rows| - 1].ts
    ensures WriteBars(t, rows, g).rows == Closed(older + rows, g)
    ensures Watermark(WriteBars(t, rows, g)) == LastStamp(Closed(older + rows, g))
  {
    hide *;
    ClosedIncreasing(older + rows, g);
    PrefixAt(t.rows, Closed(older + rows, g));
    ClosedCut(older, rows, since, g);
    OlderBarsIn(older, rows, since, |t.rows|, g);
    CompletesTable(t, rows, Streamed(older, g), g);
  }

  lemma {:induction false} PassFrom(t: Table, m5: seq<Bar>, k: nat, since: int, g: Buckets)
    requires Increasing(m5) && k + 2 <= |m5| && Reread(t, m5, g) == m5[k..]
    requires Aligned(since, g) && since <= m5[k].ts && (k > 0 ==> m5[k - 1].ts < since)
    requires t.rows != [] && t.rows <= Closed(m5, g) && since <= t.rows[|t.rows| - 1].ts
    ensures DerivedPass(t, m5, g).rows == Closed(m5, g)
    ensures Watermark(DerivedPass(t, m5, g)) == LastStamp(Closed(m5, g))
  {
    hide *;
    var older, rows := m5[..k], m5[k..];
    SplitIncreasing(m5, k);
    SplitAt(m5, k);
    assert rows[0] == m5[k] && (k > 0 ==> older[k - 1] == m5[k - 1]);
    WriteFromBoundary(t, older, rows, since, g);
    PassWrites(t, m5, g);
  }

  lemma {:induction false} PassWrites(t: Table, m5: seq<Bar>, g: Buckets)
    requires Increasing(m5) && Increasing(Reread(t, m5, g))
    ensures DerivedPass(t, m5, g) == WriteBars(t, Reread(t, m5, g), g)
    ensures |Reread(t, m5, g)| < 2 ==> DerivedPass(t, m5, g) == t
  {
  }

  lemma {:induction false} LastStampOf(rows: seq<Bar>)
    requires rows != []
    ensures LastStamp(rows) == Some(rows[|rows| - 1].ts)
  {
  }

  lemma {:induction false} LaterDerivedPass(t: Table, a: seq<Bar>, b: seq<Bar>, g: Buckets)
    requires M5Series(a + b) && M5Series(a) && M5Grid(g) && Increasing(a + b)
    requires t.rows == Closed(a, g) && t.rows != [] && Watermark(t) == Some(t.rows[|t.rows| - 1].ts)
    ensures DerivedPass(t, a + b, g).rows == Closed(a + b, g)
    ensures Watermark(DerivedPass(t, a + b, g)) == LastStamp(Closed(a + b, g))
  {
    hide *;
    LastStampOf(t.rows);
    var k, j := RereadCoversMark(t, a, b, g);
    ClosedIsFinal(a, b, g);
    if k + 2 <= |a + b| {
      PassFrom(t, a + b, k, Watermark(t).value - g.minutes, g);
    } else {
      assert b == [];
      assert a + b == a;
      RereadIncreasing(t, a + b, g);
      PassWrites(t, a + b, g);
    }
  }

  lemma {:induction false} OneShotIsClosed(m5: seq<Bar>, g: Buckets)
    requires Increasing(m5)
    ensures OneShot(m5, g) == if |m5| < 2 then [] else Closed(m5, g)
  {
    GroupedIsStreamed(m5, g);
  }

  /** Incremental refines one-shot: a pass over a mirror that agreed with `a`
    * leaves it agreeing with `a + b`. */
  lemma {:induction false} DerivedPassIsOneShot(t: Table, a: seq<Bar>, b: seq<Bar>, g: Buckets)
    requires M5Series(a + b) && M5Series(a) && M5Grid(g)
    requires t.rows == OneShot(a, g) && Watermark(t) == LastStamp(t.rows)
    ensures DerivedPass(t, a + b, g).rows == OneShot(a + b, g)
    ensures Watermark(DerivedPass(t, a + b, g)) == LastStamp(OneShot(a + b, g))
  {
    OneShotIsClosed(a, g);
    OneShotIsClosed(a + b, g);
    if t.rows != [] {
      LaterDerivedPass(t, a, b, g);
    } else if |a + b| >= 2 {
      FirstWrite(t, a + b, g);
    }
  }

  // ---------------------------------------------------- the M5 pass copies

  /** How many production rows the watermark accounts for. */
  function Synced(t: Table, prod: seq<Bar>): nat
    requires Increasing(prod)
  {
    if Watermark(t).None? then 0 else CountUpTo(prod, Watermark(t).value)
  }

  /** The mirror is a prefix of production that holds every row up to its
    * watermark, and the watermark is a timestamp of production. */
  predicate Copies(t: Table, prod: seq<Bar>)
    requires Increasing(prod)
  {
    && t.rows <= prod
    && Synced(t, prod) <= |t.rows|
    && (Watermark(t).Some? ==> Synced(t, prod) > 0 && prod[Synced(t, prod) - 1].ts == Watermark(t).value)
  }

  /** Where the next pass gets to. */
  function NextSynced(t: Table, prod: seq<Bar>): nat
    requires Increasing(prod)
  {
    if Synced(t, prod) + BATCH <= |prod| then Synced(t, prod) + BATCH else |prod|
  }

  lemma {:induction false} BatchIsSlice(t: Table, prod: seq<Bar>)
    requires Increasing(prod)
    ensures Synced(t, prod) <= NextSynced(t, prod) <= |prod|
    ensures Limit(RowsAfter(prod, Watermark(t)), BATCH) == prod[Synced(t, prod)..NextSynced(t, prod)]
  {
  }

  lemma {:induction false} M5PassOverlays(t: Table, prod: seq<Bar>)
    requires Increasing(prod) && t.rows <= prod && Synced(t, prod) <= |t.rows|
    ensures var j := NextSynced(t, prod);
            M5Pass(t, prod) ==
            if Synced(t, prod) == j then t
            else Written(prod[..if |t.rows| >= j then |t.rows| else j], prod[j - 1].ts)
  {
    var i, j := Synced(t, prod), NextSynced(t, prod);
    BatchIsSlice(t, prod);
    PrefixTake(t.rows, prod);
    hide Increasing, Synced, NextSynced, Limit, RowsAfter;
    Overlay(prod, |t.rows|, i, j);
    if i < j {
      SliceDropLast(prod, i, j);
    }
  }

  lemma {:induction false} M5PassCopies(t: Table, prod: seq<Bar>)
    requires Increasing(prod) && Copies(t, prod)
    ensures var j := NextSynced(t, prod);
            && M5Pass(t, prod).rows == prod[..if |t.rows| >= j then |t.rows| else j]
            && Synced(M5Pass(t, prod), prod) == j
    ensures Copies(M5Pass(t, prod), prod)
  {
    hide M5Pass, Increasing, CountUpTo;
    var i, j := Synced(t, prod), NextSynced(t, prod);
    M5PassOverlays(t, prod);
    PrefixTake(t.rows, prod);
    if i < j {
      WrittenCopies(prod, if |t.rows| >= j then |t.rows| else j, j);
    }
  }

  lemma {:induction false} WrittenCopies(prod: seq<Bar>, m: nat, j: nat)
    requires Increasing(prod) && 0 < j <= m <= |prod|
    ensures var u := Written(prod[..m], prod[j - 1].ts); Synced(u, prod) == j && Copies(u, prod)
  {
    CountUnique(prod, prod[j - 1].ts, j);
  }

  lemma {:induction false} AppendKeepsCopies(t: Table, prod: seq<Bar>, rows: seq<Bar>)
    requires Increasing(prod) && Copies(t, prod) && Increasing(prod + rows)
    ensures Copies(t, prod + rows) && Synced(t, prod + rows) == Synced(t, prod)
  {
    var i := Synced(t, prod);
    if Watermark(t).Some? {
      var all := prod + rows;
      assert all[i - 1] == prod[i - 1];
      assert i < |all| ==> all[i - 1].ts < all[i].ts;
      CountUnique(all, Watermark(t).value, i);
    }
  }

  // -------------------------------------------------------------- the runs

  /** The higher timeframes, by their length in minutes. */
  const TIMEFRAMES: set<int> := {15, 30, 60, 240, 1440}

  function TfGrid(minutes: int): Buckets
    requires minutes in TIMEFRAMES
  {
    Grid(minutes, 0)
  }

  datatype Mirror = Mirror(m5: Table, derived: map<int, Table>)

  ghost predicate WellFormed(m: Mirror) {
    m.derived.Keys == TIMEFRAMES && Increasing(m.m5.rows)
  }

  lemma {:induction false} M5PassKeeps(t: Table, prod: seq<Bar>)
    requires Increasing(prod) && Increasing(t.rows)
    ensures Increasing(M5Pass(t, prod).rows)
  {
    UpsertAllKeeps(t.rows, Limit(RowsAfter(prod, Watermark(t)), BATCH));
  }

  /** Every timeframe derived from the same M5 rows. */
  function AllDerived(derived: map<int, Table>, m5: seq<Bar>): map<int, Table>
    requires derived.Keys == TIMEFRAMES && Increasing(m5)
  {
    map k | k in derived :: DerivedPass(derived[k], m5, TfGrid(k))
  }

  /** A pass that commits: M5 first, then every timeframe from the new M5. */
  function PassCommitted(m: Mirror, prod: seq<Bar>): Mirror
    requires WellFormed(m) && Increasing(prod)
  {
    M5PassKeeps(m.m5, prod);
    var m5 := M5Pass(m.m5, prod);
    Mirror(m5, AllDerived(m.derived, m5.rows))
  }

  /** A pass that fails: everything rolled back, the M5 watermark forgotten. */
  function PassRolledBack(m: Mirror): Mirror {
    m.(m5 := Table(m.m5.rows, Some(SyncState(None, 0, true))))
  }

  /** Production appends rows, a pass commits, or a pass fails and is rolled back. */
  datatype Event = Append(rows: seq<Bar>) | Pass | FailedPass

  datatype World = World(prod: seq<Bar>, mirror: Mirror)

  ghost predicate Mirrors(t: Table, m5: seq<Bar>, g: Buckets) {
    Increasing(m5) && t.rows == OneShot(m5, g) && Watermark(t) == LastStamp(t.rows)
  }

  /** What holds at every moment of every run. */
  ghost predicate Inv(w: World) {
    && WellFormed(w.mirror)
    && M5Series(w.prod)
    && Copies(w.mirror.m5, w.prod)
    && forall k :: k in TIMEFRAMES ==> Mirrors(w.mirror.derived[k], w.mirror.m5.rows, TfGrid(k))
  }

  /** One step of a run; production only ever gains later rows. */
  ghost predicate Next(w: World, e: Event, w': World) {
    match e
    case Append(rows) =>
      M5Series(w.prod + rows) && w' == w.(prod := w.prod + rows)
    case Pass =>
      WellFormed(w.mirror) && Increasing(w.prod) && w' == w.(mirror := PassCommitted(w.mirror, w.prod))
    case FailedPass =>
      w' == w.(mirror := PassRolledBack(w.mirror))
  }

  lemma {:induction false} PrefixOfSeries(a: seq<Bar>, prod: seq<Bar>)
    requires M5Series(prod) && a <= prod
    ensures M5Series(a)
  {
    assert a == prod[..|a|];
  }

  lemma {:induction false} PassKeepsMirrors(t: Table, old5: seq<Bar>, new5: seq<Bar>, prod: seq<Bar>, k: int)
    requires M5Series(prod) && old5 <= new5 <= prod && k in TIMEFRAMES
    requires Mirrors(t, old5, TfGrid(k))
    ensures Increasing(new5) && Mirrors(DerivedPass(t, new5, TfGrid(k)), new5, TfGrid(k))
  {
    PrefixOfSeries(old5, prod);
    PrefixOfSeries(new5, prod);
    assert new5 == old5 + new5[|old5|..];
    DerivedPassIsOneShot(t, old5, new5[|old5|..], TfGrid(k));
  }

  /** Production rows the next passes still have to read. */
  ghost function Unsynced(w: World): nat
    requires Inv(w)
  {
    |w.prod| - Synced(w.mirror.m5, w.prod)
  }

  lemma {:induction false} CommittedTables(w: World, w': World, k: int)
    requires Inv(w) && Next(w, Pass, w') && k in TIMEFRAMES
    requires w.mirror.m5.rows <= w'.mirror.m5.rows <= w.prod
    ensures Mirrors(w'.mirror.derived[k], w'.mirror.m5.rows, TfGrid(k))
  {
    hide M5Pass, DerivedPass, Mirrors, Copies, M5Series, Increasing;
    PassKeepsMirrors(w.mirror.derived[k], w.mirror.m5.rows, w'.mirror.m5.rows, w.prod, k);
  }

  lemma {:induction false} CommittedM5(w: World, w': World)
    requires Inv(w) && Next(w, Pass, w')
    ensures WellFormed(w'.mirror) && w'.prod == w.prod && Copies(w'.mirror.m5, w.prod)
    ensures w.mirror.m5.rows <= w'.mirror.m5.rows <= w.prod
    ensures Synced(w'.mirror.m5, w.prod) == NextSynced(w.mirror.m5, w.prod)
  {
    hide M5Pass, DerivedPass, Mirrors, M5Series, Increasing;
    M5PassCopies(w.mirror.m5, w.prod);
    M5PassKeeps(w.mirror.m5, w.prod);
    PrefixTake(w.mirror.m5.rows, w.prod);
  }

  lemma {:induction false} CommittedKeepsInv(w: World, w': World)
    requires Inv(w) && Next(w, Pass, w')
    ensures Inv(w')
    ensures w'.prod == w.prod && Unsynced(w') == if Unsynced(w) <= BATCH then 0 else Unsynced(w) - BATCH
  {
    hide PassCommitted, Mirrors, M5Series, Increasing, Copies, Synced;
    CommittedM5(w, w');
    forall k | k in TIMEFRAMES
      ensures Mirrors(w'.mirror.derived[k], w'.mirror.m5.rows, TfGrid(k))
    {
      CommittedTables(w, w', k);
    }
  }

  /** Every event keeps the invariant; a failed pass changes no candle row. */
  lemma {:induction false} NextKeepsInv(w: World, e: Event, w': World)
    requires Inv(w) && Next(w, e, w')
    ensures Inv(w')
    ensures e.FailedPass? ==> w'.mirror.m5.rows == w.mirror.m5.rows && w'.mirror.derived == w.mirror.derived
  {
    match e
    case Append(rows) =>
      AppendKeepsCopies(w.mirror.m5, w.prod, rows);
    case Pass =>
      CommittedKeepsInv(w, w');
    case FailedPass =>
  }

  ghost const NOTHING: World := World([], Mirror(Table([], None), map k | k in TIMEFRAMES :: Table([], None)))

  /** A finite run from an empty production and an empty mirror. */
  ghost predicate IsRun(ws: seq<World>, es: seq<Event>) {
    && |ws| == |es| + 1
    && ws[0] == NOTHING
    && forall i :: 0 <= i < |es| ==> Next(ws[i], es[i], ws[i + 1])
  }

  lemma {:induction false} NothingIsMirrored()
    ensures Inv(NOTHING)
  {
  }

  /** At every moment of every run the M5 mirror is a prefix of production that
    * reaches its watermark, and each derived table is the one-shot resampling
    * of that mirror. */
  lemma {:induction false} RunsKeepInv(ws: seq<World>, es: seq<Event>, i: nat)
    requires IsRun(ws, es) && i < |ws|
    ensures Inv(ws[i])
  {
    hide *;
    RunSteps(ws, es, i);
    if i == 0 {
      NothingIsMirrored();
    } else {
      RunsKeepInv(ws, es, i - 1);
      NextKeepsInv(ws[i - 1], es[i - 1], ws[i]);
    }
  }

  lemma {:induction false} RunSteps(ws: seq<World>, es: seq<Event>, i: nat)
    requires IsRun(ws, es) && i < |ws|
    ensures ws[0] == NOTHING && |ws| == |es| + 1
    ensures i > 0 ==> Next(ws[i - 1], es[i - 1], ws[i])
  {
    hide Next;
    assert i > 0 ==> Next(ws[i - 1], es[i - 1], ws[i - 1 + 1]);
  }

  lemma {:induction false} CaughtUp(w: World)
    requires Inv(w) && Unsynced(w) == 0
    ensures WellFormed(w.mirror) && Increasing(w.prod) && w.mirror.m5.rows == w.prod
    ensures forall k :: k in TIMEFRAMES ==> w.mirror.derived[k].rows == OneShot(w.prod, TfGrid(k))
  {
    PrefixTake(w.mirror.m5.rows, w.prod);
    assert forall k :: k in TIMEFRAMES ==> Mirrors(w.mirror.derived[k], w.mirror.m5.rows, TfGrid(k));
    hide M5Series, Increasing, OneShot;
  }

  /** From any world of any run, each committed pass works off one batch of
    * unsynced rows; enough of them in a row make the mirror equal production
    * and every derived table the one-shot resampling of production. */
  lemma {:induction false} PassesCatchUp(ws: seq<World>, es: seq<Event>, i: nat, n: nat)
    requires IsRun(ws, es) && i + n < |ws|
    requires forall j :: i <= j < i + n ==> es[j].Pass?
    ensures Inv(ws[i]) && Inv(ws[i + n]) && ws[i + n].prod == ws[i].prod
    ensures var u := Unsynced(ws[i]);
            Unsynced(ws[i + n]) == if u <= n * BATCH then 0 else u - n * BATCH
    ensures Unsynced(ws[i]) <= n * BATCH ==>
              && WellFormed(ws[i + n].mirror) && Increasing(ws[i].prod)
              && ws[i + n].mirror.m5.rows == ws[i].prod
              && forall k :: k in TIMEFRAMES ==> ws[i + n].mirror.derived[k].rows == OneShot(ws[i].prod, TfGrid(k))
  {
    hide Inv, Next, OneShot, Unsynced, TfGrid, IsRun;
    RunSteps(ws, es, i + n);
    RunsKeepInv(ws, es, i);
    RunsKeepInv(ws, es, i + n);
    if n > 0 {
      PassesCatchUp(ws, es, i, n - 1);
      CommittedKeepsInv(ws[i + n - 1], ws[i + n]);
    }
    if Unsynced(ws[i + n]) == 0 {
      CaughtUp(ws[i + n]);
    }
  }

  /** A single M5 row is the one case in which the mirror lags behind: it is not
    * resampled even when it closes its bucket. */
  lemma {:induction false} SingleRowLags(row: Bar, g: Buckets)
    ensures OneShot([row], g) == Closed([row], g) <==> row.ts + 5 < BucketStart(row.ts, g) + g.minutes
  {
    StreamedEnds([row], g);
    assert |Streamed([row], g)| == 1;
  }
}
