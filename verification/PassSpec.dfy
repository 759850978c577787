/** What one pass over a mirror table does, told from the rows before and after. */
module PassSpec {
  import opened Wrappers
  import opened Seqs
  import opened Candles
  import opened CandleLaws
  import opened Tables
  import opened ReportingSync
  import BarSpec

  /** Rows with a new timestamp are added, rows with a known one take its place, and all
    * others stay; in the order of the timestamps. */
  ghost predicate Overwritten(before: seq<Bar>, written: seq<Bar>, after: seq<Bar>) {
    && Increasing(after)
    && forall r: Bar :: r in after <==> r in written || (r in before && forall w :: w in written ==> w.ts != r.ts)
  }

  /** The watermark is `mark`, the row count is right, and nothing failed. */
  predicate Stamped(t: Table, mark: int) {
    t.state == Some(SyncState(Some(mark), |t.rows|, false))
  }

  /** Row `k` lies at or below the watermark, if there is one. */
  predicate Passed(t: Table, ts: int) {
    t.state.Some? && t.state.value.mark.Some? && ts <= t.state.value.mark.value
  }

  /** An M5 pass writes the next rows above the watermark, 20 000 at most, and sets the
    * watermark to the last of them; without such rows nothing changes. */
  ghost predicate CopiesFrom(t: Table, prod: seq<Bar>, u: Table, n: nat, i: nat) {
    && i + n <= |prod| && n == (if |prod| - i <= 20_000 then |prod| - i else 20_000)
    && (forall k :: 0 <= k < |prod| ==> (k < i <==> Passed(t, prod[k].ts)))
    && (n == 0 ==> u == t)
    && (n > 0 ==> Stamped(u, prod[i + n - 1].ts) && Overwritten(t.rows, prod[i..i + n], u.rows))
  }

  ghost predicate CopiesNext(t: Table, prod: seq<Bar>, u: Table, n: nat) {
    exists i: nat :: CopiesFrom(t, prod, u, n, i)
  }

  /** The bars, less the newest one if it is not closed when the newest row is. */
  function Complete(bars: seq<Bar>, minutes: int, newest: int): seq<Bar> {
    if bars == [] || bars[|bars| - 1].ts + minutes <= newest + 5 then bars else bars[..|bars| - 1]
  }

  /** A derived pass reads again from one bar before the watermark on, resamples those
    * rows (a single one is not resampled), writes the complete bars and sets the
    * watermark to the last of them. */
  ghost predicate DerivesFrom(t: Table, m5: seq<Bar>, minutes: int, u: Table, n: nat, i: nat, bars: seq<Bar>) {
    && i <= |m5|
    && (forall k :: 0 <= k < |m5| ==> (k < i <==> Passed(t, m5[k].ts + minutes + 1)))
    && if |m5| - i < 2 then n == 0 && u == t
       else
         && BarSpec.Resampled(m5[i..], bars, minutes, 0)
         && var written := Complete(bars, minutes, m5[|m5| - 1].ts);
         && n == |written| && (n == 0 ==> u == t)
         && (n > 0 ==> Stamped(u, written[n - 1].ts) && Overwritten(t.rows, written, u.rows))
  }

  ghost predicate DerivesNext(t: Table, m5: seq<Bar>, minutes: int, u: Table, n: nat) {
    exists i: nat, bars: seq<Bar> :: DerivesFrom(t, m5, minutes, u, n, i, bars)
  }

  // -------------------------------------------------------- the passes do that

  lemma {:induction false} RowIsLookup(t: seq<Bar>, r: Bar)
    requires Increasing(t)
    ensures r in t <==> Lookup(t, r.ts) == Some(r)
  {
    hide Increasing;
    if r in t {
      StoredRow(t, r);
    }
    if Lookup(t, r.ts) == Some(r) {
      LookupIn(t, r.ts);
    }
  }

  lemma {:induction false} NoRowAt(t: seq<Bar>, ts: int)
    ensures Lookup(t, ts).None? <==> forall w :: w in t ==> w.ts != ts
  {
    LookupIffHolds(t, ts);
    hide Lookup;
    assert Holds(t, ts) <==> !(forall w :: w in t ==> w.ts != ts);
  }

  lemma {:induction false} UpsertOverwrites(before: seq<Bar>, written: seq<Bar>)
    requires Increasing(before) && Increasing(written)
    ensures Overwritten(before, written, UpsertAll(before, written))
  {
    hide Increasing, UpsertAll, Lookup;
    var after := UpsertAll(before, written);
    UpsertAllKeeps(before, written);
    forall r: Bar
      ensures r in after <==> r in written || (r in before && forall w :: w in written ==> w.ts != r.ts)
    {
      UpsertAllLookup(before, written, r.ts);
      RowIsLookup(after, r);
      RowIsLookup(written, r);
      RowIsLookup(before, r);
      NoRowAt(written, r.ts);
    }
  }

  lemma {:induction false} SyncedArePassed(t: Table, prod: seq<Bar>)
    requires Increasing(prod)
    ensures forall k :: 0 <= k < |prod| ==> (k < Synced(t, prod) <==> Passed(t, prod[k].ts))
  {
  }

  lemma {:induction false} M5PassCopiesNext(t: Table, prod: seq<Bar>)
    requires Increasing(prod) && Increasing(t.rows)
    ensures NextSynced(t, prod) >= Synced(t, prod)
    ensures CopiesNext(t, prod, M5Pass(t, prod), NextSynced(t, prod) - Synced(t, prod))
  {
    hide Increasing, RowsAfter, Limit, UpsertAll, Overwritten, Passed, Synced;
    var i, j := Synced(t, prod), NextSynced(t, prod);
    BatchIsSlice(t, prod);
    SyncedArePassed(t, prod);
    SliceIncreasing(prod, i, j);
    UpsertOverwrites(t.rows, prod[i..j]);
    if i < j {
      SliceDropLast(prod, i, j);
    }
    assert CopiesFrom(t, prod, M5Pass(t, prod), j - i, i);
  }

  lemma {:induction false} RereadIs(t: Table, m5: seq<Bar>, g: Buckets) returns (i: nat)
    requires Increasing(m5)
    ensures i <= |m5| && Reread(t, m5, g) == m5[i..]
    ensures forall k :: 0 <= k < |m5| ==> (k < i <==> Passed(t, m5[k].ts + g.minutes + 1))
  {
    i := if Watermark(t).None? then 0 else CountUpTo(m5, Watermark(t).value - g.minutes - 1);
  }

  lemma {:induction false} OneShotIsComplete(rows: seq<Bar>, g: Buckets)
    requires Increasing(rows) && |rows| >= 2
    ensures Grouped(rows, g) != []
    ensures OneShot(rows, g) == Complete(Grouped(rows, g), g.minutes, rows[|rows| - 1].ts)
    ensures Increasing(OneShot(rows, g))
  {
    hide Grouped;
    GroupedIsStreamed(rows, g);
    GroupedIncreasing(rows, g);
  }

  lemma {:induction false} WriteBarsIs(t: Table, rows: seq<Bar>, g: Buckets)
    requires Increasing(rows)
    ensures var bars := OneShot(rows, g);
            WriteBars(t, rows, g) == if bars == [] then t else Written(UpsertAll(t.rows, bars), bars[|bars| - 1].ts)
  {
    hide Grouped, UpsertAll;
  }

  lemma {:induction false} DerivedPassDerives(t: Table, m5: seq<Bar>, g: Buckets)
    requires Increasing(m5) && Increasing(t.rows) && g.offset == 0
    ensures DerivesNext(t, m5, g.minutes, DerivedPass(t, m5, g), |BarsToWrite(t, m5, g)|)
  {
    hide Increasing, Reread, WriteBars, UpsertAll, Overwritten, Passed, Grouped, OneShot, Complete, BarSpec.Resampled;
    var i := RereadIs(t, m5, g);
    var rows, u, n := m5[i..], DerivedPass(t, m5, g), |BarsToWrite(t, m5, g)|;
    RereadIncreasing(t, m5, g);
    WriteBarsIs(t, rows, g);
    if |rows| < 2 {
      FewRows(rows, g);
      assert DerivesFrom(t, m5, g.minutes, u, n, i, []);
    } else {
      OneShotIsComplete(rows, g);
      BarSpec.GroupedIsResampled(rows, g);
      UpsertOverwrites(t.rows, OneShot(rows, g));
      assert rows[|rows| - 1] == m5[|m5| - 1];
      assert DerivesFrom(t, m5, g.minutes, u, n, i, Grouped(rows, g));
    }
  }

  lemma {:induction false} FewRows(rows: seq<Bar>, g: Buckets)
    requires Increasing(rows) && |rows| < 2
    ensures OneShot(rows, g) == []
  {
  }

  /** A pass that commits copies M5 and derives every timeframe from the new M5 rows. */
  ghost predicate Commits(m: Mirror, prod: seq<Bar>, after: Mirror) {
    && (exists n: nat :: CopiesNext(m.m5, prod, after.m5, n))
    && after.derived.Keys == {15, 30, 60, 240, 1440}
    && forall k :: k in after.derived && k in m.derived && Increasing(m.derived[k].rows) ==>
         exists n: nat :: DerivesNext(m.derived[k], after.m5.rows, k, after.derived[k], n)
  }

  lemma {:induction false} PassCommits(m: Mirror, prod: seq<Bar>)
    requires WellFormed(m) && Increasing(prod)
    ensures Commits(m, prod, PassCommitted(m, prod))
  {
    hide CopiesNext, DerivesNext, M5Pass, DerivedPass, Increasing, BarsToWrite, Synced, NextSynced;
    M5PassCopiesNext(m.m5, prod);
    M5PassKeeps(m.m5, prod);
    var rows := M5Pass(m.m5, prod).rows;
    forall k | k in m.derived && Increasing(m.derived[k].rows)
      ensures exists n: nat :: DerivesNext(m.derived[k], rows, k, PassCommitted(m, prod).derived[k], n)
    {
      DerivedPassDerives(m.derived[k], rows, TfGrid(k));
      assert PassCommitted(m, prod).derived[k] == DerivedPass(m.derived[k], rows, TfGrid(k)) && TfGrid(k).minutes == k;
    }
  }
}
