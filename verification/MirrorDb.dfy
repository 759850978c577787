/** The mirror database and one pass over it: every pair in a transaction of its own,
  * then the trades. */
module MirrorDb {
  import opened Wrappers
  import opened Seqs
  import opened Candles
  import opened Tables
  import opened ReportingSync
  import opened LateRows
  import opened PassSpec
  import Resampler
  import KeySync
  import TradeJoin

  /** INSERT OR REPLACE, row after row. */
  method ExecuteMany(t: seq<Bar>, rows: seq<Bar>) returns (r: seq<Bar>)
    ensures r == UpsertAll(t, rows)
  {
    r := t;
    var i := 0;
    while i < |rows|
      invariant i <= |rows|
      invariant r == UpsertAll(t, rows[..i])
    {
      TakeNext(rows, i);
      r := Upsert(r, rows[i]);
      i := i + 1;
    }
    TakeAll(rows);
  }

  function TfLabel(minutes: int): Resampler.Timeframe
    requires minutes in TIMEFRAMES
  {
    match minutes
    case 15 => Resampler.M15
    case 30 => Resampler.M30
    case 60 => Resampler.H1
    case 240 => Resampler.H4
    case _ => Resampler.D1
  }

  /** The production resampler, run on the mirrored M5 rows. */
  method ResampleRows(rows: seq<Bar>, minutes: int) returns (bars: seq<Bar>)
    requires rows != [] && minutes in TIMEFRAMES
    ensures bars == Grouped(rows, TfGrid(minutes))
  {
    hide *;
    ResampleOfM5(rows, minutes);
    var resampled := Resampler.ResampleCandles(Resampler.Labelled(rows, Resampler.M5), TfLabel(minutes), 0);
    bars := Resampler.Bars(resampled.value);
  }

  lemma {:induction false} GridOfLabel(minutes: int)
    requires minutes in TIMEFRAMES
    ensures Resampler.TargetGrid(Resampler.M5, TfLabel(minutes), 0) == Ok(TfGrid(minutes))
  {
  }

  lemma {:induction false} ResampleOfM5(rows: seq<Bar>, minutes: int)
    requires rows != [] && minutes in TIMEFRAMES
    ensures var r := Resampler.Resample(Resampler.Labelled(rows, Resampler.M5), TfLabel(minutes), 0);
            r.Ok? && Resampler.Bars(r.value) == Grouped(rows, TfGrid(minutes))
  {
    hide *;
    GridOfLabel(minutes);
    Resampler.ResampleLabelled(rows, Resampler.M5, TfLabel(minutes), 0);
    Resampler.BarsLabelled(Grouped(rows, TfGrid(minutes)), TfLabel(minutes));
  }

  const ORDER: seq<int> := [15, 30, 60, 240, 1440]

  class ReportingDb {
    var m5: Table
    var derived: map<int, Table>
    const keyMirror: KeySync.KeyMirror

    ghost function View(): Mirror
      reads this
    {
      Mirror(m5, derived)
    }

    constructor ()
      ensures View() == NOTHING.mirror && derived.Keys == {15, 30, 60, 240, 1440}
      ensures fresh(keyMirror) && keyMirror.table == KeySync.KeyTable(map[], None)
    {
      m5 := Table([], None);
      derived := map k | k in TIMEFRAMES :: Table([], None);
      keyMirror := new KeySync.KeyMirror();
    }

    /** `sync_m5`: copy the next batch of rows after the watermark. */
    method SyncM5(prod: seq<Bar>) returns (n: nat)
      requires Increasing(prod)
      modifies this`m5
      ensures m5 == M5Pass(old(m5), prod)
      ensures n == NextSynced(old(m5), prod) - Synced(old(m5), prod)
      ensures Increasing(old(m5.rows)) ==> CopiesNext(old(m5), prod, m5, n)
    {
      hide CopiesNext, Increasing, UpsertAll;
      if Increasing(m5.rows) {
        M5PassCopiesNext(m5, prod);
      }
      var rows := Limit(RowsAfter(prod, Watermark(m5)), BATCH);
      BatchIsSlice(m5, prod);
      if rows == [] {
        return 0;
      }
      var written := ExecuteMany(m5.rows, rows);
      m5 := Written(written, rows[|rows| - 1].ts);
      return |rows|;
    }

    /** `sync_derived`: re-read from one bar before the watermark, resample, write the complete bars. */
    method SyncDerived(minutes: int) returns (n: nat)
      requires minutes in TIMEFRAMES && minutes in derived && Increasing(m5.rows)
      modifies this`derived
      ensures derived == old(derived)[minutes := DerivedPass(old(derived)[minutes], m5.rows, TfGrid(minutes))]
      ensures n == |BarsToWrite(old(derived)[minutes], m5.rows, TfGrid(minutes))|
      ensures Increasing(old(derived)[minutes].rows) ==>
                DerivesNext(old(derived)[minutes], m5.rows, minutes, derived[minutes], n)
    {
      hide Grouped, Reread, Increasing, UpsertAll, DerivesNext;
      if Increasing(derived[minutes].rows) {
        DerivedPassDerives(derived[minutes], m5.rows, TfGrid(minutes));
      }
      var g, table := TfGrid(minutes), derived[minutes];
      var rows := Reread(table, m5.rows, g);
      RereadIncreasing(table, m5.rows, g);
      if |rows| < 2 {
        assert derived == derived[minutes := table];
        return 0;
      }
      var bars := ResampleRows(rows, minutes);
      GroupedIsStreamed(rows, g);
      bars := DropIncomplete(bars, rows, minutes);
      if bars == [] {
        assert derived == derived[minutes := table];
        return 0;
      }
      var written := ExecuteMany(table.rows, bars);
      derived := derived[minutes := Written(written, bars[|bars| - 1].ts)];
      return |bars|;
    }

    /** All timeframes, one after the other, up to the one that raises, if any. */
    method DeriveAll(fault: Option<nat>) returns (ok: bool)
      requires derived.Keys == TIMEFRAMES && Increasing(m5.rows)
      modifies this`derived
      ensures ok <==> fault.None? || fault.value == 0 || fault.value > |ORDER|
      ensures ok ==> derived == AllDerived(old(derived), m5.rows)
    {
      hide DerivedPass, Increasing, BarsToWrite, AllDerived;
      ghost var before := derived;
      var i := 0;
      while i < |ORDER|
        invariant i <= |ORDER| && derived.Keys == TIMEFRAMES
        invariant fault.None? || fault.value == 0 || fault.value > i
        invariant forall k :: k in TIMEFRAMES ==>
                    derived[k] == if k in ORDER[..i] then DerivedPass(before[k], m5.rows, TfGrid(k)) else before[k]
      {
        assert ORDER[i] !in ORDER[..i];
        TakeNext(ORDER, i);
        var m := SyncDerived(ORDER[i]);
        if fault == Some(i + 1) {
          return false;
        }
        i := i + 1;
      }
      TakeAll(ORDER);
      EachDerived(before, derived, m5.rows);
      return true;
    }

    /** One pass of `sync_all` over this pair. `fault` is the step that raises,
      * if any: step 0 copies M5, step `i + 1` derives `ORDER[i]`, the last one
      * copies the market keys. Whatever the pass had written by then is rolled
      * back, and the M5 watermark is forgotten. */
    method SyncPass(prod: seq<Bar>, prodKeys: seq<KeySync.KeyRow>, fault: Option<nat>) returns (ok: bool)
      requires WellFormed(View()) && Increasing(prod)
      modifies this, keyMirror
      ensures ok <==> fault.None? || fault.value > |ORDER| + 1
      ensures View() == if ok then PassCommitted(old(View()), prod) else PassRolledBack(old(View()))
      ensures ok ==> Commits(old(View()), prod, View())
      ensures !ok ==> m5 == Table(old(m5.rows), Some(SyncState(None, 0, true))) && derived == old(derived)
      ensures !ok && Copies(old(m5), prod) ==> ReadsAllAgain(m5, prod)
      ensures keyMirror.table ==
              if ok then KeySync.KeyPass(old(keyMirror.table), prodKeys) else old(keyMirror.table)
    {
      hide M5Pass, DerivedPass, Increasing, KeySync.KeyPass, ReadsAllAgain, Commits, CopiesNext;
      PassCommits(View(), prod);
      var saved, savedDerived, savedKeys := m5, derived, keyMirror.table;
      var n := SyncM5(prod);
      M5PassKeeps(saved, prod);
      var done := fault != Some(0);
      if done {
        done := DeriveAll(fault);
        if done {
          var k := keyMirror.SyncKeys(prodKeys);
          done := fault != Some(|ORDER| + 1);
        }
      }
      if !done {
        m5, derived := Table(saved.rows, Some(SyncState(None, 0, true))), savedDerived;
        keyMirror.table := savedKeys;
        if Copies(saved, prod) {
          ForgottenReadsAll(saved, m5, prod);
        }
      }
      return done;
    }
  }

  lemma {:induction false} EachDerived(before: map<int, Table>, after: map<int, Table>, m5: seq<Bar>)
    requires before.Keys == after.Keys == TIMEFRAMES && Increasing(m5)
    requires forall k :: k in TIMEFRAMES ==>
               after[k] == if k in ORDER then DerivedPass(before[k], m5, TfGrid(k)) else before[k]
    ensures after == AllDerived(before, m5)
  {
    hide DerivedPass, Increasing;
  }

  /** The mirrored trades, by order id. */
  class TradeMirror {
    var table: map<string, TradeJoin.TradeRow>

    constructor ()
      ensures table == map[]
    {
      table := map[];
    }
  }

  /** `sync_all`: first every pair, then the trades. Each part commits or is rolled back
    * on its own, so one that fails costs the others nothing; nothing at all happens
    * while production cannot be read. `keySeries` and `spreadSeries` are what the mirror
    * holds when the trades are joined. */
  method SyncAll(readable: bool, dbs: seq<ReportingDb>, prods: seq<seq<Bar>>, keys: seq<seq<KeySync.KeyRow>>,
                 faults: seq<Option<nat>>, trades: TradeMirror, orders: seq<TradeJoin.Order>,
                 keySeries: TradeJoin.Series, spreadSeries: TradeJoin.Series, columns: TradeJoin.Columns,
                 tradesFail: bool)
    returns (oks: seq<bool>, tradesOk: bool)
    requires |dbs| == |prods| == |keys| == |faults|
    requires forall i, j :: 0 <= i < j < |dbs| ==> dbs[i] != dbs[j] && dbs[i].keyMirror != dbs[j].keyMirror
    requires forall i :: 0 <= i < |dbs| ==> WellFormed(dbs[i].View()) && Increasing(prods[i])
    modifies dbs, set i | 0 <= i < |dbs| :: dbs[i].keyMirror
    modifies trades
    ensures readable ==> |oks| == |dbs|
    ensures readable ==> forall i :: 0 <= i < |dbs| ==> (oks[i] <==> faults[i].None? || faults[i].value > |ORDER| + 1)
    ensures forall i :: 0 <= i < |dbs| ==>
              && dbs[i].View() == (if !readable then old(dbs[i].View())
                                   else if oks[i] then PassCommitted(old(dbs[i].View()), prods[i])
                                   else PassRolledBack(old(dbs[i].View())))
              && dbs[i].keyMirror.table == (if readable && oks[i] then KeySync.KeyPass(old(dbs[i].keyMirror.table), keys[i])
                                            else old(dbs[i].keyMirror.table))
    ensures tradesOk <==> readable && !tradesFail
    ensures tradesOk ==> TradeJoin.Copied(old(trades.table), orders, keySeries, spreadSeries, columns, trades.table)
    ensures trades.table ==
            if tradesOk
            then TradeJoin.Stored(old(trades.table), TradeJoin.Joined(orders, keySeries, spreadSeries, columns))
            else old(trades.table)
  {
    hide WellFormed, PassCommitted, PassRolledBack, Increasing, TradeJoin.Stored, TradeJoin.Joined, TradeJoin.Copied,
      KeySync.KeyPass;
    oks, tradesOk := [], false;
    if !readable {
      return;
    }
    var n := 0;
    while n < |dbs|
      invariant n <= |dbs| && |oks| == n && trades.table == old(trades.table)
      invariant forall i :: 0 <= i < n ==> (oks[i] <==> faults[i].None? || faults[i].value > |ORDER| + 1)
      invariant forall i :: n <= i < |dbs| ==>
                  dbs[i].View() == old(dbs[i].View()) && dbs[i].keyMirror.table == old(dbs[i].keyMirror.table)
      invariant forall i :: 0 <= i < n ==>
                  && dbs[i].View() ==
                     (if oks[i] then PassCommitted(old(dbs[i].View()), prods[i]) else PassRolledBack(old(dbs[i].View())))
                  && dbs[i].keyMirror.table ==
                     (if oks[i] then KeySync.KeyPass(old(dbs[i].keyMirror.table), keys[i])
                      else old(dbs[i].keyMirror.table))
    {
      var ok := dbs[n].SyncPass(prods[n], keys[n], faults[n]);
      oks := oks + [ok];
      n := n + 1;
    }
    var table, written := TradeJoin.SyncTrades(trades.table, orders, keySeries, spreadSeries, columns);
    if !tradesFail {
      trades.table := table;
      tradesOk := true;
    }
  }
}
