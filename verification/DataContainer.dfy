/** The live candle store: gap repair before a read, and reads that look at the
  * newest rows only. */
module DataContainer {
  import opened Wrappers
  import opened Candles
  import opened CandleLaws
  import opened Tables
  import opened Windows

  // -------------------------------------------------- what is missing

  /** Open time of the newest M5 candle that is complete at `now`. */
  function LatestCompletedM5Open(now: int): int {
    now / 5 * 5 - 5
  }

  function LatestStamp(rows: seq<Bar>): (r: int)
    requires rows != []
    ensures forall c :: c in rows ==> c.ts <= r
    ensures exists c :: c in rows && c.ts == r
  {
    assert rows[|rows| - 1] in rows;
    if |rows| == 1 then rows[0].ts else Max(LatestStamp(rows[..|rows| - 1]), rows[|rows| - 1].ts)
  }

  /** The newest slot a read at `now` asks for. */
  function WindowEnd(rows: seq<Bar>, now: int): int {
    if rows == [] then LatestCompletedM5Open(now)
    else Max(LatestStamp(rows), LatestCompletedM5Open(now))
  }

  /** `ts` is one of the `n` five-minute slots that end at `end`. */
  predicate InWindow(ts: int, end: int, n: int) {
    end - 5 * (n - 1) <= ts <= end && (ts - end) % 5 == 0
  }

  predicate Ascends(s: seq<int>) {
    forall i, j :: 0 <= i < j < |s| ==> s[i] < s[j]
  }

  /** `_missing_slots_in_recent_window`: every slot of the window without a row,
    * oldest first. */
  method MissingSlots(existing: seq<Bar>, n: int, now: int) returns (missing: seq<int>)
    ensures n <= 0 ==> missing == []
    ensures n > 0 ==> forall ts :: ts in missing <==> InWindow(ts, WindowEnd(existing, now), n) && !Holds(existing, ts)
    ensures Ascends(missing)
  {
    hide Holds, WindowEnd;
    missing := [];
    if n <= 0 {
      return;
    }
    var end := WindowEnd(existing, now);
    var ts := end - 5 * (n - 1);
    var start := ts;
    while ts <= end
      invariant start <= ts <= end + 5 && (ts - end) % 5 == 0
      invariant forall x :: x in missing <==> start <= x < ts && (x - end) % 5 == 0 && !Holds(existing, x)
      invariant Ascends(missing)
    {
      forall x
        ensures start <= x < ts + 5 && (x - end) % 5 == 0 && !Holds(existing, x) <==>
                (start <= x < ts && (x - end) % 5 == 0 && !Holds(existing, x)) || (x == ts && !Holds(existing, x))
      {
      }
      if !Holds(existing, ts) {
        assert forall x :: x in missing + [ts] <==> x in missing || x == ts;
        assert forall i :: 0 <= i < |missing| ==> missing[i] in missing;
        missing := missing + [ts];
      }
      ts := ts + 5;
    }
  }

  lemma {:induction false} GridGap(cs: seq<Bar>, i: nat, j: nat)
    requires M5Series(cs) && i <= j < |cs|
    ensures cs[j].ts - cs[i].ts >= 5 * (j - i)
  {
    if i < j {
      GridGap(cs, i, j - 1);
      assert cs[j - 1].ts < cs[j].ts;
    }
  }

  /** The newest-`n` read contains every stored row of the `n`-slot window. */
  lemma {:induction false} NewestCoversWindow(rows: seq<Bar>, n: nat, c: Bar, end: int)
    requires M5Series(rows) && c in rows && n > 0
    requires rows[|rows| - 1].ts <= end && end - 5 * (n - 1) <= c.ts
    ensures c in Newest(rows, n)
  {
    var i :| 0 <= i < |rows| && rows[i] == c;
    GridGap(rows, i, |rows| - 1);
    if |rows| > n {
      assert Newest(rows, n)[i - (|rows| - n)] == c;
    }
  }

  // ---------------------------------------------- placeholders and row order

  function Nulls(slots: seq<int>): seq<Bar> {
    if slots == [] then [] else Nulls(slots[..|slots| - 1]) + [NullCandle(slots[|slots| - 1])]
  }

  lemma {:induction false} NullsHold(slots: seq<int>, ts: int)
    ensures Holds(Nulls(slots), ts) <==> ts in slots
  {
    if slots != [] {
      NullsHold(slots[..|slots| - 1], ts);
      HoldsExtend(Nulls(slots[..|slots| - 1]), NullCandle(slots[|slots| - 1]), ts);
      assert slots == slots[..|slots| - 1] + [slots[|slots| - 1]];
    }
  }

  predicate OnSlots(rows: seq<Bar>) {
    forall c :: c in rows ==> c.ts % 5 == 0
  }

  lemma {:induction false} UpsertAllSeries(t: seq<Bar>, rows: seq<Bar>)
    requires M5Series(t) && OnSlots(rows)
    ensures M5Series(UpsertAll(t, rows))
  {
    UpsertAllKeeps(t, rows);
    forall i | 0 <= i < |UpsertAll(t, rows)|
      ensures UpsertAll(t, rows)[i].ts % 5 == 0
    {
      var c := UpsertAll(t, rows)[i];
      UpsertAllLookup(t, rows, c.ts);
      LookupIffHolds(UpsertAll(t, rows), c.ts);
      LookupIffHolds(rows, c.ts);
      LookupIffHolds(t, c.ts);
      assert Holds(UpsertAll(t, rows), c.ts);
      if Holds(rows, c.ts) {
        var r :| r in rows && r.ts == c.ts;
      } else {
        var r :| r in t && r.ts == c.ts;
      }
    }
  }

  // ------------------------------------------------------------ the container

  /** The broker's answer: candles (none on a timeout), or an exception. */
  datatype Fetch = Delivered(candles: seq<Bar>) | Raised

  /** The calls a repair makes to the store, any of which may raise. */
  datatype StoreCall = FirstRead | SaveFetched | SecondRead | SaveNulls

  /** Every slot of the window that ends at `WindowEnd(rows, now)` has a row. */
  ghost predicate WindowComplete(rows: seq<Bar>, n: int, now: int) {
    forall ts :: InWindow(ts, WindowEnd(rows, now), n) ==> Holds(rows, ts)
  }

  lemma {:induction false} LatestIsLast(rows: seq<Bar>)
    requires Increasing(rows) && rows != []
    ensures LatestStamp(rows) == rows[|rows| - 1].ts
  {
    assert rows[|rows| - 1] in rows;
  }

  lemma {:induction false} NewestEnd(rows: seq<Bar>, n: nat, now: int)
    requires Increasing(rows) && n > 0
    ensures WindowEnd(Newest(rows, n), now) == WindowEnd(rows, now)
  {
    if rows != [] {
      NewestSplit(rows, n);
      SplitIncreasing(rows, if |rows| <= n then 0 else |rows| - n);
      LatestIsLast(rows);
      LatestIsLast(Newest(rows, n));
    }
  }

  /** Inside the window the newest-`n` read misses nothing. */
  lemma {:induction false} NewestHolds(rows: seq<Bar>, n: nat, now: int, ts: int)
    requires M5Series(rows) && n > 0 && InWindow(ts, WindowEnd(rows, now), n)
    ensures Holds(Newest(rows, n), ts) <==> Holds(rows, ts)
  {
    NewestSplit(rows, n);
    if Holds(rows, ts) {
      var c :| c in rows && c.ts == ts;
      LatestIsLast(rows);
      NewestCoversWindow(rows, n, c, WindowEnd(rows, now));
    }
    if Holds(Newest(rows, n), ts) {
      var c :| c in Newest(rows, n) && c.ts == ts;
      assert c in rows;
    }
  }

  /** What `MissingSlots` reports about a newest-`n` read. */
  ghost predicate Reports(missing: seq<int>, rows: seq<Bar>, n: nat, now: int) {
    forall ts :: ts in missing <==> InWindow(ts, WindowEnd(rows, now), n) && !Holds(rows, ts)
  }

  lemma {:induction false} NullsLast(slots: seq<int>, ts: int)
    requires ts in slots
    ensures Lookup(Nulls(slots), ts) == Some(NullCandle(ts))
  {
    var init, last := slots[..|slots| - 1], slots[|slots| - 1];
    if last != ts {
      NullsLast(init, ts);
    }
  }

  /** What the store holds for `ts` once the window of `stored` is filled. */
  function FilledAt(stored: seq<Bar>, n: nat, now: int, ts: int): Option<Bar> {
    if Lookup(stored, ts).Some? then Lookup(stored, ts)
    else if stored != [] && InWindow(ts, WindowEnd(stored, now), n) then Some(NullCandle(ts))
    else None
  }

  /** The placeholders fill the window, and only slots that had no row. */
  lemma {:induction false} FillWindow(rows: seq<Bar>, missing: seq<int>, n: nat, now: int)
    requires M5Series(rows) && rows != [] && n > 0 && Reports(missing, rows, n, now)
    ensures M5Series(UpsertAll(rows, Nulls(missing)))
    ensures WindowComplete(UpsertAll(rows, Nulls(missing)), n, now)
    ensures forall ts :: Lookup(UpsertAll(rows, Nulls(missing)), ts) == FilledAt(rows, n, now, ts)
  {
    var filled := UpsertAll(rows, Nulls(missing));
    NullsOnSlots(rows, missing, n, now);
    UpsertAllSeries(rows, Nulls(missing));
    hide M5Series, UpsertAll, Nulls, Lookup;
    forall ts
      ensures Lookup(filled, ts) == FilledAt(rows, n, now, ts)
      ensures Holds(filled, ts) <==> ts in missing || Holds(rows, ts)
    {
      FilledRow(rows, missing, n, now, ts);
    }
    FilledEnd(rows, filled, missing, n, now);
  }

  lemma {:induction false} FilledRow(rows: seq<Bar>, missing: seq<int>, n: nat, now: int, ts: int)
    requires Increasing(rows) && rows != [] && Reports(missing, rows, n, now)
    ensures Lookup(UpsertAll(rows, Nulls(missing)), ts) == FilledAt(rows, n, now, ts)
    ensures Holds(UpsertAll(rows, Nulls(missing)), ts) <==> ts in missing || Holds(rows, ts)
  {
    hide UpsertAll, Nulls, Lookup, Increasing;
    UpsertAllLookup(rows, Nulls(missing), ts);
    NullsHold(missing, ts);
    LookupIffHolds(rows, ts);
    LookupIffHolds(Nulls(missing), ts);
    LookupIffHolds(UpsertAll(rows, Nulls(missing)), ts);
    if ts in missing {
      NullsLast(missing, ts);
    }
  }

  lemma {:induction false} CompletedAligned(now: int)
    ensures LatestCompletedM5Open(now) % 5 == 0
  {
  }

  lemma {:induction false} WindowEndAligned(rows: seq<Bar>, now: int)
    requires M5Series(rows)
    ensures WindowEnd(rows, now) % 5 == 0
  {
    hide LatestStamp, M5Series, Increasing, LatestCompletedM5Open;
    CompletedAligned(now);
    if rows != [] {
      SeriesInit(rows);
      SeriesIncreasing(rows);
      LatestIsLast(rows);
    }
  }

  lemma {:induction false} NullsOnSlots(rows: seq<Bar>, missing: seq<int>, n: nat, now: int)
    requires M5Series(rows) && Reports(missing, rows, n, now)
    ensures OnSlots(Nulls(missing))
  {
    hide M5Series, WindowEnd, Nulls;
    WindowEndAligned(rows, now);
    forall c | c in Nulls(missing)
      ensures c.ts % 5 == 0
    {
      assert Holds(Nulls(missing), c.ts);
      NullsHold(missing, c.ts);
    }
  }

  lemma {:induction false} FilledEnd(rows: seq<Bar>, filled: seq<Bar>, missing: seq<int>, n: nat, now: int)
    requires rows != [] && Reports(missing, rows, n, now)
    requires forall ts :: Holds(filled, ts) <==> ts in missing || Holds(rows, ts)
    ensures WindowEnd(filled, now) == WindowEnd(rows, now)
  {
    var r := LatestStamp(rows);
    assert Holds(rows, r);
    assert Holds(filled, r);
    var f := LatestStamp(filled);
    assert Holds(filled, f);
    if Holds(rows, f) {
      var c :| c in rows && c.ts == f;
    }
    var c :| c in filled && c.ts == r;
  }

  // ------------------------------------------------- the repair, slot by slot

  /** The newest slot whose five minutes are over at `now`. */
  predicate NewestOver(ts: int, now: int) {
    ts % 5 == 0 && ts + 5 <= now < ts + 10
  }

  /** There is a row `i` slots before the later of `e` and the newest row. */
  ghost predicate HasSlot(rows: seq<Bar>, e: int, i: nat)
    requires rows != []
  {
    Holds(rows, Max(e, rows[|rows| - 1].ts) - 5 * i)
  }

  /** The `n` slots have rows that end with the newest one over at `now`, or with the
    * newest row where that is later. */
  ghost predicate FilledTo(rows: seq<Bar>, n: int, now: int)
    requires rows != []
  {
    forall e: int, i: nat :: NewestOver(e, now) && i < n ==> HasSlot(rows, e, i)
  }

  lemma {:induction false} NewestOverIs(now: int, e: int)
    ensures NewestOver(e, now) <==> e == LatestCompletedM5Open(now)
  {
  }

  lemma {:induction false} SlotsOf(ts: int, end: int, n: int)
    ensures InWindow(ts, end, n) <==> exists i: nat :: i < n && ts == end - 5 * i
  {
    if InWindow(ts, end, n) {
      var i := (end - ts) / 5;
      assert end - ts == 5 * i by {
        assert (end - ts) % 5 == 0;
      }
      assert i < n && ts == end - 5 * i;
    }
  }

  lemma {:induction false} EndIs(rows: seq<Bar>, now: int)
    requires Increasing(rows) && rows != []
    ensures WindowEnd(rows, now) == Max(LatestCompletedM5Open(now), rows[|rows| - 1].ts)
  {
    LatestIsLast(rows);
  }

  lemma {:induction false} FilledIff(rows: seq<Bar>, n: int, now: int)
    requires Increasing(rows) && rows != []
    ensures WindowComplete(rows, n, now) <==> FilledTo(rows, n, now)
  {
    hide Holds, Increasing, InWindow, NewestOver, LatestCompletedM5Open, WindowEnd;
    EndIs(rows, now);
    var end, e := WindowEnd(rows, now), LatestCompletedM5Open(now);
    NewestOverIs(now, e);
    if FilledTo(rows, n, now) {
      forall ts | InWindow(ts, end, n) ensures Holds(rows, ts) {
        SlotsOf(ts, end, n);
        var i: nat :| i < n && ts == end - 5 * i;
        assert HasSlot(rows, e, i);
      }
    }
    if WindowComplete(rows, n, now) {
      forall x: int, i: nat | NewestOver(x, now) && i < n ensures HasSlot(rows, x, i) {
        NewestOverIs(now, x);
        SlotsOf(end - 5 * i, end, n);
      }
    }
  }

  /** The broker delivered a candle for the slot. */
  ghost predicate Fetched(fetch: Fetch, ts: int) {
    fetch.Delivered? && Lookup(fetch.candles, ts).Some?
  }

  /** A slot that may get a placeholder: its five minutes are over, or a later candle is
    * stored or was fetched. */
  ghost predicate MayBeFilled(before: seq<Bar>, fetch: Fetch, ts: int, now: int) {
    ts % 5 == 0 && (ts + 5 <= now || exists c :: (c in before || (fetch.Delivered? && c in fetch.candles)) && ts < c.ts)
  }

  /** All a repair does: stored rows stay unless the broker delivered others, and every
    * row it makes up is a placeholder in a slot that may get one. */
  ghost predicate OnlyFills(before: seq<Bar>, fetch: Fetch, after: seq<Bar>, now: int) {
    forall ts: int ::
      if Fetched(fetch, ts) then Lookup(after, ts) in {Lookup(before, ts), Lookup(fetch.candles, ts)}
      else if Lookup(before, ts).Some? then Lookup(after, ts) == Lookup(before, ts)
      else Lookup(after, ts).Some? ==>
             Lookup(after, ts) == Some(Bar(ts, 0, 0, 0, 0, 0, 0)) && MayBeFilled(before, fetch, ts, now)
  }

  lemma {:induction false} NothingFills(before: seq<Bar>, fetch: Fetch, now: int)
    ensures OnlyFills(before, fetch, before, now)
  {
    hide Lookup;
  }

  lemma {:induction false} FetchFills(before: seq<Bar>, fetch: Fetch, now: int)
    requires Increasing(before) && fetch.Delivered?
    ensures OnlyFills(before, fetch, UpsertAll(before, fetch.candles), now)
  {
    hide Lookup, UpsertAll, Increasing;
    forall ts: int {
      UpsertAllLookup(before, fetch.candles, ts);
    }
  }

  lemma {:induction false} LaterRowKnown(before: seq<Bar>, rows: seq<Bar>, ts: int)
    requires Increasing(before) && UpsertAll(before, rows) != [] && Increasing(UpsertAll(before, rows))
    requires var saved := UpsertAll(before, rows); ts < saved[|saved| - 1].ts
    ensures exists c :: (c in before || c in rows) && ts < c.ts
  {
    hide UpsertAll, Increasing;
    var saved := UpsertAll(before, rows);
    var last := saved[|saved| - 1];
    StoredRow(saved, last);
    UpsertAllLookup(before, rows, last.ts);
    if Lookup(rows, last.ts).Some? {
      LookupIn(rows, last.ts);
    } else {
      LookupIn(before, last.ts);
    }
  }

  lemma {:induction false} PlaceholderFits(before: seq<Bar>, fetch: Fetch, n: nat, now: int, ts: int)
    requires M5Series(before) && fetch.Delivered? && OnSlots(fetch.candles)
    requires var saved := UpsertAll(before, fetch.candles);
             saved != [] && InWindow(ts, WindowEnd(saved, now), n) && Lookup(saved, ts).None?
    ensures MayBeFilled(before, fetch, ts, now)
  {
    hide UpsertAll, Increasing, M5Series, WindowEnd, Lookup, OnSlots;
    var saved := UpsertAll(before, fetch.candles);
    SeriesIncreasing(before);
    UpsertAllSeries(before, fetch.candles);
    SeriesIncreasing(saved);
    WindowEndAligned(saved, now);
    EndIs(saved, now);
    NewestOverIs(now, LatestCompletedM5Open(now));
    if ts + 5 > now {
      StoredRow(saved, saved[|saved| - 1]);
      assert ts <= saved[|saved| - 1].ts;
      LaterRowKnown(before, fetch.candles, ts);
    }
  }

  lemma {:induction false} RepairFills(before: seq<Bar>, fetch: Fetch, after: seq<Bar>, n: nat, now: int)
    requires M5Series(before) && fetch.Delivered? && OnSlots(fetch.candles)
    requires forall ts :: Lookup(after, ts) == FilledAt(UpsertAll(before, fetch.candles), n, now, ts)
    ensures OnlyFills(before, fetch, after, now)
  {
    hide Lookup, UpsertAll, Increasing, M5Series, InWindow, WindowEnd, OnSlots, MayBeFilled;
    SeriesIncreasing(before);
    forall ts: int
      ensures if Fetched(fetch, ts) then Lookup(after, ts) in {Lookup(before, ts), Lookup(fetch.candles, ts)}
              else if Lookup(before, ts).Some? then Lookup(after, ts) == Lookup(before, ts)
              else Lookup(after, ts).Some? ==>
                     Lookup(after, ts) == Some(Bar(ts, 0, 0, 0, 0, 0, 0)) && MayBeFilled(before, fetch, ts, now)
    {
      UpsertAllLookup(before, fetch.candles, ts);
      if Lookup(UpsertAll(before, fetch.candles), ts).None? && Lookup(after, ts).Some? {
        PlaceholderFits(before, fetch, n, now, ts);
      }
    }
  }

  // ------------------------------------------------------------- the repair itself

  /** The repair of a registered pair returns normally: the window is complete, or
    * the broker answers and no store call that is made raises. */
  ghost predicate RepairReturns(stored: seq<Bar>, n: int, now1: int, now2: int, fetch: Fetch, fault: Option<StoreCall>) {
    && fault != Some(FirstRead)
    && (WindowComplete(stored, n, now1) ||
        (&& fetch.Delivered?
         && (fault == Some(SaveFetched) ==> fetch.candles == [])
         && fault != Some(SecondRead)
         && (fault == Some(SaveNulls) ==>
               var saved := UpsertAll(stored, fetch.candles); saved == [] || WindowComplete(saved, n, now2))))
  }

  /** The repair raises when the fetched candles are already stored; they stay. */
  ghost predicate RaisesAfterFetch(stored: seq<Bar>, n: int, now1: int, fetch: Fetch, fault: Option<StoreCall>) {
    !WindowComplete(stored, n, now1) && fetch.Delivered? && (fault == Some(SecondRead) || fault == Some(SaveNulls))
  }

  lemma {:induction false} EmptyNotComplete(n: int, now: int)
    ensures n > 0 ==> !WindowComplete([], n, now)
  {
    if n > 0 {
      assert InWindow(WindowEnd([], now), WindowEnd([], now), n);
    }
  }

  /** A repair that raises early did so before the broker's answer was stored. */
  lemma {:induction false} RepairOutcome(stored: seq<Bar>, n: int, now1: int, now2: int, fetch: Fetch,
                                         fault: Option<StoreCall>)
    ensures RaisesAfterFetch(stored, n, now1, fetch, fault) ==> fetch.Delivered? && !WindowComplete(stored, n, now1)
    ensures RepairReturns(stored, n, now1, now2, fetch, fault) && !WindowComplete(stored, n, now1) ==> fetch.Delivered?
  {
  }

  class Container {
    var rows: seq<Bar>
    var registered: bool

    constructor (tracked: bool)
      ensures rows == [] && registered == tracked
    {
      rows := [];
      registered := tracked;
    }

    /** `_ensure_m5_complete_for_read`: fetch from the broker when slots are
      * missing, then fill what is still missing with null placeholders.
      * `now1` and `now2` are the clock readings before and after the fetch;
      * `fault` is the store call that raises, if the repair gets to it. */
    method EnsureComplete(n: int, now1: int, now2: int, fetch: Fetch, fault: Option<StoreCall>) returns (ok: bool)
      requires M5Series(rows) && (fetch.Delivered? ==> OnSlots(fetch.candles))
      modifies this`rows
      ensures M5Series(rows)
      ensures n <= 0 || !registered || WindowComplete(old(rows), n, now1) ==> rows == old(rows)
      ensures ok <==> n <= 0 || !registered || RepairReturns(old(rows), n, now1, now2, fetch, fault)
      ensures !ok ==> rows == if RaisesAfterFetch(old(rows), n, now1, fetch, fault)
                              then UpsertAll(old(rows), fetch.candles) else old(rows)
      ensures ok && n > 0 && registered && !WindowComplete(old(rows), n, now1) ==>
                forall ts :: Lookup(rows, ts) == FilledAt(UpsertAll(old(rows), fetch.candles), n, now2, ts)
      ensures OnlyFills(old(rows), fetch, rows, now2)
      ensures old(rows) != [] && FilledTo(old(rows), n, now1) ==> rows == old(rows)
      ensures ok && n > 0 && registered && rows != [] ==>
                FilledTo(rows, n, if old(rows) != [] && FilledTo(old(rows), n, now1) then now1 else now2)
    {
      hide *;
      ghost var before := rows;
      SeriesIncreasing(before);
      NothingFills(before, fetch, now2);
      EmptyNotComplete(n, now1);
      if before != [] {
        FilledIff(before, n, now1);
      }
      if n <= 0 || !registered {
        return true;
      }
      ok := Repair(n, now1, now2, fetch, fault);
      SeriesIncreasing(rows);
      if rows != [] {
        FilledIff(rows, n, now2);
      }
      if fetch.Delivered? {
        FetchFills(before, fetch, now2);
        if ok && !WindowComplete(before, n, now1) {
          RepairFills(before, fetch, rows, n, now2);
        }
      }
      RepairOutcome(before, n, now1, now2, fetch, fault);
    }

    /** The part under the pair's lock. */
    method Repair(n: nat, now1: int, now2: int, fetch: Fetch, fault: Option<StoreCall>) returns (ok: bool)
      requires n > 0 && M5Series(rows) && (fetch.Delivered? ==> OnSlots(fetch.candles))
      modifies this`rows
      ensures M5Series(rows)
      ensures WindowComplete(old(rows), n, now1) ==> rows == old(rows)
      ensures ok <==> RepairReturns(old(rows), n, now1, now2, fetch, fault)
      ensures !ok ==> rows == if RaisesAfterFetch(old(rows), n, now1, fetch, fault)
                              then UpsertAll(old(rows), fetch.candles) else old(rows)
      ensures ok && rows != [] ==>
                WindowComplete(rows, n, if WindowComplete(old(rows), n, now1) then now1 else now2)
      ensures ok && !WindowComplete(old(rows), n, now1) ==>
                forall ts :: Lookup(rows, ts) == FilledAt(UpsertAll(old(rows), fetch.candles), n, now2, ts)
    {
      if fault == Some(FirstRead) {
        return false;
      }
      var missing := MissingBefore(rows, n, now1);
      if missing == [] {
        return true;
      }
      if fetch.Raised? {
        return false;
      }
      UpsertAllSeries(rows, fetch.candles);
      if fetch.candles != [] {
        if fault == Some(SaveFetched) {
          return false;
        }
        rows := UpsertAll(rows, fetch.candles);
      }
      if fault == Some(SecondRead) {
        return false;
      }
      if Newest(rows, n) == [] {
        return true;
      }
      missing := MissingBefore(rows, n, now2);
      FillWindow(rows, missing, n, now2);
      if missing != [] {
        if fault == Some(SaveNulls) {
          return false;
        }
        rows := UpsertAll(rows, Nulls(missing));
      }
      return true;
    }

    /** `get_candles` for M5; `readFails` says whether the read itself raises. */
    method GetM5Candles(limit: nat, start: Option<int>, now1: int, now2: int, fetch: Fetch, fault: Option<StoreCall>,
                        readFails: bool) returns (r: Option<seq<Bar>>)
      requires M5Series(rows) && (fetch.Delivered? ==> OnSlots(fetch.candles))
      modifies this`rows
      ensures M5Series(rows) && Increasing(rows)
      ensures start.Some? || limit == 0 ==> rows == old(rows) && (r.None? <==> readFails)
      ensures r.None? && !readFails ==>
                rows == if RaisesAfterFetch(old(rows), limit, now1, fetch, fault)
                        then UpsertAll(old(rows), fetch.candles) else old(rows)
      ensures r.Some? ==> CandlesRead(rows, start, limit, r.value)
      ensures r.Some? ==> r.value == ProductionM5(UpTo(rows, start), limit)
      ensures r.Some? && limit > 0 &&
              CountNulls(Newest(UpTo(rows, start), limit + NULL_FILTER_BUFFER_M5)) <= NULL_FILTER_BUFFER_M5 ==>
                r.value == Tail(DropNulls(UpTo(rows, start)), limit)
      ensures r.Some? && start.None? && limit > 0 && registered && rows != [] ==>
                FilledTo(rows, limit, now1) || FilledTo(rows, limit, now2)
      ensures OnlyFills(old(rows), fetch, rows, now2)
    {
      hide *;
      SeriesIncreasing(rows);
      NothingFills(rows, fetch, now2);
      if start.None? {
        var ok := EnsureComplete(limit, now1, now2, fetch, fault);
        SeriesIncreasing(rows);
        if !ok {
          return None;
        }
      }
      if readFails {
        return None;
      }
      var history := UpTo(rows, start);
      if limit > 0 {
        M5WindowExactIff(history, limit);
      }
      ReadsCandles(rows, start, limit);
      r := Some(ProductionM5(history, limit));
    }

    /** `get_candles` for a derived timeframe of `k` M5 slots: repair first
      * unless an anchor asks for the past, then read the newest rows only. */
    method GetCandles(limit: nat, k: nat, g: Buckets, start: Option<int>, now1: int, now2: int, fetch: Fetch,
                      fault: Option<StoreCall>, readFails: bool) returns (r: Option<seq<Bar>>)
      requires M5Series(rows) && (fetch.Delivered? ==> OnSlots(fetch.candles))
      requires M5Grid(g) && g.minutes == 5 * k
      modifies this`rows
      ensures M5Series(rows) && Increasing(rows)
      ensures start.Some? ==> rows == old(rows) && (r.None? <==> readFails)
      ensures r.None? && !readFails ==>
                rows == if RaisesAfterFetch(old(rows), limit * k + k, now1, fetch, fault)
                        then UpsertAll(old(rows), fetch.candles) else old(rows)
      ensures r.Some? ==> BarsRead(rows, start, limit, k, g.offset, r.value)
      ensures r.Some? ==> r.value == WindowBars(UpTo(rows, start), limit, k, g)
      ensures r.Some? && limit > 0 &&
              CountNulls(Newest(UpTo(rows, start), RowsRead(limit, k))) <= NULL_FILTER_BUFFER_M5 ==>
                r.value == Tail(Grouped(DropNulls(UpTo(rows, start)), g), limit)
      ensures r.Some? && start.None? && registered && rows != [] ==>
                FilledTo(rows, limit * k + k, now1) || FilledTo(rows, limit * k + k, now2)
      ensures OnlyFills(old(rows), fetch, rows, now2)
    {
      hide *;
      SeriesIncreasing(rows);
      SlotsNeeded(limit, k, g);
      NothingFills(rows, fetch, now2);
      if start.None? {
        var ok := EnsureComplete(limit * k + k, now1, now2, fetch, fault);
        SeriesIncreasing(rows);
        if !ok {
          return None;
        }
      }
      if readFails {
        return None;
      }
      AnchoredSeries(rows, start);
      var history := UpTo(rows, start);
      if limit > 0 {
        ReadIsExact(history, limit, k, g);
      }
      ReadsBars(rows, start, limit, k, g);
      r := Some(WindowBars(history, limit, k, g));
    }
  }

  lemma {:induction false} SlotsNeeded(limit: nat, k: nat, g: Buckets)
    requires g.minutes == 5 * k
    ensures k > 0 && limit * k + k > 0
  {
    assert limit * k >= 0;
  }

  lemma {:induction false} ReadIsExact(history: seq<Bar>, limit: nat, k: nat, g: Buckets)
    requires M5Series(history) && M5Grid(g) && g.minutes == 5 * k && limit > 0
    ensures CountNulls(Newest(history, RowsRead(limit, k))) <= NULL_FILTER_BUFFER_M5 ==>
              WindowBars(history, limit, k, g) == Tail(Grouped(DropNulls(history), g), limit)
  {
    hide *;
    if CountNulls(Newest(history, RowsRead(limit, k))) <= NULL_FILTER_BUFFER_M5 {
      WindowExact(history, limit, k, g);
    }
  }

  /** Read the newest rows and look for missing slots among them. */
  method MissingBefore(rows: seq<Bar>, n: nat, now: int) returns (missing: seq<int>)
    requires M5Series(rows) && n > 0
    ensures Reports(missing, rows, n, now)
    ensures missing == [] <==> WindowComplete(rows, n, now)
  {
    missing := MissingSlots(Newest(rows, n), n, now);
    NewestEnd(rows, n, now);
    forall ts | InWindow(ts, WindowEnd(rows, now), n)
      ensures Holds(Newest(rows, n), ts) <==> Holds(rows, ts)
    {
      NewestHolds(rows, n, now, ts);
    }
    if missing != [] {
      assert missing[0] in missing;
    }
  }
}
