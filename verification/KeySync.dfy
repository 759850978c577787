/** Mirroring the market keys: the same batched copy by watermark, but the
  * primary key is (timestamp, parameter set), so timestamps repeat. */
module KeySync {
  import opened Wrappers
  import opened Seqs

  const BATCH: nat := 20_000

  datatype KeyRow = KeyRow(ts: int, params: string, key: string)

  /** The mirrored rows by primary key, and the watermark. */
  datatype KeyTable = KeyTable(rows: map<(int, string), string>, mark: Option<int>)

  /** Production rows in timestamp order, no primary key twice. */
  predicate KeySeries(prod: seq<KeyRow>) {
    && (forall i, j :: 0 <= i < j < |prod| ==> prod[i].ts <= prod[j].ts)
    && (forall i, j :: 0 <= i < j < |prod| ==> (prod[i].ts, prod[i].params) != (prod[j].ts, prod[j].params))
  }

  /** SELECT ... WHERE timestamp > mark ORDER BY timestamp. */
  function KeysAfter(prod: seq<KeyRow>, mark: Option<int>): seq<KeyRow> {
    if prod == [] || mark.None? then prod
    else if prod[0].ts <= mark.value then KeysAfter(prod[1..], mark)
    else prod
  }

  function Limit(rows: seq<KeyRow>, n: nat): seq<KeyRow> {
    if |rows| <= n then rows else rows[..n]
  }

  function Stored(rows: map<(int, string), string>, batch: seq<KeyRow>): map<(int, string), string> {
    if batch == [] then rows
    else
      var r := batch[|batch| - 1];
      Stored(rows, batch[..|batch| - 1])[(r.ts, r.params) := r.key]
  }

  function KeyPass(t: KeyTable, prod: seq<KeyRow>): KeyTable {
    var batch := Limit(KeysAfter(prod, t.mark), BATCH);
    if batch == [] then t else KeyTable(Stored(t.rows, batch), Some(batch[|batch| - 1].ts))
  }

  class KeyMirror {
    var table: KeyTable

    constructor ()
      ensures table == KeyTable(map[], None)
    {
      table := KeyTable(map[], None);
    }

    /** `sync_keys`. */
    method SyncKeys(prod: seq<KeyRow>) returns (n: nat)
      modifies this
      ensures table == KeyPass(old(table), prod)
      ensures n == |Limit(KeysAfter(prod, old(table).mark), BATCH)|
      ensures KeySeries(prod) ==> CopiesNext(old(table), prod, table, n)
    {
      hide CopiesNext, KeySeries;
      if KeySeries(prod) {
        KeyPassCopies(table, prod);
      }
      var batch := Limit(KeysAfter(prod, table.mark), BATCH);
      if batch == [] {
        return 0;
      }
      var before := table.rows;
      var rows, i := before, 0;
      while i < |batch|
        invariant i <= |batch|
        invariant rows == Stored(before, batch[..i])
      {
        TakeNext(batch, i);
        rows := rows[(batch[i].ts, batch[i].params) := batch[i].key];
        i := i + 1;
      }
      TakeAll(batch);
      table := KeyTable(rows, Some(batch[|batch| - 1].ts));
      return |batch|;
    }
  }

  // ------------------------------------------------------ what a pass loses

  predicate UpToMark(ts: int, mark: Option<int>) {
    mark.Some? && ts <= mark.value
  }

  /** Nothing mirrored lies beyond the watermark. */
  ghost predicate WithinMark(t: KeyTable) {
    forall k :: k in t.rows ==> UpToMark(k.0, t.mark)
  }

  /** Every production row up to the watermark is mirrored. Rows above it are
    * still to come; rows below it are never read again. */
  ghost predicate CompleteUpToMark(t: KeyTable, prod: seq<KeyRow>) {
    forall r :: r in prod && UpToMark(r.ts, t.mark) ==> (r.ts, r.params) in t.rows && t.rows[(r.ts, r.params)] == r.key
  }

  /** The batch ends between two rows of the same timestamp. */
  predicate BatchSplitsTie(rows: seq<KeyRow>) {
    |rows| > BATCH && rows[BATCH - 1].ts == rows[BATCH].ts
  }

  lemma {:induction false} KeysAfterSuffix(prod: seq<KeyRow>, mark: Option<int>) returns (n: nat)
    requires KeySeries(prod)
    ensures n <= |prod| && KeysAfter(prod, mark) == prod[n..]
    ensures forall i :: 0 <= i < |prod| ==> (UpToMark(prod[i].ts, mark) <==> i < n)
  {
    if prod == [] || mark.None? || prod[0].ts > mark.value {
      n := 0;
    } else {
      var m := KeysAfterSuffix(prod[1..], mark);
      n := m + 1;
      assert prod[1..][m..] == prod[n..];
      forall i | 0 <= i < |prod|
        ensures UpToMark(prod[i].ts, mark) <==> i < n
      {
        assert i > 0 ==> prod[i] == prod[1..][i - 1];
      }
    }
  }

  lemma {:induction false} StoredRows(rows: map<(int, string), string>, batch: seq<KeyRow>, k: (int, string))
    requires forall i, j :: 0 <= i < j < |batch| ==> (batch[i].ts, batch[i].params) != (batch[j].ts, batch[j].params)
    ensures k in Stored(rows, batch) <==> k in rows || exists i :: 0 <= i < |batch| && (batch[i].ts, batch[i].params) == k
    ensures forall i :: 0 <= i < |batch| && (batch[i].ts, batch[i].params) == k ==> Stored(rows, batch)[k] == batch[i].key
    ensures k in rows && (forall i :: 0 <= i < |batch| ==> (batch[i].ts, batch[i].params) != k) ==>
              Stored(rows, batch)[k] == rows[k]
  {
    if batch != [] {
      StoredRows(rows, batch[..|batch| - 1], k);
    }
  }

  lemma {:induction false} KeyPassRows(t: KeyTable, prod: seq<KeyRow>) returns (n: nat, m: nat)
    requires KeySeries(prod)
    ensures n <= m <= |prod| && KeysAfter(prod, t.mark) == prod[n..] && Limit(prod[n..], BATCH) == prod[n..m]
    ensures forall i :: 0 <= i < |prod| ==> (UpToMark(prod[i].ts, t.mark) <==> i < n)
    ensures n == m ==> KeyPass(t, prod) == t && m == |prod|
    ensures n < m ==> KeyPass(t, prod) == KeyTable(Stored(t.rows, prod[n..m]), Some(prod[m - 1].ts))
    ensures BatchSplitsTie(prod[n..]) <==> n < m < |prod| && prod[m - 1].ts == prod[m].ts
  {
    n := KeysAfterSuffix(prod, t.mark);
    m := if |prod| - n <= BATCH then |prod| else n + BATCH;
  }

  lemma {:induction false} StoredSlice(rows: map<(int, string), string>, prod: seq<KeyRow>, n: nat, m: nat,
                                       k: (int, string))
    requires KeySeries(prod) && n <= m <= |prod|
    ensures k in Stored(rows, prod[n..m]) <==> k in rows || exists i :: n <= i < m && (prod[i].ts, prod[i].params) == k
    ensures forall i :: n <= i < m && (prod[i].ts, prod[i].params) == k ==> Stored(rows, prod[n..m])[k] == prod[i].key
    ensures k in rows && (forall i :: n <= i < m ==> (prod[i].ts, prod[i].params) != k) ==>
              Stored(rows, prod[n..m])[k] == rows[k]
  {
    var batch := prod[n..m];
    StoredRows(rows, batch, k);
    assert forall i :: n <= i < m ==> prod[i] == batch[i - n];
  }

  // ------------------------------------------------------ a pass, row by row

  /** Rows `i` up to `j` are stored under their primary keys, and nothing else changes. */
  ghost predicate Stores(before: map<(int, string), string>, prod: seq<KeyRow>, i: nat, j: nat,
                         after: map<(int, string), string>)
    requires j <= |prod|
  {
    && (forall k :: i <= k < j ==>
          (prod[k].ts, prod[k].params) in after && after[(prod[k].ts, prod[k].params)] == prod[k].key)
    && (forall key :: key in before ==> key in after)
    && forall key :: key in after && (forall k :: i <= k < j ==> (prod[k].ts, prod[k].params) != key) ==>
                       key in before && after[key] == before[key]
  }

  /** A pass stores the next rows above the watermark, 20 000 at most, and sets the
    * watermark to the last of them. */
  ghost predicate CopiesFrom(t: KeyTable, prod: seq<KeyRow>, u: KeyTable, i: nat, j: nat) {
    && i <= j <= |prod| && j == (if |prod| - i <= 20_000 then |prod| else i + 20_000)
    && (t.mark.None? ==> i == 0)
    && (t.mark.Some? ==> forall k :: 0 <= k < |prod| ==> (k < i <==> prod[k].ts <= t.mark.value))
    && u.mark == (if i == j then t.mark else Some(prod[j - 1].ts))
    && Stores(t.rows, prod, i, j, u.rows)
  }

  ghost predicate CopiesNext(t: KeyTable, prod: seq<KeyRow>, u: KeyTable, n: nat) {
    exists i: nat, j: nat :: CopiesFrom(t, prod, u, i, j) && j - i == n
  }

  lemma {:induction false} SliceStores(rows: map<(int, string), string>, prod: seq<KeyRow>, n: nat, m: nat)
    requires KeySeries(prod) && n <= m <= |prod|
    ensures Stores(rows, prod, n, m, Stored(rows, prod[n..m]))
  {
    hide KeySeries, Stored;
    forall key {
      StoredSlice(rows, prod, n, m, key);
    }
  }

  lemma {:induction false} NothingStores(rows: map<(int, string), string>, prod: seq<KeyRow>, n: nat)
    requires n <= |prod|
    ensures Stores(rows, prod, n, n, rows)
  {
  }

  lemma {:induction false} KeyPassCopies(t: KeyTable, prod: seq<KeyRow>)
    requires KeySeries(prod)
    ensures CopiesNext(t, prod, KeyPass(t, prod), |Limit(KeysAfter(prod, t.mark), BATCH)|)
  {
    hide KeyPass, KeysAfter, Limit, KeySeries, Stores, Stored;
    var n, m := KeyPassRows(t, prod);
    LimitLength(prod[n..]);
    SliceStores(t.rows, prod, n, m);
    NothingStores(t.rows, prod, n);
    assert |prod[n..m]| == m - n && |prod[n..]| == |prod| - n;
    assert Stores(t.rows, prod, n, m, KeyPass(t, prod).rows);
    assert prod != [] ==> (UpToMark(prod[0].ts, t.mark) <==> 0 < n);
    assert t.mark.Some? ==> forall k :: 0 <= k < |prod| ==> (k < n <==> prod[k].ts <= t.mark.value);
    assert CopiesFrom(t, prod, KeyPass(t, prod), n, m);
  }

  lemma {:induction false} LimitLength(rows: seq<KeyRow>)
    ensures |Limit(rows, BATCH)| == if |rows| <= 20_000 then |rows| else 20_000
  {
  }

  /** The first row of a split tie is skipped ... */
  lemma {:induction false} TieIsLost(t: KeyTable, prod: seq<KeyRow>, n: nat, m: nat)
    requires KeySeries(prod) && WithinMark(t) && n < m < |prod| && prod[m - 1].ts == prod[m].ts
    requires !UpToMark(prod[m].ts, t.mark)
    ensures !CompleteUpToMark(KeyTable(Stored(t.rows, prod[n..m]), Some(prod[m - 1].ts)), prod)
  {
    var k := (prod[m].ts, prod[m].params);
    StoredSlice(t.rows, prod, n, m, k);
    assert k !in t.rows;
    assert prod[m] in prod;
  }

  /** ... and without a split tie nothing is. */
  lemma {:induction false} RowIsKept(t: KeyTable, prod: seq<KeyRow>, n: nat, m: nat, i: nat)
    requires KeySeries(prod) && CompleteUpToMark(t, prod) && n < m <= |prod|
    requires m < |prod| ==> prod[m - 1].ts < prod[m].ts
    requires i < |prod| && (UpToMark(prod[i].ts, t.mark) <==> i < n) && prod[i].ts <= prod[m - 1].ts
    ensures var rows, k := Stored(t.rows, prod[n..m]), (prod[i].ts, prod[i].params);
            k in rows && rows[k] == prod[i].key
  {
    var k := (prod[i].ts, prod[i].params);
    StoredSlice(t.rows, prod, n, m, k);
    assert i < m;
    if i < n {
      assert prod[i] in prod;
      assert forall j :: n <= j < m ==> (prod[j].ts, prod[j].params) != k;
    }
  }

  /** A pass keeps every row up to the new watermark exactly when its batch does
    * not end inside a group of equal timestamps; otherwise the rest of that
    * group is skipped; for good, by `SplitTieIsLostForGood`. */
  lemma {:induction false} KeyPassCompleteIff(t: KeyTable, prod: seq<KeyRow>)
    requires KeySeries(prod) && WithinMark(t) && CompleteUpToMark(t, prod)
    ensures WithinMark(KeyPass(t, prod))
    ensures CompleteUpToMark(KeyPass(t, prod), prod) <==> !BatchSplitsTie(KeysAfter(prod, t.mark))
  {
    var n, m := KeyPassRows(t, prod);
    var t' := KeyPass(t, prod);
    hide KeyPass, KeysAfter, Limit, BatchSplitsTie;
    if n < m {
      MarkMovesOn(t, prod, n, m);
      if m < |prod| && prod[m - 1].ts == prod[m].ts {
        TieIsLost(t, prod, n, m);
      } else {
        forall r | r in prod && UpToMark(r.ts, t'.mark)
          ensures (r.ts, r.params) in t'.rows && t'.rows[(r.ts, r.params)] == r.key
        {
          var i :| 0 <= i < |prod| && prod[i] == r;
          RowIsKept(t, prod, n, m, i);
        }
      }
    }
  }

  lemma {:induction false} MarkMovesOn(t: KeyTable, prod: seq<KeyRow>, n: nat, m: nat)
    requires KeySeries(prod) && WithinMark(t) && n < m <= |prod| && !UpToMark(prod[n].ts, t.mark)
    ensures WithinMark(KeyTable(Stored(t.rows, prod[n..m]), Some(prod[m - 1].ts)))
  {
    var rows := Stored(t.rows, prod[n..m]);
    assert prod[n].ts <= prod[m - 1].ts;
    forall k | k in rows
      ensures k.0 <= prod[m - 1].ts
    {
      StoredSlice(t.rows, prod, n, m, k);
      if k in t.rows {
        assert UpToMark(k.0, t.mark);
      } else {
        var i :| n <= i < m && (prod[i].ts, prod[i].params) == k;
        assert i < m - 1 ==> prod[i].ts <= prod[m - 1].ts;
      }
    }
  }

  // --------------------------------------------------------------- for good

  /** The mirror after a pass over each of the production tables, first to last. */
  function AfterPasses(t: KeyTable, prods: seq<seq<KeyRow>>): KeyTable {
    if prods == [] then t else KeyPass(AfterPasses(t, prods[..|prods| - 1]), prods[|prods| - 1])
  }

  lemma {:induction false} PassSkips(t: KeyTable, prod: seq<KeyRow>, k: (int, string))
    requires KeySeries(prod) && UpToMark(k.0, t.mark) && k !in t.rows
    ensures UpToMark(k.0, KeyPass(t, prod).mark) && k !in KeyPass(t, prod).rows
  {
    var n, m := KeyPassRows(t, prod);
    hide KeyPass, KeysAfter, Limit;
    if n < m {
      StoredSlice(t.rows, prod, n, m, k);
      assert !UpToMark(prod[n].ts, t.mark) && !UpToMark(prod[m - 1].ts, t.mark);
    }
  }

  /** A row at or below the watermark that is not mirrored is never mirrored
    * again, whatever production holds at the later passes. */
  lemma {:induction false} SkippedForGood(t: KeyTable, prods: seq<seq<KeyRow>>, k: (int, string))
    requires forall p :: p in prods ==> KeySeries(p)
    requires UpToMark(k.0, t.mark) && k !in t.rows
    ensures var after := AfterPasses(t, prods); UpToMark(k.0, after.mark) && k !in after.rows
  {
    hide KeySeries, KeyPass;
    if prods != [] {
      var init, last := prods[..|prods| - 1], prods[|prods| - 1];
      assert last in prods && forall p :: p in init ==> p in prods;
      SkippedForGood(t, init, k);
      PassSkips(AfterPasses(t, init), last, k);
    }
  }

  /** When a batch ends between two rows of the same timestamp, the second of them
    * never reaches the mirror. */
  lemma {:induction false} SplitTieIsLostForGood(t: KeyTable, prod: seq<KeyRow>, later: seq<seq<KeyRow>>)
    requires KeySeries(prod) && WithinMark(t) && BatchSplitsTie(KeysAfter(prod, t.mark))
    requires forall p :: p in later ==> KeySeries(p)
    ensures var r := KeysAfter(prod, t.mark)[BATCH];
            r in prod && (r.ts, r.params) !in AfterPasses(KeyPass(t, prod), later).rows
  {
    var n, m := KeyPassRows(t, prod);
    var rest := prod[n..];
    assert |rest| > BATCH;
    assert rest[BATCH] == prod[n + BATCH] && rest[BATCH - 1] == prod[n + BATCH - 1];
    var r := rest[BATCH];
    hide KeyPass, KeysAfter;
    StoredSlice(t.rows, prod, n, m, (r.ts, r.params));
    assert m == n + BATCH by {
      assert |prod[n..m]| == BATCH;
    }
    assert !UpToMark(r.ts, t.mark);
    SkippedForGood(KeyPass(t, prod), later, (r.ts, r.params));
  }
}
