/** Candle tables: rows with a timestamp as primary key, kept in timestamp
  * order, written with INSERT OR REPLACE. */
module Tables {
  import opened Seqs
  import opened Wrappers
  import opened Candles

  /** INSERT OR REPLACE of one row. */
  function Upsert(t: seq<Bar>, r: Bar): seq<Bar> {
    if t == [] then [r]
    else
      var last := t[|t| - 1];
      if last.ts < r.ts then t + [r]
      else if last.ts == r.ts then t[..|t| - 1] + [r]
      else Upsert(t[..|t| - 1], r) + [last]
  }

  /** INSERT OR REPLACE of `rows`, first to last. */
  function UpsertAll(t: seq<Bar>, rows: seq<Bar>): seq<Bar> {
    if rows == [] then t else Upsert(UpsertAll(t, rows[..|rows| - 1]), rows[|rows| - 1])
  }

  function Lookup(t: seq<Bar>, ts: int): Option<Bar> {
    if t == [] then None
    else if t[|t| - 1].ts == ts then Some(t[|t| - 1])
    else Lookup(t[..|t| - 1], ts)
  }

  /** How many rows have a timestamp up to `x`; on an ordered table the index of the first later row. */
  function CountUpTo(t: seq<Bar>, x: int): (n: nat)
    requires Increasing(t)
    ensures n <= |t|
    ensures forall i :: 0 <= i < n ==> t[i].ts <= x
    ensures forall i :: n <= i < |t| ==> x < t[i].ts
  {
    if t == [] then 0
    else if t[|t| - 1].ts <= x then |t|
    else CountUpTo(t[..|t| - 1], x)
  }

  /** SELECT ... WHERE timestamp > mark ORDER BY timestamp; everything when there is no mark. */
  function RowsAfter(t: seq<Bar>, mark: Option<int>): seq<Bar>
    requires Increasing(t)
  {
    if mark.None? then t else t[CountUpTo(t, mark.value)..]
  }

  /** SELECT ... WHERE timestamp >= since ORDER BY timestamp; everything when `since` is absent. */
  function RowsFrom(t: seq<Bar>, since: Option<int>): seq<Bar>
    requires Increasing(t)
  {
    if since.None? then t else t[CountUpTo(t, since.value - 1)..]
  }

  lemma {:induction false} CountUnique(t: seq<Bar>, x: int, n: nat)
    requires Increasing(t) && n <= |t|
    requires n > 0 ==> t[n - 1].ts <= x
    requires n < |t| ==> x < t[n].ts
    ensures CountUpTo(t, x) == n
  {
  }

  lemma {:induction false} SliceIncreasing(t: seq<Bar>, i: nat, j: nat)
    requires Increasing(t) && i <= j <= |t|
    ensures Increasing(t[i..j])
  {
  }

  lemma {:induction false} SplitIncreasing(t: seq<Bar>, k: nat)
    requires Increasing(t) && k <= |t|
    ensures Increasing(t[..k]) && Increasing(t[k..])
  {
  }

  // ------------------------------------------------------ what a write does

  lemma {:induction false} UpsertKeeps(t: seq<Bar>, r: Bar)
    requires Increasing(t)
    ensures Increasing(Upsert(t, r))
    ensures Upsert(t, r) != [] && Upsert(t, r)[|Upsert(t, r)| - 1].ts ==
            if t == [] then r.ts else Max(t[|t| - 1].ts, r.ts)
  {
    if t != [] && r.ts < t[|t| - 1].ts {
      var init, last := t[..|t| - 1], t[|t| - 1];
      UpsertKeeps(init, r);
      if init != [] {
        assert init[|init| - 1].ts < last.ts;
      }
      IncreasingAppend(Upsert(init, r), last);
    } else if t != [] && r.ts == t[|t| - 1].ts {
      var init := t[..|t| - 1];
      IncreasingAppend(init, r);
    } else if t != [] {
      IncreasingAppend(t, r);
    }
  }

  lemma {:induction false} IncreasingAppend(t: seq<Bar>, r: Bar)
    requires Increasing(t)
    requires t != [] ==> t[|t| - 1].ts < r.ts
    ensures Increasing(t + [r])
  {
    forall i, j | 0 <= i < j < |t + [r]|
      ensures (t + [r])[i].ts < (t + [r])[j].ts
    {
      if j == |t| && i < |t| - 1 {
        assert t[i].ts < t[|t| - 1].ts;
      }
    }
  }

  lemma {:induction false} UpsertLookup(t: seq<Bar>, r: Bar, ts: int)
    requires Increasing(t)
    ensures Lookup(Upsert(t, r), ts) == if ts == r.ts then Some(r) else Lookup(t, ts)
  {
    if t != [] {
      var init, last := t[..|t| - 1], t[|t| - 1];
      if last.ts < r.ts {
        assert (t + [r])[..|t + [r]| - 1] == t;
      } else if last.ts == r.ts {
        assert (init + [r])[..|init + [r]| - 1] == init;
      } else {
        UpsertLookup(init, r, ts);
        var u := Upsert(init, r) + [last];
        assert u[..|u| - 1] == Upsert(init, r);
      }
    }
  }

  /** Writing a row that is already there changes nothing. */
  lemma {:induction false} UpsertSame(t: seq<Bar>, i: nat)
    requires Increasing(t) && i < |t|
    ensures Upsert(t, t[i]) == t
  {
    if i == |t| - 1 {
      assert t[..|t| - 1] + [t[i]] == t;
    } else {
      UpsertSame(t[..|t| - 1], i);
      assert t[..|t| - 1] + [t[|t| - 1]] == t;
    }
  }

  lemma {:induction false} OverlayLast(s: seq<Bar>, m: nat, i: nat)
    requires Increasing(s) && i <= m <= |s| && i < |s|
    ensures Upsert(s[..m], s[i]) == s[..if i < m then m else i + 1]
  {
    if i < m {
      SplitIncreasing(s, m);
      assert s[..m][i] == s[i];
      UpsertSame(s[..m], i);
    } else {
      TakeNext(s, i);
      assert m > 0 ==> s[m - 1].ts < s[m].ts;
    }
  }

  /** Copying rows `i..j` of an ordered series over its first `n >= i` rows
    * leaves exactly the longer of the two prefixes. */
  lemma {:induction false} Overlay(s: seq<Bar>, n: nat, i: nat, j: nat)
    requires Increasing(s) && i <= n <= |s| && i <= j <= |s|
    ensures UpsertAll(s[..n], s[i..j]) == s[..if n >= j then n else j]
  {
    hide Increasing, Upsert;
    if i == j {
      assert s[i..j] == [];
    } else {
      Overlay(s, n, i, j - 1);
      SliceDropLast(s, i, j);
      OverlayLast(s, if n >= j - 1 then n else j - 1, j - 1);
    }
  }

  lemma {:induction false} UpsertAllKeeps(t: seq<Bar>, rows: seq<Bar>)
    requires Increasing(t)
    ensures Increasing(UpsertAll(t, rows))
  {
    if rows != [] {
      UpsertAllKeeps(t, rows[..|rows| - 1]);
      UpsertKeeps(UpsertAll(t, rows[..|rows| - 1]), rows[|rows| - 1]);
    }
  }

  lemma {:induction false} LookupIn(t: seq<Bar>, ts: int)
    requires Lookup(t, ts).Some?
    ensures Lookup(t, ts).value in t && Lookup(t, ts).value.ts == ts
  {
    if t[|t| - 1].ts != ts {
      LookupIn(t[..|t| - 1], ts);
    }
  }

  /** A row written among the earlier rows leaves the later ones alone. */
  lemma {:induction false} UpsertBefore(a: seq<Bar>, b: seq<Bar>, r: Bar)
    requires forall c :: c in b ==> r.ts < c.ts
    ensures Upsert(a + b, r) == Upsert(a, r) + b
  {
    if b == [] {
      assert a + b == a && Upsert(a, r) + b == Upsert(a, r);
    } else {
      var init, last := b[..|b| - 1], b[|b| - 1];
      DropLastConcat(a, b);
      assert last in b && forall c :: c in init ==> c in b;
      UpsertBefore(a, init, r);
      assert Upsert(a, r) + init + [last] == Upsert(a, r) + (init + [last]);
      assert init + [last] == b;
    }
  }

  // ------------------------------------------------------ tables as lookups

  predicate Holds(rows: seq<Bar>, ts: int) {
    exists c :: c in rows && c.ts == ts
  }

  lemma {:induction false} LookupIffHolds(t: seq<Bar>, ts: int)
    ensures Lookup(t, ts).Some? <==> Holds(t, ts)
  {
    if t != [] {
      LookupIffHolds(t[..|t| - 1], ts);
      HoldsExtend(t[..|t| - 1], t[|t| - 1], ts);
      assert t == t[..|t| - 1] + [t[|t| - 1]];
    }
  }

  lemma {:induction false} HoldsExtend(rows: seq<Bar>, r: Bar, ts: int)
    ensures Holds(rows + [r], ts) <==> Holds(rows, ts) || r.ts == ts
  {
    if Holds(rows, ts) {
      var c :| c in rows && c.ts == ts;
      assert c in rows + [r];
    }
    if r.ts == ts {
      assert r in rows + [r];
    }
  }

  lemma {:induction false} OneMoreRow(t: seq<Bar>, init: seq<Bar>, r: Bar, ts: int)
    ensures UpsertAll(t, init + [r]) == Upsert(UpsertAll(t, init), r)
    ensures Lookup(init + [r], ts) == if r.ts == ts then Some(r) else Lookup(init, ts)
  {
    assert (init + [r])[..|init + [r]| - 1] == init;
  }

  /** Of the rows written for a timestamp the last one counts; where none is
    * written the table keeps its row. */
  lemma {:induction false} UpsertAllLookup(t: seq<Bar>, rows: seq<Bar>, ts: int)
    requires Increasing(t)
    ensures Lookup(UpsertAll(t, rows), ts) == if Lookup(rows, ts).Some? then Lookup(rows, ts) else Lookup(t, ts)
  {
    hide *;
    if rows == [] {
      NothingWritten(t, ts);
    } else {
      var init, r := rows[..|rows| - 1], rows[|rows| - 1];
      assert rows == init + [r];
      UpsertAllLookup(t, init, ts);
      UpsertAllKeeps(t, init);
      UpsertLookup(UpsertAll(t, init), r, ts);
      OneMoreRow(t, init, r, ts);
    }
  }

  lemma {:induction false} NothingWritten(t: seq<Bar>, ts: int)
    ensures UpsertAll(t, []) == t && Lookup([], ts) == None
  {
  }

  lemma {:induction false} UpsertAllConcat(t: seq<Bar>, a: seq<Bar>, b: seq<Bar>)
    ensures UpsertAll(t, a + b) == UpsertAll(UpsertAll(t, a), b)
  {
    hide Upsert;
    if b == [] {
      assert a + b == a;
    } else {
      DropLastConcat(a, b);
      UpsertAllConcat(t, a, b[..|b| - 1]);
    }
  }

  lemma {:induction false} LastLookup(t: seq<Bar>, ts: int)
    requires Increasing(t) && t != []
    ensures Lookup(t, t[|t| - 1].ts) == Some(t[|t| - 1])
    ensures Increasing(t[..|t| - 1])
    ensures Lookup(t[..|t| - 1], ts) == if ts == t[|t| - 1].ts then None else Lookup(t, ts)
    ensures Lookup(t, ts).Some? ==> ts <= t[|t| - 1].ts
  {
    if Lookup(t, ts).Some? {
      LookupIn(t, ts);
    }
    if Lookup(t[..|t| - 1], ts).Some? {
      LookupIn(t[..|t| - 1], ts);
    }
  }

  /** Two ordered tables with the same row for every timestamp are the same. */
  lemma {:induction false} SameLookups(x: seq<Bar>, y: seq<Bar>)
    requires Increasing(x) && Increasing(y) && forall ts :: Lookup(x, ts) == Lookup(y, ts)
    ensures x == y
  {
    hide *;
    if x == [] || y == [] {
      NothingStored(x);
      NothingStored(y);
    } else {
      LastLookup(x, y[|y| - 1].ts);
      LastLookup(y, x[|x| - 1].ts);
      var xi, yi := x[..|x| - 1], y[..|y| - 1];
      forall ts ensures Lookup(xi, ts) == Lookup(yi, ts) {
        LastLookup(x, ts);
        LastLookup(y, ts);
      }
      SameLookups(xi, yi);
      SplitAt(x, |x| - 1);
      SplitAt(y, |y| - 1);
      LastAlone(x);
      LastAlone(y);
    }
  }

  lemma {:induction false} LastAlone(t: seq<Bar>)
    requires t != []
    ensures t[|t| - 1..] == [t[|t| - 1]]
  {
  }

  lemma {:induction false} NothingStored(t: seq<Bar>)
    ensures t == [] ==> forall ts :: Lookup(t, ts) == None
    ensures t != [] ==> Lookup(t, t[|t| - 1].ts).Some?
  {
  }

  /** An ordered table cut at a timestamp. */
  lemma {:induction false} CutLookup(t: seq<Bar>, n: nat, x: int, ts: int)
    requires Increasing(t) && n == CountUpTo(t, x)
    ensures Lookup(t[..n], ts) == if ts <= x then Lookup(t, ts) else None
    ensures Lookup(t[n..], ts) == if ts <= x then None else Lookup(t, ts)
  {
    hide Lookup, CountUpTo;
    SplitIncreasing(t, n);
    FoundIff(t[..n], t, ts);
    FoundIff(t[n..], t, ts);
    if Lookup(t, ts).Some? {
      var i :| 0 <= i < |t| && t[i] == Lookup(t, ts).value;
      if ts <= x {
        assert t[..n][i] == t[i];
      } else {
        assert t[n..][i - n] == t[i];
      }
    }
    if Lookup(t[..n], ts).Some? {
      LookupIn(t[..n], ts);
    }
    if Lookup(t[n..], ts).Some? {
      LookupIn(t[n..], ts);
    }
  }

  /** A part of an ordered table holds a row for `ts` only if the table does, and
    * then the same. */
  lemma {:induction false} FoundIff(part: seq<Bar>, t: seq<Bar>, ts: int)
    requires Increasing(part) && Increasing(t) && forall c :: c in part ==> c in t
    ensures Lookup(part, ts).Some? ==> Lookup(part, ts) == Lookup(t, ts) && Lookup(t, ts).value.ts == ts
    ensures Lookup(t, ts).Some? && Lookup(t, ts).value in part ==> Lookup(part, ts) == Lookup(t, ts)
    ensures Lookup(t, ts).Some? ==> Lookup(t, ts).value in t && Lookup(t, ts).value.ts == ts
  {
    if Lookup(t, ts).Some? {
      LookupIn(t, ts);
    }
    if Lookup(part, ts).Some? {
      LookupIn(part, ts);
      StoredRow(t, Lookup(part, ts).value);
    }
    if Lookup(t, ts).Some? && Lookup(t, ts).value in part {
      StoredRow(part, Lookup(t, ts).value);
    }
  }

  lemma {:induction false} StoredRow(t: seq<Bar>, c: Bar)
    requires Increasing(t) && c in t
    ensures Lookup(t, c.ts) == Some(c)
  {
    if t[|t| - 1] != c {
      StoredRow(t[..|t| - 1], c);
    }
  }
}
