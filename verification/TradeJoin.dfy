/** Copying trades into the reporting mirror: each gets the market key and the
  * spread that held when it was requested. */
module TradeJoin {
  import opened Wrappers
  import opened Seqs

  /** A row of a time series: what holds from `at` on. */
  datatype Mark = Mark(at: int, value: string)

  /** The series of a broker and a pair, in time order; empty where there is no table. */
  type Series = (string, string) -> seq<Mark>

  /** An order of the book; `context` is everything else its row holds. */
  datatype Order = Order(id: string, broker: string, pair: string, requestedAt: Option<int>, openedAt: Option<int>,
                         context: string)

  /** The columns copied from the order or parsed out of its stored context. */
  type Columns = Order -> seq<Option<string>>

  datatype TradeRow = TradeRow(id: string, at: int, columns: seq<Option<string>>, key: Option<string>,
                               spread: Option<string>)

  predicate InTimeOrder(s: seq<Mark>) {
    forall i, j :: 0 <= i < j < |s| ==> s[i].at <= s[j].at
  }

  /** `bisect_right` on the times. */
  function BisectRight(s: seq<Mark>, at: int): (n: nat)
    ensures n <= |s|
  {
    if s == [] then 0 else if s[|s| - 1].at <= at then |s| else BisectRight(s[..|s| - 1], at)
  }

  /** The value of the newest row at or before `at`. */
  function AsOf(s: seq<Mark>, at: int): Option<string> {
    var i := BisectRight(s, at);
    if i > 0 then Some(s[i - 1].value) else None
  }

  /** When the trade was requested, else when it was opened; without either it is skipped. */
  function Moment(o: Order): Option<int> {
    if o.requestedAt.Some? then o.requestedAt else o.openedAt
  }

  // ----------------------------------------------------------- the as-of value

  lemma {:induction false} BisectCounts(s: seq<Mark>, at: int, i: nat)
    requires InTimeOrder(s) && i < |s|
    ensures i < BisectRight(s, at) <==> s[i].at <= at
  {
    if s[|s| - 1].at > at && i < |s| - 1 {
      BisectCounts(s[..|s| - 1], at, i);
    }
  }

  /** The joined value is that of a row not later than the moment with no newer
    * such row; there is none exactly when the whole series lies ahead. */
  lemma {:induction false} AsOfIsNewest(s: seq<Mark>, at: int)
    requires InTimeOrder(s)
    ensures AsOf(s, at).None? <==> forall i :: 0 <= i < |s| ==> at < s[i].at
    ensures AsOf(s, at).Some? ==>
              exists i :: 0 <= i < |s| && s[i].value == AsOf(s, at).value && s[i].at <= at &&
                          forall j :: i < j < |s| ==> at < s[j].at
  {
    var n := BisectRight(s, at);
    forall i | 0 <= i < |s| ensures i < n <==> s[i].at <= at {
      BisectCounts(s, at, i);
    }
    if n > 0 {
      assert s[n - 1].value == AsOf(s, at).value;
    }
  }

  /** Rows that begin later leave no trace. */
  lemma {:induction false} LaterRowsDoNotMatter(s: seq<Mark>, later: seq<Mark>, at: int)
    requires forall r :: r in later ==> at < r.at
    ensures AsOf(s + later, at) == AsOf(s, at)
  {
    if later == [] {
      assert s + later == s;
    } else {
      DropLastConcat(s, later);
      assert later[|later| - 1] in later;
      LaterRowsDoNotMatter(s, later[..|later| - 1], at);
    }
  }

  // ------------------------------------------------------------------ the copy

  function RowFor(o: Order, broker: string, keys: Series, spreads: Series, cols: Columns): TradeRow
    requires Moment(o).Some?
  {
    var at := Moment(o).value;
    TradeRow(o.id, at, cols(o), AsOf(keys(broker, o.pair), at), AsOf(spreads(broker, o.pair), at))
  }

  /** The broker whose series are cached for the pair: that of its first order. */
  function Cached(orders: seq<Order>, pair: string): Option<string> {
    if orders == [] then None
    else
      var c, o := Cached(orders[..|orders| - 1], pair), orders[|orders| - 1];
      if c.Some? then c else if Moment(o).Some? && o.pair == pair then Some(o.broker) else None
  }

  /** What the copy writes: every order joined with the cached series of its pair. */
  function Joined(orders: seq<Order>, keys: Series, spreads: Series, cols: Columns): seq<TradeRow> {
    if orders == [] then []
    else
      var o := orders[|orders| - 1];
      Joined(orders[..|orders| - 1], keys, spreads, cols) +
      if Moment(o).None? then [] else [RowFor(o, Cached(orders, o.pair).value, keys, spreads, cols)]
  }

  /** What it should write: every order joined with the series of its own broker. */
  function Ideal(orders: seq<Order>, keys: Series, spreads: Series, cols: Columns): seq<TradeRow> {
    if orders == [] then []
    else
      var o := orders[|orders| - 1];
      Ideal(orders[..|orders| - 1], keys, spreads, cols) +
      if Moment(o).None? then [] else [RowFor(o, o.broker, keys, spreads, cols)]
  }

  /** Rows are keyed by order id, and a later one replaces an earlier. */
  function Stored(table: map<string, TradeRow>, rows: seq<TradeRow>): map<string, TradeRow> {
    if rows == [] then table
    else Stored(table, rows[..|rows| - 1])[rows[|rows| - 1].id := rows[|rows| - 1]]
  }

  lemma {:induction false} StoredSnoc(table: map<string, TradeRow>, rows: seq<TradeRow>, row: TradeRow)
    ensures Stored(table, rows + [row]) == Stored(table, rows)[row.id := row]
  {
    assert (rows + [row])[..|rows + [row]| - 1] == rows;
  }

  /** `sync_trades`, with its two caches per pair: the new table, and the count. */
  method SyncTrades(before: map<string, TradeRow>, orders: seq<Order>, keys: Series, spreads: Series, cols: Columns)
    returns (table: map<string, TradeRow>, written: nat)
    ensures Copied(before, orders, keys, spreads, cols, table)
    ensures written == |DatedPlaces(orders)|
    ensures table == Stored(before, Joined(orders, keys, spreads, cols))
    ensures written == |Joined(orders, keys, spreads, cols)|
  {
    hide AsOf, Stored, Copied;
    ghost var rows: seq<TradeRow> := [];
    table, written := before, 0;
    NothingStored(before);
    var keySeries: map<string, seq<Mark>> := map[];
    var spreadSeries: map<string, seq<Mark>> := map[];
    var i := 0;
    while i < |orders|
      invariant i <= |orders|
      invariant rows == Joined(orders[..i], keys, spreads, cols)
      invariant table == Stored(before, rows) && written == |rows|
      invariant forall p :: p in keySeries <==> Cached(orders[..i], p).Some?
      invariant forall p :: p in spreadSeries <==> Cached(orders[..i], p).Some?
      invariant forall p :: p in keySeries ==> keySeries[p] == keys(Cached(orders[..i], p).value, p)
      invariant forall p :: p in spreadSeries ==> spreadSeries[p] == spreads(Cached(orders[..i], p).value, p)
    {
      var o := orders[i];
      TakeNext(orders, i);
      i := i + 1;
      if Moment(o).None? {
        continue;
      }
      if o.pair !in keySeries {
        keySeries := keySeries[o.pair := keys(o.broker, o.pair)];
      }
      if o.pair !in spreadSeries {
        spreadSeries := spreadSeries[o.pair := spreads(o.broker, o.pair)];
      }
      var at := Moment(o).value;
      var row := TradeRow(o.id, at, cols(o), AsOf(keySeries[o.pair], at), AsOf(spreadSeries[o.pair], at));
      StoredSnoc(before, rows, row);
      rows := rows + [row];
      table := table[row.id := row];
      written := written + 1;
    }
    TakeAll(orders);
    TableIsCopied(before, orders, keys, spreads, cols);
    JoinedCounts(orders, keys, spreads, cols);
  }

  lemma {:induction false} NothingStored(table: map<string, TradeRow>)
    ensures Stored(table, []) == table
  {
  }

  /** The last dated order of an id: the one whose row stays. */
  function LastOrder(orders: seq<Order>, id: string): Option<Order> {
    if orders == [] then None
    else
      var o := orders[|orders| - 1];
      if Moment(o).Some? && o.id == id then Some(o) else LastOrder(orders[..|orders| - 1], id)
  }

  lemma {:induction false} LastOrderIsDated(orders: seq<Order>, id: string)
    ensures var o := LastOrder(orders, id); o.Some? ==> o.value in orders && o.value.id == id && Moment(o.value).Some?
  {
    if orders != [] {
      LastOrderIsDated(orders[..|orders| - 1], id);
    }
  }

  lemma {:induction false} CachedStays(orders: seq<Order>, id: string)
    requires LastOrder(orders, id).Some?
    ensures Cached(orders, LastOrder(orders, id).value.pair).Some?
  {
    var o := orders[|orders| - 1];
    if !(Moment(o).Some? && o.id == id) {
      CachedStays(orders[..|orders| - 1], id);
    }
  }

  /** The table afterwards: the row of the last dated order of each id, joined with
    * the cached series of its pair; other rows stay. */
  lemma {:induction false} TableAfter(before: map<string, TradeRow>, orders: seq<Order>, keys: Series, spreads: Series,
                                      cols: Columns, id: string)
    ensures var table, o := Stored(before, Joined(orders, keys, spreads, cols)), LastOrder(orders, id);
            && (id in table <==> o.Some? || id in before)
            && (id in table && o.None? ==> table[id] == before[id])
            && (o.Some? ==> Moment(o.value).Some? && Cached(orders, o.value.pair).Some? &&
                            table[id] == RowFor(o.value, Cached(orders, o.value.pair).value, keys, spreads, cols))
  {
    hide RowFor, AsOf, Stored;
    NothingStored(before);
    if orders != [] {
      var init, o := orders[..|orders| - 1], orders[|orders| - 1];
      LastOrderIsDated(orders, id);
      if LastOrder(orders, id).Some? {
        CachedStays(orders, id);
      }
      TableAfter(before, init, keys, spreads, cols, id);
      var rows := Joined(init, keys, spreads, cols);
      if Moment(o).Some? {
        StoredSnoc(before, rows, RowFor(o, Cached(orders, o.pair).value, keys, spreads, cols));
        RowIds(o, Cached(orders, o.pair).value, keys, spreads, cols);
      } else {
        assert rows + [] == rows;
      }
    }
  }

  lemma {:induction false} RowIds(o: Order, broker: string, keys: Series, spreads: Series, cols: Columns)
    requires Moment(o).Some?
    ensures RowFor(o, broker, keys, spreads, cols).id == o.id
  {
  }

  /** The same for the table it should write. */
  lemma {:induction false} TableIdeal(before: map<string, TradeRow>, orders: seq<Order>, keys: Series, spreads: Series,
                                      cols: Columns, id: string)
    ensures var table, o := Stored(before, Ideal(orders, keys, spreads, cols)), LastOrder(orders, id);
            && (id in table <==> o.Some? || id in before)
            && (id in table && o.None? ==> table[id] == before[id])
            && (o.Some? ==> Moment(o.value).Some? && table[id] == RowFor(o.value, o.value.broker, keys, spreads, cols))
  {
    hide RowFor, AsOf, Stored;
    NothingStored(before);
    if orders != [] {
      var init, o := orders[..|orders| - 1], orders[|orders| - 1];
      LastOrderIsDated(orders, id);
      TableIdeal(before, init, keys, spreads, cols, id);
      var rows := Ideal(init, keys, spreads, cols);
      if Moment(o).Some? {
        StoredSnoc(before, rows, RowFor(o, o.broker, keys, spreads, cols));
        RowIds(o, o.broker, keys, spreads, cols);
      } else {
        assert rows + [] == rows;
      }
    }
  }

  function DatedPlaces(orders: seq<Order>): set<nat> {
    set i: nat | i < |orders| && Dated(orders[i])
  }

  lemma {:induction false} DatedSnoc(orders: seq<Order>, o: Order)
    ensures DatedPlaces(orders + [o]) == if Dated(o) then DatedPlaces(orders) + {|orders|} else DatedPlaces(orders)
    ensures |orders| !in DatedPlaces(orders)
  {
    hide Dated;
    forall i: nat | i < |orders| ensures (orders + [o])[i] == orders[i] {
    }
  }

  lemma {:induction false} NoneDated()
    ensures DatedPlaces([]) == {}
  {
  }

  /** One row for every dated order. */
  lemma {:induction false} JoinedCounts(orders: seq<Order>, keys: Series, spreads: Series, cols: Columns)
    ensures |Joined(orders, keys, spreads, cols)| == |DatedPlaces(orders)|
  {
    hide RowFor, DatedPlaces;
    if orders == [] {
      NoneDated();
    } else {
      var init, o := orders[..|orders| - 1], orders[|orders| - 1];
      JoinedCounts(init, keys, spreads, cols);
      DatedSnoc(init, o);
      assert orders == init + [o];
    }
  }

  /** Copying the same orders once more changes nothing. */
  lemma {:induction false} CopyAgain(before: map<string, TradeRow>, orders: seq<Order>, keys: Series, spreads: Series,
                                     cols: Columns)
    ensures var rows := Joined(orders, keys, spreads, cols); Stored(Stored(before, rows), rows) == Stored(before, rows)
  {
    hide RowFor, AsOf, Stored, Joined;
    var rows := Joined(orders, keys, spreads, cols);
    var once := Stored(before, rows);
    var twice := Stored(once, rows);
    forall id ensures (id in twice <==> id in once) && (id in once ==> twice[id] == once[id]) {
      TableAfter(before, orders, keys, spreads, cols, id);
      TableAfter(once, orders, keys, spreads, cols, id);
    }
  }

  // -------------------------------------------------- what the copy leaves behind

  /** The order has a request time or a fill time. */
  predicate Dated(o: Order) {
    o.requestedAt.Some? || o.openedAt.Some?
  }

  /** `value` is what the series, if it is in time order, says at the moment: that of a row
    * not after it with no newer such row, and none where every row lies ahead. */
  ghost predicate Held(value: Option<string>, s: seq<Mark>, at: int) {
    (forall i, j :: 0 <= i < j < |s| ==> s[i].at <= s[j].at) ==>
    || (value.None? && forall i :: 0 <= i < |s| ==> at < s[i].at)
    || exists i :: 0 <= i < |s| && value == Some(s[i].value) && s[i].at <= at && forall j :: i < j < |s| ==> at < s[j].at
  }

  /** `f` is the first dated order of the pair. */
  ghost predicate FirstOf(orders: seq<Order>, pair: string, f: nat) {
    && f < |orders| && Dated(orders[f]) && orders[f].pair == pair
    && forall j :: 0 <= j < f && Dated(orders[j]) ==> orders[j].pair != pair
  }

  /** `k` is the last dated order with the id. */
  ghost predicate LastOf(orders: seq<Order>, id: string, k: nat) {
    && k < |orders| && Dated(orders[k]) && orders[k].id == id
    && forall j :: k < j < |orders| && Dated(orders[j]) ==> orders[j].id != id
  }

  /** The row of the order: its request time, or its fill time where there is none, its
    * columns, and what the broker's two series for the pair say at that time. */
  ghost predicate IsRowOf(r: TradeRow, o: Order, broker: string, keys: Series, spreads: Series, cols: Columns) {
    && r.id == o.id && r.columns == cols(o)
    && (o.requestedAt.Some? ==> r.at == o.requestedAt.value) && (o.requestedAt.None? ==> o.openedAt == Some(r.at))
    && Held(r.key, keys(broker, o.pair), r.at) && Held(r.spread, spreads(broker, o.pair), r.at)
  }

  /** The table holds the row of the last dated order of every id, joined with the series
    * of the broker the pair was first traded through, and the old row where no order has
    * the id. */
  ghost predicate Copied(before: map<string, TradeRow>, orders: seq<Order>, keys: Series, spreads: Series,
                         cols: Columns, table: map<string, TradeRow>) {
    && (forall id :: id in table <==> id in before || exists k: nat :: LastOf(orders, id, k))
    && (forall id :: id in table && !(exists k: nat :: LastOf(orders, id, k)) ==> id in before && table[id] == before[id])
    && (forall id, k: nat, f: nat :: LastOf(orders, id, k) && FirstOf(orders, orders[k].pair, f) ==>
          id in table && IsRowOf(table[id], orders[k], orders[f].broker, keys, spreads, cols))
  }

  lemma {:induction false} FirstIsCached(orders: seq<Order>, pair: string, f: nat)
    requires FirstOf(orders, pair, f)
    ensures Cached(orders, pair) == Some(orders[f].broker)
  {
    var init := orders[..|orders| - 1];
    if f < |init| {
      FirstIsCached(init, pair, f);
    } else {
      NoneCached(init, pair);
    }
  }

  lemma {:induction false} NoneCached(orders: seq<Order>, pair: string)
    requires forall j :: 0 <= j < |orders| && Dated(orders[j]) ==> orders[j].pair != pair
    ensures Cached(orders, pair).None?
  {
    if orders != [] {
      assert Dated(orders[|orders| - 1]) ==> orders[|orders| - 1].pair != pair;
      NoneCached(orders[..|orders| - 1], pair);
    }
  }

  lemma {:induction false} LastIs(orders: seq<Order>, id: string, k: nat)
    requires LastOf(orders, id, k)
    ensures LastOrder(orders, id) == Some(orders[k])
  {
    if k < |orders| - 1 {
      assert Dated(orders[|orders| - 1]) ==> orders[|orders| - 1].id != id;
      LastIs(orders[..|orders| - 1], id, k);
    }
  }

  lemma {:induction false} LastIsThere(orders: seq<Order>, id: string) returns (k: nat)
    requires LastOrder(orders, id).Some?
    ensures LastOf(orders, id, k)
  {
    var o := orders[|orders| - 1];
    if Dated(o) && o.id == id {
      k := |orders| - 1;
    } else {
      k := LastIsThere(orders[..|orders| - 1], id);
    }
  }

  lemma {:induction false} AsOfHeld(s: seq<Mark>, at: int)
    ensures Held(AsOf(s, at), s, at)
  {
    hide AsOf;
    if InTimeOrder(s) {
      AsOfIsNewest(s, at);
    }
  }

  lemma {:induction false} RowIsRow(o: Order, broker: string, keys: Series, spreads: Series, cols: Columns)
    requires Moment(o).Some?
    ensures IsRowOf(RowFor(o, broker, keys, spreads, cols), o, broker, keys, spreads, cols)
  {
    hide Held, AsOf;
    AsOfHeld(keys(broker, o.pair), Moment(o).value);
    AsOfHeld(spreads(broker, o.pair), Moment(o).value);
  }

  lemma {:induction false} TableIsCopied(before: map<string, TradeRow>, orders: seq<Order>, keys: Series,
                                        spreads: Series, cols: Columns)
    ensures Copied(before, orders, keys, spreads, cols, Stored(before, Joined(orders, keys, spreads, cols)))
  {
    hide Stored, Joined, RowFor, LastOrder, Cached, IsRowOf, Moment;
    var table := Stored(before, Joined(orders, keys, spreads, cols));
    forall id
      ensures id in table <==> id in before || exists k: nat :: LastOf(orders, id, k)
      ensures id in table && !(exists k: nat :: LastOf(orders, id, k)) ==> id in before && table[id] == before[id]
    {
      TableAfter(before, orders, keys, spreads, cols, id);
      if LastOrder(orders, id).Some? {
        var k := LastIsThere(orders, id);
      }
      if k: nat :| LastOf(orders, id, k) {
        LastIs(orders, id, k);
      }
    }
    forall id, k: nat, f: nat | LastOf(orders, id, k) && FirstOf(orders, orders[k].pair, f)
      ensures id in table && IsRowOf(table[id], orders[k], orders[f].broker, keys, spreads, cols)
    {
      TableAfter(before, orders, keys, spreads, cols, id);
      LastIs(orders, id, k);
      FirstIsCached(orders, orders[k].pair, f);
      RowIsRow(orders[k], orders[f].broker, keys, spreads, cols);
    }
  }

  // --------------------------------------------------------- one broker per pair

  ghost predicate OneBrokerPerPair(orders: seq<Order>) {
    forall a, b :: a in orders && b in orders && Moment(a).Some? && Moment(b).Some? && a.pair == b.pair ==>
                     a.broker == b.broker
  }

  /** Every order finds its own broker's series in the cache. */
  predicate AllOwn(orders: seq<Order>) {
    orders == [] ||
    (var o := orders[|orders| - 1];
     AllOwn(orders[..|orders| - 1]) && (Moment(o).Some? ==> Cached(orders, o.pair) == Some(o.broker)))
  }

  lemma {:induction false} CachedIsFirst(orders: seq<Order>, pair: string)
    ensures Cached(orders, pair).Some? ==>
              exists o :: o in orders && Moment(o).Some? && o.pair == pair && o.broker == Cached(orders, pair).value
    ensures Cached(orders, pair).None? ==> forall o :: o in orders && Moment(o).Some? ==> o.pair != pair
  {
    if orders != [] {
      var init, last := orders[..|orders| - 1], orders[|orders| - 1];
      CachedIsFirst(init, pair);
      assert orders == init + [last];
      if Cached(init, pair).Some? {
        var o :| o in init && Moment(o).Some? && o.pair == pair && o.broker == Cached(init, pair).value;
        assert o in orders;
      }
    }
  }

  lemma {:induction false} OwnBroker(orders: seq<Order>, o: Order)
    requires AllOwn(orders) && o in orders && Moment(o).Some?
    ensures Cached(orders, o.pair) == Some(o.broker)
  {
    var init, last := orders[..|orders| - 1], orders[|orders| - 1];
    if o != last {
      OwnBroker(init, o);
    }
  }

  lemma {:induction false} AllOwnIff(orders: seq<Order>)
    ensures AllOwn(orders) <==> OneBrokerPerPair(orders)
  {
    hide Cached;
    if AllOwn(orders) {
      forall a, b | a in orders && b in orders && Moment(a).Some? && Moment(b).Some? && a.pair == b.pair
        ensures a.broker == b.broker
      {
        OwnBroker(orders, a);
        OwnBroker(orders, b);
      }
    }
    if OneBrokerPerPair(orders) && orders != [] {
      var init, last := orders[..|orders| - 1], orders[|orders| - 1];
      assert forall o :: o in init ==> o in orders;
      assert last in orders;
      AllOwnIff(init);
      CachedIsFirst(orders, last.pair);
    }
  }

  lemma {:induction false} OwnJoins(orders: seq<Order>, keys: Series, spreads: Series, cols: Columns)
    requires AllOwn(orders)
    ensures Joined(orders, keys, spreads, cols) == Ideal(orders, keys, spreads, cols)
  {
    if orders != [] {
      OwnJoins(orders[..|orders| - 1], keys, spreads, cols);
    }
  }

  lemma {:induction false} SameLength(orders: seq<Order>, keys: Series, spreads: Series, cols: Columns)
    ensures |Joined(orders, keys, spreads, cols)| == |Ideal(orders, keys, spreads, cols)|
  {
    if orders != [] {
      SameLength(orders[..|orders| - 1], keys, spreads, cols);
    }
  }

  /** A series only `broker` has, with one row at `at`. */
  function Only(broker: string, at: int): Series {
    (b: string, p: string) => if b == broker then [Mark(at, "")] else []
  }

  function Never(): Series {
    (b: string, p: string) => []
  }

  lemma {:induction false} ForeignJoins(orders: seq<Order>, cols: Columns) returns (keys: Series)
    requires !AllOwn(orders)
    ensures Joined(orders, keys, Never(), cols) != Ideal(orders, keys, Never(), cols)
  {
    var init, o := orders[..|orders| - 1], orders[|orders| - 1];
    if !AllOwn(init) {
      keys := ForeignJoins(init, cols);
      var x, y := Joined(init, keys, Never(), cols), Ideal(init, keys, Never(), cols);
      SameLength(init, keys, Never(), cols);
      SameLength(orders, keys, Never(), cols);
      assert Joined(orders, keys, Never(), cols)[..|x|] == x && Ideal(orders, keys, Never(), cols)[..|y|] == y;
    } else {
      var at := Moment(o).value;
      keys := Only(o.broker, at);
      SameLength(init, keys, Never(), cols);
      var n := |Joined(init, keys, Never(), cols)|;
      assert [Mark(at, "")][..0] == [];
      assert Joined(orders, keys, Never(), cols)[n] == RowFor(o, Cached(orders, o.pair).value, keys, Never(), cols);
      assert Ideal(orders, keys, Never(), cols)[n] == RowFor(o, o.broker, keys, Never(), cols);
    }
  }

  /** The caches are by pair alone: every trade is joined with the series of its
    * own broker, whatever the series hold, if and only if no pair is traded
    * through two brokers. */
  lemma {:induction false} JoinedIsIdealIff(orders: seq<Order>, cols: Columns)
    ensures (forall keys: Series, spreads: Series ::
               Joined(orders, keys, spreads, cols) == Ideal(orders, keys, spreads, cols)) <==>
            OneBrokerPerPair(orders)
  {
    hide AllOwn, OneBrokerPerPair, Joined, Ideal;
    AllOwnIff(orders);
    if AllOwn(orders) {
      forall keys: Series, spreads: Series
        ensures Joined(orders, keys, spreads, cols) == Ideal(orders, keys, spreads, cols)
      {
        OwnJoins(orders, keys, spreads, cols);
      }
    } else {
      var keys := ForeignJoins(orders, cols);
    }
  }

  /** The order that decides an id traded through the broker whose series are
    * cached for its pair. */
  ghost predicate SurvivorsOwn(orders: seq<Order>) {
    forall id :: var o := LastOrder(orders, id); o.Some? ==> Cached(orders, o.value.pair) == Some(o.value.broker)
  }

  /** The table holds every trade with the series of its own broker, whatever the
    * series hold, if and only if the last order of each id trades through the
    * broker that traded its pair first. */
  lemma {:induction false} TableIsIdealIff(before: map<string, TradeRow>, orders: seq<Order>, cols: Columns)
    ensures (forall keys: Series, spreads: Series ::
               Stored(before, Joined(orders, keys, spreads, cols)) == Stored(before, Ideal(orders, keys, spreads, cols))) <==>
            SurvivorsOwn(orders)
  {
    hide Stored, Joined, Ideal, LastOrder, Cached, AsOf;
    if SurvivorsOwn(orders) {
      forall keys: Series, spreads: Series
        ensures Stored(before, Joined(orders, keys, spreads, cols)) == Stored(before, Ideal(orders, keys, spreads, cols))
      {
        var x, y := Stored(before, Joined(orders, keys, spreads, cols)), Stored(before, Ideal(orders, keys, spreads, cols));
        forall id ensures (id in x <==> id in y) && (id in x ==> x[id] == y[id]) {
          TableAfter(before, orders, keys, spreads, cols, id);
          TableIdeal(before, orders, keys, spreads, cols, id);
        }
      }
    } else {
      var id :| LastOrder(orders, id).Some? &&
                Cached(orders, LastOrder(orders, id).value.pair) != Some(LastOrder(orders, id).value.broker);
      LastOrderIsDated(orders, id);
      var o := LastOrder(orders, id).value;
      var keys, spreads := Only(o.broker, Moment(o).value), Never();
      TableAfter(before, orders, keys, spreads, cols, id);
      TableIdeal(before, orders, keys, spreads, cols, id);
      OnlyOwnSees(o, Cached(orders, o.pair).value, cols);
    }
  }

  lemma {:induction false} OnlyOwnSees(o: Order, other: string, cols: Columns)
    requires Moment(o).Some? && other != o.broker
    ensures var keys := Only(o.broker, Moment(o).value);
            RowFor(o, other, keys, Never(), cols) != RowFor(o, o.broker, keys, Never(), cols)
  {
    assert [Mark(Moment(o).value, "")][..0] == [];
  }
}
