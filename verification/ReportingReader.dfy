/** Reading the reporting mirror as of a moment in the past. */
module ReportingReader {
  import opened Wrappers
  import opened Seqs
  import opened Candles
  import opened CandleLaws
  import opened Windows
  import opened StableSort

  // ------------------------------------------------------------------ trades

  /** A stored timestamp: the text, and the instant it parses to, if it does. */
  datatype Stamp = Stamp(text: string, instant: Option<nat>)

  /** What is fixed when the order is placed. */
  datatype Terms = Terms(direction: string, units: string, fillPrice: string,
                         stopLoss: string, takeProfit: string, spreadAtEntry: string)

  /** What is only known once the trade is closed. */
  datatype Outcome = Outcome(closedAt: Stamp, closePrice: string, closeReason: string, pnlPips: string, pnlMoney: string)

  datatype Trade = Trade(id: string, pair: string, requestedAt: Stamp, openedAt: Stamp, terms: Terms, outcome: Outcome)

  datatype Report = Report(id: string, pair: string, isOpen: bool, requestedAt: Stamp, openedAt: Stamp,
                           terms: Terms, outcome: Option<Outcome>, rank: Option<nat>)

  datatype Status = Open | Closed | Any

  /** When the trade was opened: the fill, else the request. */
  function OpenedAt(t: Trade): Option<nat> {
    if t.openedAt.instant.Some? then t.openedAt.instant else t.requestedAt.instant
  }

  /** The trade existed at the anchor. */
  predicate Existed(t: Trade, anchor: Option<nat>) {
    !(anchor.Some? && OpenedAt(t).Some? && OpenedAt(t).value > anchor.value)
  }

  predicate WasOpen(t: Trade, anchor: Option<nat>) {
    var closed := t.outcome.closedAt.instant;
    closed.None? || (anchor.Some? && closed.value > anchor.value)
  }

  /** The reported row; a close that still lies ahead of the anchor is hidden. */
  function ReportOf(t: Trade, anchor: Option<nat>): Report {
    var isOpen := WasOpen(t, anchor);
    Report(t.id, t.pair, isOpen, t.requestedAt, t.openedAt, t.terms,
           if anchor.Some? && isOpen then None else Some(t.outcome), OpenedAt(t))
  }

  predicate IsOpen(r: Report) { r.isOpen }

  predicate IsClosed(r: Report) { !r.isOpen }

  function WantedBy(status: Status): Report -> bool {
    match status
    case Open => IsOpen
    case Closed => IsClosed
    case Any => _ => true
  }

  /** The reports of `pair` that existed at the anchor, in table order. */
  function Reports(table: seq<Trade>, pair: string, anchor: Option<nat>): seq<Report> {
    if table == [] then []
    else
      var t := table[|table| - 1];
      Reports(table[..|table| - 1], pair, anchor) +
      if t.pair == pair && Existed(t, anchor) then [ReportOf(t, anchor)] else []
  }

  /** Newest first; a trade without a readable opening time comes last. */
  function Recency(r: Report): int {
    if r.rank.None? then 1 else 0 - r.rank.value
  }

  function Listing(table: seq<Trade>, pair: string, status: Status, anchor: Option<nat>): seq<Report> {
    Sort(Recency, Filter(WantedBy(status), Reports(table, pair, anchor)))
  }

  function First(rs: seq<Report>, limit: int): seq<Report> {
    var n := if limit > 1 then limit else 1;
    if |rs| <= n then rs else rs[..n]
  }

  /** The moment an anchor text stands for; a text that does not parse stands for none. */
  function Anchor(asOf: Option<Stamp>): Option<nat> {
    if asOf.None? then None else asOf.value.instant
  }

  // ------------------------------------------------------------ what is promised

  /** The report shows `t`: open while its close cannot be read or lies ahead of the
    * anchor, and then, as of an anchor, without its outcome. */
  ghost predicate Shows(r: Report, t: Trade, anchor: Option<nat>) {
    && r.id == t.id && r.pair == t.pair && r.terms == t.terms
    && r.requestedAt == t.requestedAt && r.openedAt == t.openedAt
    && (r.isOpen <==>
          t.outcome.closedAt.instant.None? || (anchor.Some? && t.outcome.closedAt.instant.value > anchor.value))
    && r.outcome == (if anchor.Some? && r.isOpen then None else Some(t.outcome))
  }

  /** The trade belongs into the listing: it is of the pair, its fill (its request,
    * where the fill cannot be read) does not lie after the anchor, and it has the
    * wanted status by then. */
  ghost predicate Belongs(t: Trade, pair: string, status: Status, anchor: Option<nat>) {
    var closed := t.outcome.closedAt.instant.Some? && !(anchor.Some? && t.outcome.closedAt.instant.value > anchor.value);
    && t.pair == pair
    && (anchor.Some? ==>
          && (t.openedAt.instant.Some? ==> t.openedAt.instant.value <= anchor.value)
          && (t.openedAt.instant.None? && t.requestedAt.instant.Some? ==> t.requestedAt.instant.value <= anchor.value))
    && (status.Open? ==> !closed) && (status.Closed? ==> closed)
  }

  /** Row `m` of the table goes before row `n`: it was opened later, or `n` has no
    * readable opening time, or both are alike in that and `m` comes first. */
  ghost predicate Precedes(table: seq<Trade>, m: nat, n: nat)
    requires m < |table| && n < |table|
  {
    var x := if table[m].openedAt.instant.Some? then table[m].openedAt.instant else table[m].requestedAt.instant;
    var y := if table[n].openedAt.instant.Some? then table[n].openedAt.instant else table[n].requestedAt.instant;
    || (x.Some? && y.Some? && x.value > y.value) || (x.Some? && y.None?) || (x == y && m < n)
  }

  /** The rows at `places` are those that belong, in listing order. */
  ghost predicate InOrder(table: seq<Trade>, pair: string, status: Status, anchor: Option<nat>, places: seq<nat>) {
    && (forall n: nat :: n in places <==> n < |table| && Belongs(table[n], pair, status, anchor))
    && (forall i :: 0 <= i < |places| ==> places[i] in places)
    && forall i, j :: 0 <= i < j < |places| ==> Precedes(table, places[i], places[j])
  }

  /** The first `limit` (at least one) of the trades that belong, in order. */
  ghost predicate Answers(table: seq<Trade>, pair: string, status: Status, limit: int, anchor: Option<nat>,
                          found: seq<Report>) {
    exists places: seq<nat> ::
      && InOrder(table, pair, status, anchor, places)
      && (var n := if limit > 1 then limit else 1; |found| == if |places| <= n then |places| else n)
      && forall i :: 0 <= i < |found| ==> Shows(found[i], table[places[i]], anchor)
  }

  lemma {:induction false} ReportShows(t: Trade, anchor: Option<nat>, pair: string, status: Status)
    ensures Shows(ReportOf(t, anchor), t, anchor)
    ensures t.pair == pair && Existed(t, anchor) && WantedBy(status)(ReportOf(t, anchor)) <==>
            Belongs(t, pair, status, anchor)
  {
  }

  /** `rs` are the reports of the rows at `from`, and those rows are the ones that belong. */
  ghost predicate Picked(table: seq<Trade>, pair: string, status: Status, anchor: Option<nat>, rs: seq<Report>,
                         from: seq<nat>) {
    && |from| == |rs|
    && (forall i :: 0 <= i < |from| ==> from[i] < |table| && rs[i] == ReportOf(table[from[i]], anchor))
    && (forall i, j :: 0 <= i < j < |from| ==> from[i] < from[j])
    && (forall n: nat :: n < |table| && Belongs(table[n], pair, status, anchor) ==> n in from)
    && forall n :: n in from ==> n < |table| && Belongs(table[n], pair, status, anchor)
  }

  lemma {:induction false} PickedNext(table: seq<Trade>, t: Trade, pair: string, status: Status, anchor: Option<nat>,
                                      rs: seq<Report>, from: seq<nat>)
    requires Picked(table, pair, status, anchor, rs, from) && Belongs(t, pair, status, anchor)
    ensures Picked(table + [t], pair, status, anchor, rs + [ReportOf(t, anchor)], from + [|table|])
  {
    hide Belongs, ReportOf;
    forall n: nat | n < |table| ensures (table + [t])[n] == table[n] {
    }
  }

  lemma {:induction false} PickedSkip(table: seq<Trade>, t: Trade, pair: string, status: Status, anchor: Option<nat>,
                                      rs: seq<Report>, from: seq<nat>)
    requires Picked(table, pair, status, anchor, rs, from) && !Belongs(t, pair, status, anchor)
    ensures Picked(table + [t], pair, status, anchor, rs, from)
  {
    hide Belongs, ReportOf;
    forall n: nat | n < |table| ensures (table + [t])[n] == table[n] {
    }
  }

  /** The reports found so far, and the rows of the table they are of. */
  lemma {:induction false} Chosen(table: seq<Trade>, pair: string, status: Status, anchor: Option<nat>)
    returns (from: seq<nat>)
    ensures Picked(table, pair, status, anchor, Filter(WantedBy(status), Reports(table, pair, anchor)), from)
  {
    hide *;
    if table == [] {
      from := [];
      NothingPicked(pair, status, anchor);
    } else {
      var k := |table| - 1;
      var init, t := table[..k], table[k];
      var rs := Filter(WantedBy(status), Reports(init, pair, anchor));
      from := Chosen(init, pair, status, anchor);
      CollectOne(init, t, pair, status, anchor);
      ReportShows(t, anchor, pair, status);
      assert init + [t] == table;
      assert rs + [] == rs;
      if !Belongs(t, pair, status, anchor) {
        PickedSkip(init, t, pair, status, anchor, rs, from);
      } else {
        PickedNext(init, t, pair, status, anchor, rs, from);
        from := from + [k];
      }
    }
  }

  lemma {:induction false} NothingPicked(pair: string, status: Status, anchor: Option<nat>)
    ensures Picked([], pair, status, anchor, Filter(WantedBy(status), Reports([], pair, anchor)), [])
  {
  }

  lemma {:induction false} RecencyPrecedes(table: seq<Trade>, m: nat, n: nat, anchor: Option<nat>)
    requires m < |table| && n < |table|
    ensures var a, b := Recency(ReportOf(table[m], anchor)), Recency(ReportOf(table[n], anchor));
            a < b || (a == b && m < n) <==> Precedes(table, m, n)
  {
  }

  lemma {:induction false} PlacesInOrder(table: seq<Trade>, pair: string, status: Status, anchor: Option<nat>,
                                         rs: seq<Report>, from: seq<nat>, all: seq<Report>, at: seq<nat>)
    returns (places: seq<nat>)
    requires Picked(table, pair, status, anchor, rs, from) && Places(Recency, rs, all, at)
    ensures InOrder(table, pair, status, anchor, places) && |places| == |all|
    ensures forall i :: 0 <= i < |all| ==> Shows(all[i], table[places[i]], anchor)
  {
    hide ReportOf, Belongs, Precedes, Shows, Recency;
    places := Onward(from, at);
    forall i | 0 <= i < |places| ensures places[i] in from && all[i] == ReportOf(table[places[i]], anchor) {
      assert places[i] == from[at[i]] && all[i] == rs[at[i]];
    }
    forall i | 0 <= i < |places| ensures Shows(all[i], table[places[i]], anchor) {
      ReportShows(table[places[i]], anchor, pair, status);
    }
    forall i, j | 0 <= i < j < |places| ensures Precedes(table, places[i], places[j]) {
      RecencyPrecedes(table, places[i], places[j], anchor);
      assert at[i] < at[j] ==> from[at[i]] < from[at[j]];
    }
  }

  lemma {:induction false} ListingAnswers(table: seq<Trade>, pair: string, status: Status, limit: int, anchor: Option<nat>)
    ensures Answers(table, pair, status, limit, anchor, First(Listing(table, pair, status, anchor), limit))
  {
    hide Sort, Filter, Reports, Picked, Places, InOrder, Shows;
    var rs := Filter(WantedBy(status), Reports(table, pair, anchor));
    var from := Chosen(table, pair, status, anchor);
    var at := SortPlaces(Recency, rs);
    var places := PlacesInOrder(table, pair, status, anchor, rs, from, Listing(table, pair, status, anchor), at);
    InOrderPlaces(table, pair, status, anchor, places);
  }

  lemma {:induction false} InOrderPlaces(table: seq<Trade>, pair: string, status: Status, anchor: Option<nat>,
                                         places: seq<nat>)
    requires InOrder(table, pair, status, anchor, places)
    ensures forall i :: 0 <= i < |places| ==> places[i] < |table|
  {
    hide Belongs, Precedes;
    assert forall i :: 0 <= i < |places| ==> places[i] in places;
  }

  /** `get_trades`: skip, collect, sort in place, cut off. */
  method GetTrades(table: seq<Trade>, pair: string, status: Status, limit: int, asOf: Option<Stamp>)
    returns (found: seq<Report>)
    ensures Answers(table, pair, status, limit, if asOf.Some? then asOf.value.instant else None, found)
    ensures found == First(Listing(table, pair, status, Anchor(asOf)), limit)
  {
    hide Answers;
    var anchor := Anchor(asOf);
    found := [];
    var i := 0;
    while i < |table|
      invariant i <= |table|
      invariant found == Filter(WantedBy(status), Reports(table[..i], pair, anchor))
    {
      var t := table[i];
      TakeNext(table, i);
      CollectOne(table[..i], t, pair, status, anchor);
      i := i + 1;
      if t.pair != pair {
        continue;
      }
      if anchor.Some? && OpenedAt(t).Some? && OpenedAt(t).value > anchor.value {
        continue;
      }
      var isOpen := WasOpen(t, anchor);
      if status == Open && !isOpen {
        continue;
      }
      if status == Closed && isOpen {
        continue;
      }
      found := found + [ReportOf(t, anchor)];
    }
    TakeAll(table);
    found := First(Sort(Recency, found), limit);
    ListingAnswers(table, pair, status, limit, anchor);
  }

  lemma {:induction false} CollectOne(table: seq<Trade>, t: Trade, pair: string, status: Status, anchor: Option<nat>)
    ensures Filter(WantedBy(status), Reports(table + [t], pair, anchor)) ==
            Filter(WantedBy(status), Reports(table, pair, anchor)) +
            if t.pair == pair && Existed(t, anchor) && WantedBy(status)(ReportOf(t, anchor))
            then [ReportOf(t, anchor)] else []
  {
    assert (table + [t])[..|table + [t]| - 1] == table;
    var rs := Reports(table, pair, anchor);
    assert rs + [] == rs;
    OneMore(WantedBy(status), Recency, rs, ReportOf(t, anchor), 0);
  }

  // ---------------------------------------------------------- no look-ahead

  const UNKNOWN: Outcome := Outcome(Stamp("", None), "", "", "", "")

  /** The trade with everything hidden that was not known at `a`. */
  function Known(t: Trade, a: nat): Trade {
    if WasOpen(t, Some(a)) then t.(outcome := UNKNOWN) else t
  }

  /** The table as it could be seen at `a`: later trades left out, closing
    * columns blanked where the close lies ahead. */
  function AsOf(table: seq<Trade>, a: nat): seq<Trade> {
    if table == [] then []
    else
      var t := table[|table| - 1];
      AsOf(table[..|table| - 1], a) + if Existed(t, Some(a)) then [Known(t, a)] else []
  }

  lemma {:induction false} ReportsAsOf(table: seq<Trade>, pair: string, a: nat)
    ensures Reports(table, pair, Some(a)) == Reports(AsOf(table, a), pair, Some(a))
  {
    if table != [] {
      var init, t := table[..|table| - 1], table[|table| - 1];
      ReportsAsOf(init, pair, a);
      if Existed(t, Some(a)) {
        var seen := AsOf(init, a) + [Known(t, a)];
        assert seen[..|seen| - 1] == AsOf(init, a);
        assert ReportOf(t, Some(a)) == ReportOf(Known(t, a), Some(a));
      } else {
        assert AsOf(init, a) + [] == AsOf(init, a);
      }
    }
  }

  /** Two trade tables that look the same as of `a` are listed the same: trades
    * opened later and closes that lie ahead leave no trace. */
  lemma {:induction false} ListingSeesNoFuture(t1: seq<Trade>, t2: seq<Trade>, pair: string, status: Status, a: nat)
    requires AsOf(t1, a) == AsOf(t2, a)
    ensures Listing(t1, pair, status, Some(a)) == Listing(t2, pair, status, Some(a))
  {
    ReportsAsOf(t1, pair, a);
    ReportsAsOf(t2, pair, a);
  }

  /** "open" and "closed" split the trades that existed at the anchor, each in
    * the common order. */
  lemma {:induction false} StatusesPartition(table: seq<Trade>, pair: string, anchor: Option<nat>)
    ensures var all := Listing(table, pair, Any, anchor);
            && Listing(table, pair, Open, anchor) == Filter(IsOpen, all)
            && Listing(table, pair, Closed, anchor) == Filter(IsClosed, all)
            && |Listing(table, pair, Open, anchor)| + |Listing(table, pair, Closed, anchor)| == |all|
  {
    var rs := Reports(table, pair, anchor);
    AllWanted(rs);
    FilterSort(IsOpen, Recency, rs);
    FilterSort(IsClosed, Recency, rs);
    SplitCount(Sort(Recency, rs));
  }

  lemma {:induction false} AllWanted(rs: seq<Report>)
    ensures Filter(WantedBy(Any), rs) == rs
  {
    if rs != [] {
      AllWanted(rs[..|rs| - 1]);
    }
  }

  lemma {:induction false} SplitCount(rs: seq<Report>)
    ensures |Filter(IsOpen, rs)| + |Filter(IsClosed, rs)| == |rs|
  {
    if rs != [] {
      SplitCount(rs[..|rs| - 1]);
    }
  }

  /** A trade reported closed at `a` is reported closed, with the same fields, at
    * every later anchor; one reported open shows nothing of its outcome. */
  lemma {:induction false} ClosedStaysClosed(table: seq<Trade>, pair: string, a: nat, b: nat, r: Report)
    requires a <= b && r in Reports(table, pair, Some(a))
    ensures !r.isOpen ==> r in Reports(table, pair, Some(b))
    ensures r.isOpen ==> r.outcome == None
  {
    var init, t := table[..|table| - 1], table[|table| - 1];
    if r in Reports(init, pair, Some(a)) {
      ClosedStaysClosed(init, pair, a, b, r);
    } else {
      assert r == ReportOf(t, Some(a));
    }
  }

  /** An anchor text that does not parse counts as no anchor at all, and then a
    * trade opened later does show. */
  lemma {:induction false} UnreadableAnchorSeesFuture(t: Trade, a: nat, status: Status)
    requires OpenedAt(t).Some? && OpenedAt(t).value > a && WantedBy(status)(ReportOf(t, None))
    ensures AsOf([t], a) == AsOf([], a)
    ensures Listing([t], t.pair, status, None) == [ReportOf(t, None)]
    ensures Listing([], t.pair, status, None) == []
  {
    hide Sort, Filter;
    assert [t][..|[t]| - 1] == [];
    var r := ReportOf(t, None);
    assert Reports([t], t.pair, None) == [r];
    OneMore(WantedBy(status), Recency, [], r, 0);
    assert [] + [r] == [r];
    EmptyCase(WantedBy(status), Recency, r);
  }

  /** With this anchor a listing shows nothing that was not known at `a`. */
  ghost predicate SeesOnly(anchor: Option<nat>, a: nat) {
    forall t1: seq<Trade>, t2: seq<Trade>, pair: string, status: Status ::
      AsOf(t1, a) == AsOf(t2, a) ==> Listing(t1, pair, status, anchor) == Listing(t2, pair, status, anchor)
  }

  /** A listing as of a text is blind to what lies after some moment if and only if
    * the text parses, and then that moment is the parsed one. */
  lemma {:induction false} NoLookAheadIff(asOf: Stamp)
    ensures (exists a: nat :: SeesOnly(Anchor(Some(asOf)), a)) <==> asOf.instant.Some?
    ensures asOf.instant.Some? ==> SeesOnly(Anchor(Some(asOf)), asOf.instant.value)
  {
    hide Listing, AsOf;
    if asOf.instant.Some? {
      var a := asOf.instant.value;
      forall t1: seq<Trade>, t2: seq<Trade>, pair: string, status: Status | AsOf(t1, a) == AsOf(t2, a)
        ensures Listing(t1, pair, status, Some(a)) == Listing(t2, pair, status, Some(a))
      {
        ListingSeesNoFuture(t1, t2, pair, status, a);
      }
      assert Anchor(Some(asOf)) == Some(a);
      assert SeesOnly(Anchor(Some(asOf)), a);
    } else {
      forall a: nat ensures !SeesOnly(None, a) {
        var t := LaterTrade(a);
        UnreadableAnchorSeesFuture(t, a, Any);
        assert Listing([t], t.pair, Any, None) != Listing([], t.pair, Any, None);
      }
    }
  }

  /** Some trade opened after `a`. */
  function LaterTrade(a: nat): (t: Trade)
    ensures OpenedAt(t) == Some(a + 1) && WantedBy(Any)(ReportOf(t, None))
  {
    Trade("", "", Stamp("", None), Stamp("", Some(a + 1)), Terms("", "", "", "", "", ""), UNKNOWN)
  }

  lemma {:induction false} EmptyCase(p: Report -> bool, key: Report -> int, r: Report)
    ensures Filter(p, []) == [] && Sort(key, []) == [] && Insert(key, [], r) == [r]
  {
  }

  // ----------------------------------------------------------------- candles

  datatype ReadError = NoTable | NothingAtOrBefore

  /** The rows with a close price. */
  function DropZeroClose(rows: seq<Bar>): seq<Bar> {
    if rows == [] then []
    else DropZeroClose(rows[..|rows| - 1]) + if rows[|rows| - 1].close == 0 then [] else [rows[|rows| - 1]]
  }

  /** What a read of a mirrored table gives: the newest `limit` rows at or before the
    * anchor without the placeholders, or an error where there is no such row. */
  function Read(table: seq<Bar>, limit: nat, anchor: Option<int>): Result<seq<Bar>, ReadError>
    requires Increasing(table)
  {
    var rows := Newest(UpTo(table, anchor), limit);
    if rows == [] then Err(NothingAtOrBefore) else Ok(DropZeroClose(rows))
  }

  predicate HasClose(c: Bar) {
    c.close != 0
  }

  /** A read of a mirrored table: an error where no row is looked at, else the rows with
    * a close price among the newest `limit` at or before the anchor. */
  ghost predicate Reads(table: seq<Bar>, limit: nat, anchor: Option<int>, r: Result<seq<Bar>, ReadError>) {
    exists lo: nat, hi: nat ::
      && NewestRows(table, anchor, limit, lo, hi)
      && (r.Err? <==> lo == hi) && (r.Err? ==> r.error == NothingAtOrBefore)
      && (r.Ok? ==> Keeps(HasClose, table[lo..hi], r.value))
  }

  lemma {:induction false} DropZeroCloseKeeps(rows: seq<Bar>)
    ensures Keeps(HasClose, rows, DropZeroClose(rows))
  {
    hide Keeps;
    if rows == [] {
      KeepsNone(HasClose);
    } else {
      var init, c := rows[..|rows| - 1], rows[|rows| - 1];
      DropZeroCloseKeeps(init);
      KeepsNext(HasClose, init, DropZeroClose(init), c);
      assert init + [c] == rows && DropZeroClose(init) + [] == DropZeroClose(init);
    }
  }

  lemma {:induction false} ReadSays(table: seq<Bar>, limit: nat, anchor: Option<int>)
    requires Increasing(table)
    ensures Reads(table, limit, anchor, Read(table, limit, anchor))
  {
    hide Newest, UpTo, DropZeroClose, Keeps, NewestRows, Increasing;
    var lo, hi := NewestAre(table, anchor, limit);
    NewestInside(table, anchor, limit, lo, hi);
    DropZeroCloseKeeps(table[lo..hi]);
  }

  /** `get_candles` of the mirror; None stands for a table that is not there. */
  method GetCandles(table: Option<seq<Bar>>, limit: nat, anchor: Option<int>) returns (r: Result<seq<Bar>, ReadError>)
    requires table.Some? ==> Increasing(table.value)
    ensures table.None? ==> r == Err(NoTable)
    ensures table.Some? ==> Reads(table.value, limit, anchor, r)
    ensures table.Some? ==> r == Read(table.value, limit, anchor)
  {
    hide Reads;
    if table.None? {
      return Err(NoTable);
    }
    ReadSays(table.value, limit, anchor);
    var rows := Newest(UpTo(table.value, anchor), limit);
    if rows == [] {
      return Err(NothingAtOrBefore);
    }
    var found: seq<Bar> := [];
    var i := 0;
    while i < |rows|
      invariant i <= |rows|
      invariant found == DropZeroClose(rows[..i])
    {
      TakeNext(rows, i);
      if rows[i].close != 0 {
        found := found + [rows[i]];
      }
      i := i + 1;
    }
    TakeAll(rows);
    return Ok(found);
  }

  lemma {:induction false} ZeroCloseIsNull(rows: seq<Bar>)
    requires forall c :: c in rows ==> (c.close == 0 <==> IsNull(c))
    ensures DropZeroClose(rows) == DropNulls(rows)
  {
    if rows != [] {
      var init := rows[..|rows| - 1];
      assert rows[|rows| - 1] in rows && forall c :: c in init ==> c in rows;
      ZeroCloseIsNull(init);
    }
  }

  /** The rows production looks at are the mirror's newest `limit` rows and some
    * older ones; without the placeholders they give the same candles exactly when
    * the newest rows hold no placeholder or the older ones hold no candle. */
  lemma {:induction false} SameCandlesIff(rows: seq<Bar>, limit: nat)
    requires limit > 0
    requires forall c :: c in Newest(rows, limit) ==> (c.close == 0 <==> IsNull(c))
    ensures var newest, looked := Newest(rows, limit), Newest(rows, limit + NULL_FILTER_BUFFER_M5);
            DropZeroClose(newest) == ProductionM5(rows, limit) <==>
            CountNulls(newest) == 0 || DropNulls(looked[..|looked| - |newest|]) == []
  {
    hide Tail, DropNulls, DropZeroClose, CountNulls, IsNull;
    var newest, looked := Newest(rows, limit), Newest(rows, limit + NULL_FILTER_BUFFER_M5);
    var older := looked[..|looked| - |newest|];
    assert looked == older + newest;
    ZeroCloseIsNull(newest);
    DropNullsConcat(older, newest);
    DropNullsCount(newest);
    TailAgrees(DropNulls(older), DropNulls(newest), limit);
    TailShort(DropNulls(newest), limit);
    if |newest| < limit {
      assert older == [];
      NothingDropped();
    }
  }

  /** The two reads of M5 candles return the same exactly when the mirror finds a row
    * at all, and its newest `limit` rows hold no placeholder or none of the older
    * rows the production read looks at holds a candle to make up for one. Where the
    * mirror finds no row it raises, and production returns nothing. (Rows without a
    * close price are placeholders.) */
  lemma {:induction false} ReadsAgreeIff(table: seq<Bar>, limit: nat, anchor: Option<int>)
    requires Increasing(table)
    requires forall c :: c in Newest(UpTo(table, anchor), limit) ==> (c.close == 0 <==> IsNull(c))
    ensures var rows := UpTo(table, anchor);
            var newest, looked := Newest(rows, limit), Newest(rows, limit + NULL_FILTER_BUFFER_M5);
            Read(table, limit, anchor) == Ok(ProductionM5(rows, limit)) <==>
            && rows != [] && limit > 0
            && (CountNulls(newest) == 0 || DropNulls(looked[..|looked| - |newest|]) == [])
  {
    hide UpTo, DropNulls, DropZeroClose, CountNulls, IsNull, ProductionM5, Increasing;
    if limit > 0 {
      SameCandlesIff(UpTo(table, anchor), limit);
    }
  }

  lemma {:induction false} NothingDropped()
    ensures DropNulls([]) == []
  {
  }

  lemma {:induction false} TailShort(y: seq<Bar>, n: nat)
    requires |y| <= n
    ensures Tail(y, n) == y
  {
  }
}
