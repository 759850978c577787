/** Swing highs and lows: peaks of a series in which equal neighbours form plateaus. */
module Peaks {
  // ----------------------------------------------------------------- the meaning

  /** `i..j` is a run of equal values. */
  predicate Run(arr: seq<int>, i: nat, j: nat) {
    i <= j < |arr| && forall k :: i <= k <= j ==> arr[k] == arr[i]
  }

  /** `m` is the midpoint of a run with a strictly lower value on both sides. */
  ghost predicate PlateauPeak(arr: seq<int>, m: nat) {
    exists i: nat, j: nat :: HigherRun(arr, i, j) && m == (i + j) / 2
  }

  predicate HigherRun(arr: seq<int>, i: nat, j: nat) {
    0 < i && Run(arr, i, j) && j + 1 < |arr| && arr[i - 1] < arr[i] && arr[j + 1] < arr[i]
  }

  /** The same with the values on both sides strictly higher. */
  predicate LowerRun(arr: seq<int>, i: nat, j: nat) {
    0 < i && Run(arr, i, j) && j + 1 < |arr| && arr[i - 1] > arr[i] && arr[j + 1] > arr[i]
  }

  function Min(a: int, b: int): int { if a <= b then a else b }

  function Max(a: int, b: int): int { if a >= b then a else b }

  /** The lowest value met on the way to the left, up to the first value above `h`. */
  function LeftBase(s: seq<int>, h: int): int {
    if s == [] || s[|s| - 1] > h then h else Min(s[|s| - 1], LeftBase(s[..|s| - 1], h))
  }

  /** The same on the way to the right. */
  function RightBase(s: seq<int>, h: int): int {
    if s == [] || s[0] > h then h else Min(s[0], RightBase(s[1..], h))
  }

  /** How far the run `i..j` stands out: its height above the higher of its two bases. */
  function Prominence(arr: seq<int>, i: nat, j: nat): int
    requires i <= j < |arr|
  {
    arr[i] - Max(LeftBase(arr[..i], arr[i]), RightBase(arr[j + 1..], arr[i]))
  }

  /** `m` is the midpoint of a strictly higher run that stands out by `v`, enough. */
  ghost predicate PeakOf(arr: seq<int>, wanted: int, m: nat, v: int) {
    exists i: nat, j: nat :: HigherRun(arr, i, j) && m == (i + j) / 2 && v == Prominence(arr, i, j) && v >= wanted
  }

  /** `m` is the midpoint of a strictly lower run that, upside down, stands out by `v`. */
  ghost predicate ValleyOf(arr: seq<int>, wanted: int, m: nat, v: int) {
    exists i: nat, j: nat ::
      LowerRun(arr, i, j) && m == (i + j) / 2 && v == Prominence(Negated(arr), i, j) && v >= wanted
  }

  function Negated(arr: seq<int>): seq<int> {
    seq(|arr|, i requires 0 <= i < |arr| => 0 - arr[i])
  }

  predicate Increasing(xs: seq<nat>) {
    forall a, b :: 0 <= a < b < |xs| ==> xs[a] < xs[b]
  }

  // ---------------------------------------------------------------- compression

  function End(arr: seq<int>, starts: seq<nat>, k: nat): int
    requires k < |starts|
  {
    (if k + 1 < |starts| then starts[k + 1] else |arr|) - 1
  }

  /** The runs starting at `starts` partition the series, each of equal values and
    * different from the next. */
  predicate Runs(arr: seq<int>, starts: seq<nat>, upto: nat) {
    && Increasing(starts) && upto <= |arr|
    && (starts == [] <==> upto == 0) && (starts != [] ==> starts[0] == 0)
    && (forall k :: 0 <= k < |starts| ==> starts[k] < upto)
    && (forall k :: 0 <= k < |starts| ==> Run(arr, starts[k], (if k + 1 < |starts| then starts[k + 1] else upto) - 1))
    && (forall k :: 0 < k < |starts| ==> arr[starts[k] - 1] != arr[starts[k]])
  }

  /** `vals` and `idx` hold the value and the midpoint of every run. */
  predicate Midpoints(arr: seq<int>, starts: seq<nat>, upto: nat, vals: seq<int>, idx: seq<nat>) {
    && |vals| == |idx| == |starts|
    && forall k :: 0 <= k < |starts| ==>
         && starts[k] < |arr| && vals[k] == arr[starts[k]]
         && idx[k] == (starts[k] + (if k + 1 < |starts| then starts[k + 1] else upto) - 1) / 2
  }

  lemma {:induction false} RunsSnoc(arr: seq<int>, starts: seq<nat>, i: nat, j: nat)
    requires Runs(arr, starts, i) && Run(arr, i, j) && (i > 0 ==> arr[i - 1] != arr[i])
    ensures Runs(arr, starts + [i], j + 1)
  {
    hide Run;
    var next := starts + [i];
    assert Run(arr, i, j) ==> i <= j < |arr| by {
      RunBounds(arr, i, j);
    }
    forall k | 0 <= k < |next| ensures Run(arr, next[k], (if k + 1 < |next| then next[k + 1] else j + 1) - 1) {
      if k < |starts| {
        assert Run(arr, starts[k], (if k + 1 < |starts| then starts[k + 1] else i) - 1);
      }
    }
  }

  lemma {:induction false} RunBounds(arr: seq<int>, i: nat, j: nat)
    ensures Run(arr, i, j) ==> i <= j < |arr|
  {
  }

  lemma {:induction false} MidpointsSnoc(arr: seq<int>, starts: seq<nat>, vals: seq<int>, idx: seq<nat>, i: nat, j: nat)
    requires Midpoints(arr, starts, i, vals, idx) && i <= j < |arr|
    ensures Midpoints(arr, starts + [i], j + 1, vals + [arr[i]], idx + [(i + j) / 2])
  {
  }

  lemma {:induction false} NoRuns(arr: seq<int>)
    ensures Runs(arr, [], 0) && Midpoints(arr, [], 0, [], [])
  {
  }

  /** The first half of `_find_peaks_plateau`: every run becomes its value and its midpoint. */
  method Compress(arr: seq<int>) returns (vals: seq<int>, idx: seq<nat>)
    ensures exists starts :: Runs(arr, starts, |arr|) && Midpoints(arr, starts, |arr|, vals, idx)
  {
    hide Runs, Midpoints;
    vals, idx := [], [];
    ghost var starts: seq<nat> := [];
    NoRuns(arr);
    var i: nat := 0;
    while i < |arr|
      invariant i <= |arr| && Runs(arr, starts, i) && Midpoints(arr, starts, i, vals, idx)
      invariant i > 0 && i < |arr| ==> arr[i - 1] != arr[i]
    {
      var j := i;
      while j + 1 < |arr| && arr[j + 1] == arr[i]
        invariant Run(arr, i, j)
      {
        j := j + 1;
      }
      RunsSnoc(arr, starts, i, j);
      MidpointsSnoc(arr, starts, vals, idx, i, j);
      vals := vals + [arr[i]];
      idx := idx + [(i + j) / 2];
      starts := starts + [i];
      i := j + 1;
    }
  }

  // ---------------------------------------------------------------------- peaks

  predicate StrictPeak(vals: seq<int>, p: nat) {
    0 < p && p + 1 < |vals| && vals[p - 1] < vals[p] && vals[p + 1] < vals[p]
  }

  /** What the signal library returns for a series without equal neighbours: the
    * strict peaks, in order, that reach the wanted prominence. */
  method StrictPeaks(vals: seq<int>, wanted: int) returns (peaks: seq<nat>)
    ensures Increasing(peaks)
    ensures forall p: nat :: p in peaks <==> StrictPeak(vals, p) && Prominence(vals, p, p) >= wanted
  {
    hide Prominence;
    peaks := [];
    var p: nat := 0;
    while p < |vals|
      invariant p <= |vals| && Increasing(peaks) && forall a :: 0 <= a < |peaks| ==> peaks[a] < p
      invariant forall q: nat :: q in peaks <==> q < p && StrictPeak(vals, q) && Prominence(vals, q, q) >= wanted
    {
      if StrictPeak(vals, p) && Prominence(vals, p, p) >= wanted {
        peaks := peaks + [p];
      }
      p := p + 1;
    }
  }

  // ----------------------------------------------------- prominence of a run

  lemma {:induction false} LeftRun(s: seq<int>, n: nat, h: int)
    requires n < |s| && forall q :: n <= q < |s| ==> s[q] == s[n]
    ensures LeftBase(s, h) == if s[n] > h then h else Min(s[n], LeftBase(s[..n], h))
  {
    if |s| > n + 1 {
      assert s[..|s| - 1][..n] == s[..n];
      LeftRun(s[..|s| - 1], n, h);
    }
  }

  lemma {:induction false} RightRun(s: seq<int>, n: nat, h: int)
    requires 0 < n <= |s| && forall q :: 0 <= q < n ==> s[q] == s[0]
    ensures RightBase(s, h) == if s[0] > h then h else Min(s[0], RightBase(s[n..], h))
  {
    if n > 1 {
      assert s[1..][n - 1..] == s[n..];
      RightRun(s[1..], n - 1, h);
    }
  }

  /** Where run `k` starts; the end of the series for the one after the last. */
  function StartOf(arr: seq<int>, starts: seq<nat>, k: nat): nat
    requires k <= |starts|
  {
    if k < |starts| then starts[k] else |arr|
  }

  lemma {:induction false} LeftBaseOfRuns(arr: seq<int>, starts: seq<nat>, vals: seq<int>, idx: seq<nat>, k: nat, h: int)
    requires Runs(arr, starts, |arr|) && Midpoints(arr, starts, |arr|, vals, idx) && k <= |starts|
    ensures StartOf(arr, starts, k) <= |arr| && LeftBase(arr[..StartOf(arr, starts, k)], h) == LeftBase(vals[..k], h)
  {
    hide LeftBase, Midpoints;
    SameLengths(arr, starts, vals, idx);
    if k == 0 {
      assert arr[..StartOf(arr, starts, 0)] == [] && vals[..0] == [];
    } else {
      LeftBaseOfRuns(arr, starts, vals, idx, k - 1, h);
      assert Run(arr, starts[k - 1], End(arr, starts, k - 1));
      var s := arr[..StartOf(arr, starts, k)];
      assert s[..starts[k - 1]] == arr[..starts[k - 1]];
      LeftRun(s, starts[k - 1], h);
      assert vals[..k][..k - 1] == vals[..k - 1];
      LeftRun(vals[..k], k - 1, h);
    }
  }

  lemma {:induction false} RightBaseOfRuns(arr: seq<int>, starts: seq<nat>, vals: seq<int>, idx: seq<nat>, k: nat, h: int)
    requires Runs(arr, starts, |arr|) && Midpoints(arr, starts, |arr|, vals, idx) && k <= |starts|
    ensures StartOf(arr, starts, k) <= |arr| && RightBase(arr[StartOf(arr, starts, k)..], h) == RightBase(vals[k..], h)
    decreases |starts| - k
  {
    hide RightBase, Midpoints;
    SameLengths(arr, starts, vals, idx);
    if k == |starts| {
      assert arr[|arr|..] == [] && vals[k..] == [];
    } else {
      RightBaseOfRuns(arr, starts, vals, idx, k + 1, h);
      assert Run(arr, starts[k], End(arr, starts, k));
      var s, n := arr[starts[k]..], StartOf(arr, starts, k + 1) - starts[k];
      assert s[n..] == arr[StartOf(arr, starts, k + 1)..];
      RightRun(s, n, h);
      assert vals[k..][1..] == vals[k + 1..];
      RightRun(vals[k..], 1, h);
    }
  }

  /** A run stands out among the values of the runs as it does in the series. */
  lemma {:induction false} RunProminence(arr: seq<int>, starts: seq<nat>, vals: seq<int>, idx: seq<nat>, k: nat)
    requires Runs(arr, starts, |arr|) && Midpoints(arr, starts, |arr|, vals, idx) && k < |starts|
    ensures k < |vals| && 0 <= End(arr, starts, k) < |arr| && starts[k] <= End(arr, starts, k)
    ensures Prominence(vals, k, k) == Prominence(arr, starts[k], End(arr, starts, k))
  {
    hide LeftBase, RightBase, Midpoints;
    SameLengths(arr, starts, vals, idx);
    assert Run(arr, starts[k], End(arr, starts, k));
    LeftBaseOfRuns(arr, starts, vals, idx, k, vals[k]);
    RightBaseOfRuns(arr, starts, vals, idx, k + 1, vals[k]);
  }

  /** Every strictly higher run stands out by something. */
  lemma {:induction false} HigherRunStandsOut(arr: seq<int>, i: nat, j: nat)
    requires HigherRun(arr, i, j)
    ensures Prominence(arr, i, j) > 0
  {
    assert arr[..i][|arr[..i]| - 1] == arr[i - 1];
    assert arr[j + 1..][0] == arr[j + 1];
  }

  /** With no prominence asked for, the peaks are the midpoints of all the strictly
    * higher runs. */
  lemma {:induction false} EveryPlateauPeakCounts(arr: seq<int>, wanted: int, m: nat)
    requires wanted <= 0
    ensures PlateauPeak(arr, m) <==> exists v :: PeakOf(arr, wanted, m, v)
  {
    hide HigherRun, Prominence;
    if PlateauPeak(arr, m) {
      var i: nat, j: nat :| HigherRun(arr, i, j) && m == (i + j) / 2;
      HigherRunBounds(arr, i, j);
      HigherRunStandsOut(arr, i, j);
      assert PeakOf(arr, wanted, m, Prominence(arr, i, j));
    }
  }

  lemma {:induction false} HigherRunBounds(arr: seq<int>, i: nat, j: nat)
    ensures HigherRun(arr, i, j) ==> i <= j < |arr|
  {
  }

  /** The index of the run a position lies in. */
  lemma {:induction false} RunOf(arr: seq<int>, starts: seq<nat>, i: nat) returns (k: nat)
    requires Runs(arr, starts, |arr|) && i < |arr|
    ensures k < |starts| && starts[k] <= i <= End(arr, starts, k)
  {
    k := |starts| - 1;
    while starts[k] > i
      invariant k < |starts| && i <= End(arr, starts, k)
      decreases k
    {
      k := k - 1;
    }
  }

  /** A strictly higher run is exactly one of the runs, and a strict peak among their values. */
  lemma {:induction false} HigherRunIsPeak(arr: seq<int>, starts: seq<nat>, vals: seq<int>, i: nat, j: nat) returns (k: nat)
    requires Runs(arr, starts, |arr|) && |vals| == |starts|
    requires forall k :: 0 <= k < |starts| ==> starts[k] < |arr| && vals[k] == arr[starts[k]]
    requires HigherRun(arr, i, j)
    ensures k < |starts| && starts[k] == i && End(arr, starts, k) == j && StrictPeak(vals, k)
  {
    k := RunOf(arr, starts, i);
    assert Run(arr, starts[k], End(arr, starts, k));
    assert starts[k] == i;
    assert End(arr, starts, k) == j;
    assert k > 0 && k + 1 < |starts|;
    assert Run(arr, starts[k - 1], End(arr, starts, k - 1));
    assert arr[starts[k] - 1] == vals[k - 1];
    assert arr[starts[k + 1]] == vals[k + 1];
  }

  lemma {:induction false} PeakIsHigherRun(arr: seq<int>, starts: seq<nat>, vals: seq<int>, k: nat)
    requires Runs(arr, starts, |arr|) && |vals| == |starts|
    requires forall k :: 0 <= k < |starts| ==> starts[k] < |arr| && vals[k] == arr[starts[k]]
    requires StrictPeak(vals, k)
    ensures End(arr, starts, k) >= 0 && HigherRun(arr, starts[k], End(arr, starts, k))
  {
    assert Run(arr, starts[k - 1], End(arr, starts, k - 1));
    assert Run(arr, starts[k], End(arr, starts, k));
  }

  /** Midpoints of later runs come later. */
  lemma {:induction false} MidpointsIncrease(arr: seq<int>, starts: seq<nat>, vals: seq<int>, idx: seq<nat>, a: nat, b: nat)
    requires Runs(arr, starts, |arr|) && Midpoints(arr, starts, |arr|, vals, idx) && a < b < |starts|
    ensures idx[a] < idx[b]
  {
    assert Run(arr, starts[a], End(arr, starts, a)) && Run(arr, starts[b], End(arr, starts, b));
    assert starts[a + 1] <= starts[b];
  }

  /** `_find_peaks_plateau`: in increasing order, the midpoint and the prominence of
    * exactly the strictly higher runs that stand out enough. */
  method FindPeaksPlateau(arr: seq<int>, wanted: int) returns (found: seq<(nat, int)>)
    ensures forall a, b :: 0 <= a < b < |found| ==> found[a].0 < found[b].0
    ensures forall m: nat, v: int :: (m, v) in found <==> PeakOf(arr, wanted, m, v)
  {
    hide Runs, Midpoints, Run, PeakOf, Prominence;
    found := [];
    if |arr| < 3 {
      TooShort(arr, wanted);
      return;
    }
    var vals, idx := Compress(arr);
    ghost var starts :| Runs(arr, starts, |arr|) && Midpoints(arr, starts, |arr|, vals, idx);
    SameLengths(arr, starts, vals, idx);
    if |vals| < 3 {
      forall m: nat, v: int ensures !PeakOf(arr, wanted, m, v) {
        if PeakOf(arr, wanted, m, v) {
          var k := PeakIsFound(arr, starts, vals, idx, wanted, m, v);
        }
      }
      return;
    }
    var peaks := StrictPeaks(vals, wanted);
    var n := 0;
    while n < |peaks|
      invariant n <= |peaks| && |found| == n
      invariant forall a :: 0 <= a < n ==>
                  peaks[a] < |idx| && found[a] == (idx[peaks[a]], Prominence(vals, peaks[a], peaks[a]))
    {
      assert peaks[n] in peaks;
      found := found + [(idx[peaks[n]], Prominence(vals, peaks[n], peaks[n]))];
      n := n + 1;
    }
    forall a, b | 0 <= a < b < |found| ensures found[a].0 < found[b].0 {
      assert peaks[b] in peaks;
      MidpointsIncrease(arr, starts, vals, idx, peaks[a], peaks[b]);
    }
    forall m: nat, v: int ensures (m, v) in found <==> PeakOf(arr, wanted, m, v) {
      if (m, v) in found {
        var a :| 0 <= a < |found| && found[a] == (m, v);
        assert peaks[a] in peaks;
        FoundIsPeak(arr, starts, vals, idx, wanted, peaks[a]);
      }
      if PeakOf(arr, wanted, m, v) {
        var k := PeakIsFound(arr, starts, vals, idx, wanted, m, v);
        assert k in peaks;
        var a :| 0 <= a < |peaks| && peaks[a] == k;
        assert found[a] == (m, v);
      }
    }
  }

  lemma {:induction false} TooShort(arr: seq<int>, wanted: int)
    requires |arr| < 3
    ensures forall m: nat, v: int :: !PeakOf(arr, wanted, m, v)
  {
    hide Prominence;
  }

  lemma {:induction false} SameLengths(arr: seq<int>, starts: seq<nat>, vals: seq<int>, idx: seq<nat>)
    requires Midpoints(arr, starts, |arr|, vals, idx)
    ensures |vals| == |idx| == |starts|
    ensures forall k :: 0 <= k < |starts| ==> starts[k] < |arr| && vals[k] == arr[starts[k]]
  {
  }

  lemma {:induction false} FoundIsPeak(arr: seq<int>, starts: seq<nat>, vals: seq<int>, idx: seq<nat>, wanted: int, k: nat)
    requires Runs(arr, starts, |arr|) && Midpoints(arr, starts, |arr|, vals, idx)
    requires StrictPeak(vals, k) && Prominence(vals, k, k) >= wanted
    ensures k < |idx| && PeakOf(arr, wanted, idx[k], Prominence(vals, k, k))
  {
    hide Runs, HigherRun, Prominence;
    SameLengths(arr, starts, vals, idx);
    PeakIsHigherRun(arr, starts, vals, k);
    RunProminence(arr, starts, vals, idx, k);
    assert idx[k] == (starts[k] + End(arr, starts, k)) / 2;
  }

  lemma {:induction false} PeakIsFound(arr: seq<int>, starts: seq<nat>, vals: seq<int>, idx: seq<nat>, wanted: int,
                                       m: nat, v: int) returns (k: nat)
    requires Runs(arr, starts, |arr|) && Midpoints(arr, starts, |arr|, vals, idx) && PeakOf(arr, wanted, m, v)
    ensures k < |idx| == |vals| && StrictPeak(vals, k) && idx[k] == m && v == Prominence(vals, k, k) >= wanted
  {
    hide Runs, Prominence;
    SameLengths(arr, starts, vals, idx);
    var i: nat, j: nat :| HigherRun(arr, i, j) && m == (i + j) / 2 && v == Prominence(arr, i, j) && v >= wanted;
    k := HigherRunIsPeak(arr, starts, vals, i, j);
    RunProminence(arr, starts, vals, idx, k);
  }

  // ------------------------------------------------------------ what stands out

  /** `b` is the lowest of the values and `h`. */
  predicate LowestOf(s: seq<int>, h: int, b: int) {
    b <= h && (forall k :: 0 <= k < |s| ==> b <= s[k] <= h) && (b == h || b in s)
  }

  /** The values from `a` up to `i`, behind the first one above `h`, go down to `b`. */
  predicate LeftStretch(arr: seq<int>, a: nat, i: nat, h: int, b: int) {
    a <= i <= |arr| && (a == 0 || arr[a - 1] > h) && LowestOf(arr[a..i], h, b)
  }

  /** The values from `j` up to `z`, before the first one above `h`, go down to `b`. */
  predicate RightStretch(arr: seq<int>, j: nat, z: nat, h: int, b: int) {
    j <= z <= |arr| && (z == |arr| || arr[z] > h) && LowestOf(arr[j..z], h, b)
  }

  ghost predicate LeftGoesTo(arr: seq<int>, i: nat, h: int, b: int) {
    exists a: nat :: LeftStretch(arr, a, i, h, b)
  }

  ghost predicate RightGoesTo(arr: seq<int>, j: nat, h: int, b: int) {
    exists z: nat :: RightStretch(arr, j, z, h, b)
  }

  lemma {:induction false} LeftBaseMeans(s: seq<int>, h: int) returns (a: nat)
    ensures a <= |s| && (a == 0 || s[a - 1] > h) && LowestOf(s[a..], h, LeftBase(s, h))
  {
    if s == [] || s[|s| - 1] > h {
      a := |s|;
    } else {
      var init := s[..|s| - 1];
      a := LeftBaseMeans(init, h);
      assert s[a..] == init[a..] + [s[|s| - 1]];
    }
  }

  lemma {:induction false} RightBaseMeans(s: seq<int>, h: int) returns (z: nat)
    ensures z <= |s| && (z == |s| || s[z] > h) && LowestOf(s[..z], h, RightBase(s, h))
  {
    if s == [] || s[0] > h {
      z := 0;
    } else {
      var n := RightBaseMeans(s[1..], h);
      z := n + 1;
      assert s[..z] == [s[0]] + s[1..][..n];
    }
  }

  /** A run stands out by its height above the higher of the two lows met on the way to
    * something higher, or to the end of the series. */
  lemma {:induction false} ProminenceMeans(arr: seq<int>, i: nat, j: nat) returns (x: int, y: int)
    requires i <= j < |arr|
    ensures LeftGoesTo(arr, i, arr[i], x) && RightGoesTo(arr, j + 1, arr[i], y)
    ensures Prominence(arr, i, j) == arr[i] - if x >= y then x else y
  {
    hide LowestOf;
    x, y := LeftBase(arr[..i], arr[i]), RightBase(arr[j + 1..], arr[i]);
    var a := LeftBaseMeans(arr[..i], arr[i]);
    assert arr[..i][a..] == arr[a..i];
    assert LeftStretch(arr, a, i, arr[i], x);
    var n := RightBaseMeans(arr[j + 1..], arr[i]);
    assert arr[j + 1..][..n] == arr[j + 1..j + 1 + n];
    assert RightStretch(arr, j + 1, j + 1 + n, arr[i], y);
  }

  // --------------------------------------------------------------- highs and lows

  lemma {:induction false} NegatedRuns(arr: seq<int>, i: nat, j: nat)
    ensures HigherRun(Negated(arr), i, j) <==> LowerRun(arr, i, j)
  {
    var neg := Negated(arr);
    if j < |arr| && i <= j {
      assert (forall k :: i <= k <= j ==> neg[k] == neg[i]) <==> (forall k :: i <= k <= j ==> arr[k] == arr[i]) by {
        assert forall k :: 0 <= k < |arr| ==> neg[k] == 0 - arr[k];
      }
    }
  }

  /** `swing_lows`: the highs of the negated series are exactly the valleys of the series. */
  method SwingLows(lows: seq<int>, wanted: int) returns (found: seq<(nat, int)>)
    ensures forall a, b :: 0 <= a < b < |found| ==> found[a].0 < found[b].0
    ensures forall m: nat, v: int :: (m, v) in found <==> ValleyOf(lows, wanted, m, v)
  {
    hide Run, Negated, PeakOf, ValleyOf;
    found := [];
    forall m: nat, v: int ensures PeakOf(Negated(lows), wanted, m, v) <==> ValleyOf(lows, wanted, m, v) {
      ValleyIff(lows, wanted, m, v);
    }
    if |lows| < 3 {
      NegatedLength(lows);
      TooShort(Negated(lows), wanted);
      return;
    }
    found := FindPeaksPlateau(Negated(lows), wanted);
  }

  lemma {:induction false} NegatedLength(arr: seq<int>)
    ensures |Negated(arr)| == |arr|
  {
  }

  lemma {:induction false} ValleyIff(arr: seq<int>, wanted: int, m: nat, v: int)
    ensures PeakOf(Negated(arr), wanted, m, v) <==> ValleyOf(arr, wanted, m, v)
  {
    hide HigherRun, LowerRun, Negated, Prominence;
    forall i: nat, j: nat ensures HigherRun(Negated(arr), i, j) <==> LowerRun(arr, i, j) {
      NegatedRuns(arr, i, j);
    }
  }
}
