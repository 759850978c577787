/** A stable sort by an integer key, what makes it one, and how it lives with
  * filtering. */
module StableSort {
  import opened Seqs

  /** `x` goes after every element whose key is not larger. */
  function Insert<T>(key: T -> int, xs: seq<T>, x: T): seq<T> {
    if xs == [] then [x]
    else if key(xs[|xs| - 1]) <= key(x) then xs + [x]
    else Insert(key, xs[..|xs| - 1], x) + [xs[|xs| - 1]]
  }

  function Sort<T>(key: T -> int, xs: seq<T>): seq<T> {
    if xs == [] then [] else Insert(key, Sort(key, xs[..|xs| - 1]), xs[|xs| - 1])
  }

  /** No key in `xs` exceeds `k`. */
  predicate AtMost<T>(key: T -> int, xs: seq<T>, k: int) {
    xs == [] || (AtMost(key, xs[..|xs| - 1], k) && key(xs[|xs| - 1]) <= k)
  }

  /** The keys never go down. */
  predicate Sorted<T>(key: T -> int, xs: seq<T>) {
    xs == [] || (Sorted(key, xs[..|xs| - 1]) && AtMost(key, xs[..|xs| - 1], key(xs[|xs| - 1])))
  }

  function Filter<T>(p: T -> bool, xs: seq<T>): seq<T> {
    if xs == [] then []
    else if p(xs[|xs| - 1]) then Filter(p, xs[..|xs| - 1]) + [xs[|xs| - 1]]
    else Filter(p, xs[..|xs| - 1])
  }

  /** Every element satisfies `p`. */
  predicate All<T>(p: T -> bool, xs: seq<T>) {
    xs == [] || (All(p, xs[..|xs| - 1]) && p(xs[|xs| - 1]))
  }

  // ------------------------------------------------- one more at the end

  lemma {:induction false} OneMore<T>(p: T -> bool, key: T -> int, xs: seq<T>, x: T, k: int)
    ensures Filter(p, xs + [x]) == if p(x) then Filter(p, xs) + [x] else Filter(p, xs)
    ensures All(p, xs + [x]) <==> All(p, xs) && p(x)
    ensures Sort(key, xs + [x]) == Insert(key, Sort(key, xs), x)
    ensures AtMost(key, xs + [x], k) <==> AtMost(key, xs, k) && key(x) <= k
    ensures Sorted(key, xs + [x]) <==> Sorted(key, xs) && AtMost(key, xs, key(x))
    ensures forall y :: key(x) > key(y) ==> Insert(key, xs + [x], y) == Insert(key, xs, y) + [x]
  {
    assert (xs + [x])[..|xs + [x]| - 1] == xs;
  }

  // --------------------------------------------------------------- filtering

  lemma {:induction false} FilterConcat<T>(p: T -> bool, xs: seq<T>, ys: seq<T>)
    ensures Filter(p, xs + ys) == Filter(p, xs) + Filter(p, ys)
  {
    if ys == [] {
      assert xs + ys == xs;
    } else {
      DropLastConcat(xs, ys);
      FilterConcat(p, xs, ys[..|ys| - 1]);
    }
  }

  lemma {:induction false} FilterAll<T>(p: T -> bool, xs: seq<T>)
    requires All(p, xs)
    ensures Filter(p, xs) == xs
  {
    if xs != [] {
      FilterAll(p, xs[..|xs| - 1]);
    }
  }

  lemma {:induction false} FilterHolds<T>(p: T -> bool, xs: seq<T>)
    ensures All(p, Filter(p, xs))
  {
    if xs != [] {
      FilterHolds(p, xs[..|xs| - 1]);
      OneMore(p, _ => 0, Filter(p, xs[..|xs| - 1]), xs[|xs| - 1], 0);
    }
  }

  lemma {:induction false} FilterAtMost<T>(p: T -> bool, key: T -> int, xs: seq<T>, k: int)
    requires AtMost(key, xs, k)
    ensures AtMost(key, Filter(p, xs), k)
  {
    if xs != [] {
      FilterAtMost(p, key, xs[..|xs| - 1], k);
      OneMore(p, key, Filter(p, xs[..|xs| - 1]), xs[|xs| - 1], k);
    }
  }

  // ------------------------------------------------------------------ sorting

  lemma {:induction false} AtMostWeaken<T>(key: T -> int, xs: seq<T>, k: int, l: int)
    requires AtMost(key, xs, k) && k <= l
    ensures AtMost(key, xs, l)
  {
    if xs != [] {
      AtMostWeaken(key, xs[..|xs| - 1], k, l);
    }
  }

  lemma {:induction false} InsertAtMost<T>(key: T -> int, xs: seq<T>, x: T, k: int)
    requires AtMost(key, xs, k) && key(x) <= k
    ensures AtMost(key, Insert(key, xs, x), k)
  {
    OneMore(_ => true, key, xs, x, k);
    if xs != [] && key(xs[|xs| - 1]) > key(x) {
      InsertAtMost(key, xs[..|xs| - 1], x, k);
      OneMore(_ => true, key, Insert(key, xs[..|xs| - 1], x), xs[|xs| - 1], k);
    }
  }

  lemma {:induction false} SortedAtMost<T>(key: T -> int, xs: seq<T>, k: int)
    requires Sorted(key, xs) && xs != [] && key(xs[|xs| - 1]) <= k
    ensures AtMost(key, xs, k)
  {
    AtMostWeaken(key, xs[..|xs| - 1], key(xs[|xs| - 1]), k);
  }

  lemma {:induction false} InsertSorted<T>(key: T -> int, xs: seq<T>, x: T)
    requires Sorted(key, xs)
    ensures Sorted(key, Insert(key, xs, x))
  {
    OneMore(_ => true, key, xs, x, 0);
    if xs != [] {
      var init, last := xs[..|xs| - 1], xs[|xs| - 1];
      if key(last) <= key(x) {
        SortedAtMost(key, xs, key(x));
      } else {
        InsertSorted(key, init, x);
        InsertAtMost(key, init, x, key(last));
        OneMore(_ => true, key, Insert(key, init, x), last, 0);
      }
    }
  }

  lemma {:induction false} SortSorted<T>(key: T -> int, xs: seq<T>)
    ensures Sorted(key, Sort(key, xs))
  {
    if xs != [] {
      SortSorted(key, xs[..|xs| - 1]);
      InsertSorted(key, Sort(key, xs[..|xs| - 1]), xs[|xs| - 1]);
    }
  }

  lemma {:induction false} InsertLast<T>(key: T -> int, xs: seq<T>, x: T)
    requires AtMost(key, xs, key(x))
    ensures Insert(key, xs, x) == xs + [x]
  {
  }

  lemma {:induction false} SortOfSorted<T>(key: T -> int, xs: seq<T>)
    requires Sorted(key, xs)
    ensures Sort(key, xs) == xs
  {
    if xs != [] {
      SortOfSorted(key, xs[..|xs| - 1]);
      InsertLast(key, xs[..|xs| - 1], xs[|xs| - 1]);
    }
  }

  lemma {:induction false} FilterInsert<T>(p: T -> bool, key: T -> int, xs: seq<T>, x: T)
    requires Sorted(key, xs)
    ensures Filter(p, Insert(key, xs, x)) == if p(x) then Insert(key, Filter(p, xs), x) else Filter(p, xs)
  {
    OneMore(p, key, xs, x, 0);
    if xs != [] {
      var init, last := xs[..|xs| - 1], xs[|xs| - 1];
      if key(last) <= key(x) {
        SortedAtMost(key, xs, key(x));
        FilterAtMost(p, key, xs, key(x));
        InsertLast(key, Filter(p, xs), x);
      } else {
        FilterInsert(p, key, init, x);
        OneMore(p, key, Insert(key, init, x), last, 0);
        OneMore(p, key, Filter(p, init), last, 0);
      }
    }
  }

  /** Filtering commutes with the stable sort. */
  lemma {:induction false} FilterSort<T>(p: T -> bool, key: T -> int, xs: seq<T>)
    ensures Filter(p, Sort(key, xs)) == Sort(key, Filter(p, xs))
  {
    if xs != [] {
      var init, x := xs[..|xs| - 1], xs[|xs| - 1];
      FilterSort(p, key, init);
      SortSorted(key, init);
      FilterInsert(p, key, Sort(key, init), x);
      OneMore(p, key, Filter(p, init), x, 0);
    }
  }

  lemma {:induction false} ConstantSorted<T>(key: T -> int, xs: seq<T>, k: int)
    requires All(x => key(x) == k, xs)
    ensures Sorted(key, xs) && AtMost(key, xs, k)
  {
    if xs != [] {
      ConstantSorted(key, xs[..|xs| - 1], k);
    }
  }

  /** What makes it the stable sort: the result is ordered, elements of equal key
    * keep the order they had, and nothing is lost or added. */
  lemma {:induction false} SortIsStable<T>(key: T -> int, xs: seq<T>, k: int)
    ensures Sorted(key, Sort(key, xs))
    ensures Filter(x => key(x) == k, Sort(key, xs)) == Filter(x => key(x) == k, xs)
    ensures multiset(Sort(key, xs)) == multiset(xs)
  {
    var p: T -> bool := x => key(x) == k;
    SortSorted(key, xs);
    FilterSort(p, key, xs);
    FilterHolds(p, xs);
    ConstantSorted(key, Filter(p, xs), k);
    SortOfSorted(key, Filter(p, xs));
    SortElements(key, xs);
  }

  lemma {:induction false} InsertElements<T>(key: T -> int, xs: seq<T>, x: T)
    ensures multiset(Insert(key, xs, x)) == multiset(xs) + multiset{x}
  {
    if xs != [] && key(xs[|xs| - 1]) > key(x) {
      InsertElements(key, xs[..|xs| - 1], x);
      assert xs == xs[..|xs| - 1] + [xs[|xs| - 1]];
    }
  }

  lemma {:induction false} SortElements<T>(key: T -> int, xs: seq<T>)
    ensures multiset(Sort(key, xs)) == multiset(xs)
  {
    hide Insert;
    if xs != [] {
      SortElements(key, xs[..|xs| - 1]);
      InsertElements(key, Sort(key, xs[..|xs| - 1]), xs[|xs| - 1]);
      assert xs == xs[..|xs| - 1] + [xs[|xs| - 1]];
    }
  }

  // --------------------------------------------------- what the words stand for

  /** Sorted: no key is larger than one that comes later. */
  lemma {:induction false} SortedMeans<T>(key: T -> int, xs: seq<T>)
    ensures Sorted(key, xs) <==> forall i, j :: 0 <= i < j < |xs| ==> key(xs[i]) <= key(xs[j])
  {
    if xs != [] {
      var init, last := xs[..|xs| - 1], xs[|xs| - 1];
      SortedMeans(key, init);
      AtMostMeans(key, init, key(last));
      forall i | 0 <= i < |init| ensures init[i] == xs[i] {
      }
    }
  }

  lemma {:induction false} AtMostMeans<T>(key: T -> int, xs: seq<T>, k: int)
    ensures AtMost(key, xs, k) <==> forall i :: 0 <= i < |xs| ==> key(xs[i]) <= k
  {
    if xs != [] {
      AtMostMeans(key, xs[..|xs| - 1], k);
      forall i | 0 <= i < |xs| - 1 ensures xs[..|xs| - 1][i] == xs[i] {
      }
    }
  }

  /** Filtering keeps the elements with the property, in their order. */
  lemma {:induction false} FilterMeans<T>(p: T -> bool, xs: seq<T>)
    ensures All(p, xs) <==> forall x :: x in xs ==> p(x)
    ensures Keeps(p, xs, Filter(p, xs))
  {
    hide Keeps;
    if xs == [] {
      KeepsNone(p);
    } else {
      var init, last := xs[..|xs| - 1], xs[|xs| - 1];
      FilterMeans(p, init);
      KeepsNext(p, init, Filter(p, init), last);
      assert xs == init + [last];
    }
  }

  /** `at` says where in `xs` each element of `ys` stood: no place is left out, smaller
    * keys come first, and equal keys in the order of their places. */
  ghost predicate Places<T>(key: T -> int, xs: seq<T>, ys: seq<T>, at: seq<nat>) {
    && |at| == |ys| == |xs|
    && (forall i :: 0 <= i < |at| ==> at[i] < |xs| && ys[i] == xs[at[i]])
    && (forall n: nat :: n < |xs| ==> n in at)
    && (forall i, j :: 0 <= i < j < |at| ==>
          key(ys[i]) < key(ys[j]) || (key(ys[i]) == key(ys[j]) && at[i] < at[j]))
  }

  /** The same for some of the elements of `xs`. */
  ghost predicate Placed<T>(key: T -> int, xs: seq<T>, ys: seq<T>, at: seq<nat>) {
    && |at| == |ys|
    && (forall i :: 0 <= i < |at| ==> at[i] < |xs| && ys[i] == xs[at[i]])
    && (forall i, j :: 0 <= i < j < |at| ==>
          key(ys[i]) < key(ys[j]) || (key(ys[i]) == key(ys[j]) && at[i] < at[j]))
  }

  lemma {:induction false} PlacedSnoc<T>(key: T -> int, xs: seq<T>, ys: seq<T>, at: seq<nat>, y: T, m: nat)
    requires Placed(key, xs, ys, at) && m < |xs| && xs[m] == y
    requires forall i :: 0 <= i < |ys| ==> key(ys[i]) < key(y) || (key(ys[i]) == key(y) && at[i] < m)
    ensures Placed(key, xs, ys + [y], at + [m])
  {
  }

  lemma {:induction false} PlacedPart<T>(key: T -> int, xs: seq<T>, x: T, ys: seq<T>, at: seq<nat>, k: nat)
    requires Placed(key, xs, ys, at) && k <= |ys|
    ensures Placed(key, xs + [x], ys[..k], at[..k]) && Placed(key, xs, ys[..k], at[..k])
  {
  }

  lemma {:induction false} LastKeyIsMost<T>(key: T -> int, xs: seq<T>, ys: seq<T>, at: seq<nat>, x: T)
    requires Placed(key, xs, ys, at) && (ys == [] || key(ys[|ys| - 1]) <= key(x))
    ensures Placed(key, xs + [x], ys + [x], at + [|xs|])
  {
    PlacedPart(key, xs, x, ys, at, |ys|);
    assert ys[..|ys|] == ys && at[..|at|] == at;
    forall i | 0 <= i < |ys| ensures key(ys[i]) <= key(x) && at[i] < |xs| {
      assert i < |ys| - 1 ==> key(ys[i]) <= key(ys[|ys| - 1]);
    }
    PlacedSnoc(key, xs + [x], ys, at, x, |xs|);
  }

  /** The element that comes after all of `xs`, inserted among some of those. */
  lemma {:induction false} InsertPlaced<T>(key: T -> int, xs: seq<T>, ys: seq<T>, at: seq<nat>, x: T)
    returns (bt: seq<nat>)
    requires Placed(key, xs, ys, at)
    ensures Placed(key, xs + [x], Insert(key, ys, x), bt)
    ensures forall n :: n in bt <==> n in at || n == |xs|
    decreases |ys|
  {
    if ys == [] || key(ys[|ys| - 1]) <= key(x) {
      bt := at + [|xs|];
      LastKeyIsMost(key, xs, ys, at, x);
      assert ys == [] ==> ys + [x] == [x];
    } else {
      var k := |ys| - 1;
      var last, m := ys[k], at[k];
      PlacedPart(key, xs, x, ys, at, k);
      var ct := InsertPlaced(key, xs, ys[..k], at[..k], x);
      var zs := Insert(key, ys[..k], x);
      forall i | 0 <= i < |zs| ensures key(zs[i]) < key(last) || (key(zs[i]) == key(last) && ct[i] < m) {
        assert zs[i] == (xs + [x])[ct[i]] && ct[i] in ct;
        if ct[i] != |xs| {
          assert ct[i] in at[..k];
          var j :| 0 <= j < k && at[j] == ct[i];
          assert zs[i] == ys[j];
        }
      }
      bt := ct + [m];
      PlacedSnoc(key, xs + [x], zs, ct, last, m);
      assert at == at[..k] + [m];
    }
  }

  /** What the sort gives: every element once, the smaller key first, and of equal
    * keys the one that stood first. */
  lemma {:induction false} SortPlaces<T>(key: T -> int, xs: seq<T>) returns (at: seq<nat>)
    ensures Places(key, xs, Sort(key, xs), at)
  {
    at := SortPlaced(key, xs);
    hide Insert;
    SortLength(key, xs);
  }

  lemma {:induction false} SortPlaced<T>(key: T -> int, xs: seq<T>) returns (at: seq<nat>)
    ensures Placed(key, xs, Sort(key, xs), at)
    ensures forall n: nat :: n < |xs| ==> n in at
  {
    if xs == [] {
      at := [];
    } else {
      var k := |xs| - 1;
      at := SortPlaced(key, xs[..k]);
      at := InsertPlaced(key, xs[..k], Sort(key, xs[..k]), at, xs[k]);
      assert xs[..k] + [xs[k]] == xs;
    }
  }

  lemma {:induction false} SortLength<T>(key: T -> int, xs: seq<T>)
    ensures |Sort(key, xs)| == |xs|
  {
    hide Sort;
    SortElements(key, xs);
    assert |multiset(Sort(key, xs))| == |multiset(xs)|;
  }
}
