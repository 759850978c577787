/** Sequence facts used by the loops of the project, and what it means to keep some of
  * the elements. */
module Seqs {
  lemma {:induction false} TakeNext<T>(s: seq<T>, i: nat)
    requires i < |s|
    ensures s[..i + 1] == s[..i] + [s[i]]
    ensures s[..i + 1][..i] == s[..i]
  {
  }

  lemma {:induction false} TakeAll<T>(s: seq<T>)
    ensures s[..|s|] == s
  {
  }

  lemma {:induction false} DropLastConcat<T>(x: seq<T>, y: seq<T>)
    requires y != []
    ensures (x + y)[..|x + y| - 1] == x + y[..|y| - 1]
    ensures (x + y)[|x + y| - 1] == y[|y| - 1]
  {
  }

  lemma {:induction false} SliceDropLast<T>(s: seq<T>, i: nat, j: nat)
    requires i < j <= |s|
    ensures s[i..j][..|s[i..j]| - 1] == s[i..j - 1]
    ensures s[i..j][|s[i..j]| - 1] == s[j - 1]
  {
  }

  lemma {:induction false} SplitAt<T>(s: seq<T>, k: nat)
    requires k <= |s|
    ensures s[..k] + s[k..] == s
    ensures s[0..k] == s[..k] && s[k..|s|] == s[k..]
  {
  }

  lemma {:induction false} PrefixAt<T>(x: seq<T>, y: seq<T>)
    requires x <= y && x != []
    ensures |x| <= |y| && y[..|x|] == x && y[|x| - 1] == x[|x| - 1]
  {
  }

  lemma {:induction false} DropPrefix<T>(x: seq<T>, y: seq<T>)
    ensures (x + y)[|x|..] == y && (x + y)[..|x|] == x
  {
  }

  lemma {:induction false} PrefixTake<T>(x: seq<T>, y: seq<T>)
    requires x <= y
    ensures |x| <= |y| && y[..|x|] == x
    ensures |x| == |y| ==> x == y
  {
  }

  /** `kept` are the elements with property `p`, in their order; `at` says where they stand. */
  ghost predicate KeptAt<T>(p: T -> bool, xs: seq<T>, kept: seq<T>, at: seq<nat>) {
    && |at| == |kept|
    && (forall i :: 0 <= i < |at| ==> at[i] < |xs| && kept[i] == xs[at[i]] && p(kept[i]))
    && (forall i, j :: 0 <= i < j < |at| ==> at[i] < at[j])
    && forall n: nat :: n < |xs| && p(xs[n]) ==> n in at
  }

  ghost predicate Keeps<T>(p: T -> bool, xs: seq<T>, kept: seq<T>) {
    exists at: seq<nat> :: KeptAt(p, xs, kept, at)
  }

  lemma {:induction false} KeepsNone<T>(p: T -> bool)
    ensures Keeps(p, [], [])
  {
    assert KeptAt(p, [], [], []);
  }

  lemma {:induction false} KeptNext<T>(p: T -> bool, xs: seq<T>, kept: seq<T>, at: seq<nat>, x: T)
    requires KeptAt(p, xs, kept, at)
    ensures p(x) ==> KeptAt(p, xs + [x], kept + [x], at + [|xs|])
    ensures !p(x) ==> KeptAt(p, xs + [x], kept, at)
  {
    forall n: nat | n < |xs| ensures (xs + [x])[n] == xs[n] {
    }
  }

  lemma {:induction false} KeepsNext<T>(p: T -> bool, xs: seq<T>, kept: seq<T>, x: T)
    requires Keeps(p, xs, kept)
    ensures Keeps(p, xs + [x], if p(x) then kept + [x] else kept)
  {
    hide KeptAt;
    var at: seq<nat> :| KeptAt(p, xs, kept, at);
    KeptNext(p, xs, kept, at, x);
  }

  /** Places among places. */
  lemma {:induction false} Onward(from: seq<nat>, at: seq<nat>) returns (places: seq<nat>)
    requires forall i :: 0 <= i < |at| ==> at[i] < |from|
    requires forall k: nat :: k < |from| ==> k in at
    ensures |places| == |at| && forall i :: 0 <= i < |at| ==> places[i] == from[at[i]]
    ensures forall n :: n in places <==> n in from
  {
    places := seq(|at|, i requires 0 <= i < |at| => from[at[i]]);
    forall n | n in from ensures n in places {
      var k :| 0 <= k < |from| && from[k] == n;
      assert k in at;
      var i :| 0 <= i < |at| && at[i] == k;
      assert places[i] == n;
    }
  }

  lemma {:induction false} KeepsSame<T(!new)>(p: T -> bool, q: T -> bool, xs: seq<T>, kept: seq<T>)
    requires Keeps(p, xs, kept) && forall x :: p(x) <==> q(x)
    ensures Keeps(q, xs, kept)
  {
    var at: seq<nat> :| KeptAt(p, xs, kept, at);
    assert KeptAt(q, xs, kept, at);
  }
}
