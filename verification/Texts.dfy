/** Stripping, case and padding of strings. */
module Texts {
  /** White space, as stripping texts understands it: tab to carriage return, the
    * separators 0x1c to 0x1f, and the blanks of Unicode. */
  predicate IsSpace(c: char) {
    c == ' ' || '\t' <= c <= '\r' || '\U{1c}' <= c <= '\U{1f}' || c == '\U{85}' || c == '\U{a0}' ||
    c == '\U{1680}' || '\U{2000}' <= c <= '\U{200a}' || '\U{2028}' <= c <= '\U{2029}' ||
    c == '\U{202f}' || c == '\U{205f}' || c == '\U{3000}'
  }

  function StripLeft(p: char -> bool, s: string): string {
    if s != "" && p(s[0]) then StripLeft(p, s[1..]) else s
  }

  function StripRight(p: char -> bool, s: string): string {
    if s != "" && p(s[|s| - 1]) then StripRight(p, s[..|s| - 1]) else s
  }

  function Strip(p: char -> bool, s: string): string {
    StripRight(p, StripLeft(p, s))
  }

  /** Nothing to strip. */
  predicate Trimmed(p: char -> bool, s: string) {
    s == "" || (!p(s[0]) && !p(s[|s| - 1]))
  }

  function UpperChar(c: char): char {
    if 'a' <= c <= 'z' then c - ('a' - 'A') else c
  }

  function Upper(s: string): string {
    seq(|s|, i requires 0 <= i < |s| => UpperChar(s[i]))
  }

  lemma {:induction false} StripRightKeeps(p: char -> bool, s: string)
    ensures StripRight(p, s) <= s
    ensures StripRight(p, s) == "" || !p(StripRight(p, s)[|StripRight(p, s)| - 1])
  {
    if s != "" && p(s[|s| - 1]) {
      StripRightKeeps(p, s[..|s| - 1]);
    }
  }

  lemma {:induction false} StripLeftStops(p: char -> bool, s: string)
    ensures StripLeft(p, s) == "" || !p(StripLeft(p, s)[0])
  {
    if s != "" && p(s[0]) {
      StripLeftStops(p, s[1..]);
    }
  }

  lemma {:induction false} StripTrims(p: char -> bool, s: string)
    ensures Trimmed(p, Strip(p, s))
  {
    StripLeftStops(p, s);
    StripRightKeeps(p, StripLeft(p, s));
  }

  lemma {:induction false} TrimmedStays(p: char -> bool, s: string)
    requires Trimmed(p, s)
    ensures Strip(p, s) == s
  {
  }

  /** `r` is `s` without the characters with property `p` at its two ends. */
  ghost predicate Between(p: char -> bool, s: string, r: string, i: nat, j: nat) {
    && i <= j <= |s| && r == s[i..j] && Trimmed(p, r)
    && (forall k :: 0 <= k < i ==> p(s[k])) && forall k :: j <= k < |s| ==> p(s[k])
  }

  lemma {:induction false} StripLeftMeans(p: char -> bool, s: string) returns (i: nat)
    ensures i <= |s| && StripLeft(p, s) == s[i..] && (forall k :: 0 <= k < i ==> p(s[k]))
  {
    if s != "" && p(s[0]) {
      var j := StripLeftMeans(p, s[1..]);
      i := j + 1;
      forall k | 0 <= k < i ensures p(s[k]) {
        assert k > 0 ==> s[1..][k - 1] == s[k];
      }
    } else {
      i := 0;
    }
  }

  lemma {:induction false} StripRightMeans(p: char -> bool, s: string) returns (j: nat)
    ensures j <= |s| && StripRight(p, s) == s[..j] && (forall k :: j <= k < |s| ==> p(s[k]))
  {
    if s != "" && p(s[|s| - 1]) {
      j := StripRightMeans(p, s[..|s| - 1]);
    } else {
      j := |s|;
      assert s[..j] == s;
    }
  }

  lemma {:induction false} StripMeans(p: char -> bool, s: string) returns (i: nat, j: nat)
    ensures Between(p, s, Strip(p, s), i, j)
  {
    i := StripLeftMeans(p, s);
    var n := StripRightMeans(p, s[i..]);
    j := i + n;
    StripTrims(p, s);
    assert s[i..][..n] == s[i..j];
    forall k | j <= k < |s| ensures p(s[k]) {
      assert s[i..][k - i] == s[k];
    }
  }

  /** There is only one such text. */
  lemma {:induction false} BetweenIsStrip(p: char -> bool, s: string, r: string, i: nat, j: nat)
    requires Between(p, s, r, i, j)
    ensures r == Strip(p, s)
  {
    var a, b := StripMeans(p, s);
    var t := s[a..b];
    if r != "" {
      assert r[0] == s[i] && r[|r| - 1] == s[j - 1];
      assert a <= i && j <= b;
    }
    if t != "" {
      assert t[0] == s[a] && t[|t| - 1] == s[b - 1];
      assert i <= a && b <= j;
    }
  }

  /** Upper case, letter by letter. */
  lemma {:induction false} UpperMeans(s: string)
    ensures |Upper(s)| == |s|
    ensures forall i :: 0 <= i < |s| ==>
              && ('a' <= s[i] <= 'z' ==> Upper(s)[i] as int - 'A' as int == s[i] as int - 'a' as int)
              && (!('a' <= s[i] <= 'z') ==> Upper(s)[i] == s[i])
  {
  }
}
