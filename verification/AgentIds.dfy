/** Structured agent ids: parsing, formatting, and matching against patterns. */
module AgentIds {
  import opened Wrappers
  import opened Texts

  datatype AgentId = AgentId(broker: string, pair: string, kind: string, name: string, extension: Option<string>)

  datatype IdError = BadFormat | BadType | ExtensionNotAllowed

  const TYPES: set<string> := {"AA", "BA", "EA", "GA", "AD", "EC"}

  predicate Capital(c: char) { 'A' <= c <= 'Z' }

  predicate CapitalOrDigit(c: char) { Capital(c) || '0' <= c <= '9' }

  predicate Word(c: char) { CapitalOrDigit(c) || c == '_' }

  predicate Every(p: char -> bool, s: string) {
    forall i :: 0 <= i < |s| ==> p(s[i])
  }

  /** An extension the format can carry: not empty, on one line, no white space at its end. */
  predicate Extension(e: string) {
    e != "" && '\n' !in e && !IsSpace(e[|e| - 1])
  }

  predicate WellFormed(a: AgentId) {
    && |a.broker| == 5 && Every(Word, a.broker)
    && |a.pair| == 6 && Every(Word, a.pair)
    && a.kind in TYPES
    && 1 <= |a.name| <= 5 && Every(CapitalOrDigit, a.name)
    && (a.extension.Some? ==> |a.name| == 5 && Extension(a.extension.value))
  }

  function FirstDash(s: string): (n: nat)
    ensures n <= |s| && '-' !in s[..n] && (n < |s| ==> s[n] == '-')
  {
    if s == "" || s[0] == '-' then 0
    else
      var n := FirstDash(s[1..]);
      assert s[..n + 1] == [s[0]] + s[1..][..n];
      n + 1
  }

  /** The pattern for full ids. */
  predicate Shape(s: string) {
    && |s| >= 17 && s[5] == '-' && s[12] == '-' && s[15] == '-'
    && Every(Word, s[..5]) && Every(Word, s[6..12]) && Every(Capital, s[13..15])
    && var rest := s[16..];
    && var n := FirstDash(rest);
    && 1 <= n <= 5 && Every(CapitalOrDigit, rest[..n])
    && (n < |rest| ==> n + 1 < |rest| && '\n' !in rest[n + 1..])
  }

  function Parse(raw: string): Result<AgentId, IdError> {
    var s := Strip(IsSpace, raw);
    if !Shape(s) then Err(BadFormat)
    else
      var rest := s[16..];
      var n := FirstDash(rest);
      var name, extension := rest[..n], if n < |rest| then Some(rest[n + 1..]) else None;
      if s[13..15] !in TYPES then Err(BadType)
      else if extension.Some? && |name| != 5 then Err(ExtensionNotAllowed)
      else Ok(AgentId(s[..5], s[6..12], s[13..15], name, extension))
  }

  function Format(a: AgentId): string {
    a.broker + "-" + a.pair + "-" + a.kind + "-" + a.name +
    if a.extension.Some? && a.extension.value != "" then "-" + a.extension.value else ""
  }

  // ------------------------------------------------------------------ round trips

  /** A parsed id prints as the text it came from, stripped; and it is well formed. */
  lemma {:induction false} ParseThenFormat(raw: string)
    requires Parse(raw).Ok?
    ensures Format(Parse(raw).value) == Strip(IsSpace, raw)
    ensures WellFormed(Parse(raw).value)
  {
    var s, a := Strip(IsSpace, raw), Parse(raw).value;
    StripTrims(IsSpace, raw);
    var rest := s[16..];
    var n := FirstDash(rest);
    assert rest == a.name + if n < |rest| then "-" + rest[n + 1..] else "";
    assert s == s[..5] + "-" + s[6..12] + "-" + s[13..15] + "-" + rest;
  }

  /** What follows the third dash. */
  function Tail(a: AgentId): string {
    a.name + if a.extension.Some? then "-" + a.extension.value else ""
  }

  lemma {:induction false} Layout(b: string, p: string, k: string, r: string)
    requires |b| == 5 && |p| == 6 && |k| == 2 && r != ""
    ensures var s := b + "-" + p + "-" + k + "-" + r;
            && |s| >= 17 && s[5] == '-' && s[12] == '-' && s[15] == '-'
            && s[..5] == b && s[6..12] == p && s[13..15] == k && s[16..] == r
            && s[0] == b[0] && s[|s| - 1] == r[|r| - 1]
  {
  }

  lemma {:induction false} FormatLayout(a: AgentId)
    requires WellFormed(a)
    ensures Format(a) == a.broker + "-" + a.pair + "-" + a.kind + "-" + Tail(a)
    ensures Tail(a) != "" && !IsSpace(Tail(a)[|Tail(a)| - 1])
  {
    if a.extension.Some? {
      var e := a.extension.value;
      assert Tail(a) == a.name + ("-" + e);
      assert Tail(a)[|Tail(a)| - 1] == e[|e| - 1];
    } else {
      assert Tail(a) == a.name;
    }
  }

  lemma {:induction false} DashAfter(name: string, tail: string)
    requires '-' !in name && (tail == "" || tail[0] == '-')
    ensures FirstDash(name + tail) == |name|
  {
    if name == "" {
      assert name + tail == tail;
    } else {
      assert name[0] in name && forall c :: c in name[1..] ==> c in name;
      assert (name + tail)[1..] == name[1..] + tail;
      DashAfter(name[1..], tail);
    }
  }

  /** Parsing the printed form gives the id back exactly when the id is well formed;
    * ids built from parts need not be. */
  lemma {:induction false} FormatThenParseIff(a: AgentId)
    ensures Parse(Format(a)) == Ok(a) <==> WellFormed(a)
  {
    hide Strip, Trimmed;
    if Parse(Format(a)) == Ok(a) {
      ParseThenFormat(Format(a));
    }
    if WellFormed(a) {
      WellFormedParses(a);
    }
  }

  lemma {:induction false} WellFormedParses(a: AgentId)
    requires WellFormed(a)
    ensures Strip(IsSpace, Format(a)) == Format(a)
    ensures Parse(Format(a)) == Ok(a)
  {
    hide Strip, Format, Tail;
    var s := Format(a);
    FormatLayout(a);
    Layout(a.broker, a.pair, a.kind, Tail(a));
    TrimmedStays(IsSpace, s);
    TailParts(a);
  }

  lemma {:induction false} TailParts(a: AgentId)
    requires WellFormed(a)
    ensures FirstDash(Tail(a)) == |a.name| <= |Tail(a)| && Tail(a)[..|a.name|] == a.name
    ensures a.extension.Some? <==> |a.name| < |Tail(a)|
    ensures a.extension.Some? ==> Tail(a)[|a.name| + 1..] == a.extension.value
  {
    var tail := if a.extension.Some? then "-" + a.extension.value else "";
    assert Tail(a) == a.name + tail;
    assert '-' !in a.name;
    DashAfter(a.name, tail);
  }

  // --------------------------------------------------------------------- matching

  /** A segment pattern in which "*" stands for any text. */
  predicate Glob(p: string, v: string)
    decreases |p|, |v|
  {
    if p == "" then v == ""
    else if p[0] == '*' then Glob(p[1..], v) || (v != "" && Glob(p, v[1..]))
    else v != "" && v[0] == p[0] && Glob(p[1..], v[1..])
  }

  /** The pattern with its stars replaced, one after the other, by the given texts. */
  function Fill(p: string, texts: seq<string>): string {
    if p == "" then ""
    else if p[0] != '*' then [p[0]] + Fill(p[1..], texts)
    else if texts == [] then ""
    else texts[0] + Fill(p[1..], texts[1..])
  }

  function Stars(p: string): nat {
    if p == "" then 0 else (if p[0] == '*' then 1 else 0) + Stars(p[1..])
  }

  /** The texts that a matching value puts in place of the stars. */
  function Witness(p: string, v: string): (texts: seq<string>)
    requires Glob(p, v)
    ensures |texts| == Stars(p) && Fill(p, texts) == v
    decreases |p|, |v|
  {
    if p == "" then []
    else if p[0] != '*' then Witness(p[1..], v[1..])
    else if Glob(p[1..], v) then
      var texts := [""] + Witness(p[1..], v);
      assert texts[1..] == Witness(p[1..], v);
      texts
    else
      var rest := Witness(p, v[1..]);
      var texts := [[v[0]] + rest[0]] + rest[1..];
      assert texts[1..] == rest[1..];
      texts
  }

  lemma {:induction false} FilledMatches(p: string, texts: seq<string>)
    requires |texts| == Stars(p)
    ensures Glob(p, Fill(p, texts))
  {
    if p != "" {
      if p[0] != '*' {
        FilledMatches(p[1..], texts);
      } else {
        FilledMatches(p[1..], texts[1..]);
        StarSkips(p, texts[0], Fill(p[1..], texts[1..]));
      }
    }
  }

  lemma {:induction false} StarSkips(p: string, skipped: string, v: string)
    requires p != "" && p[0] == '*' && Glob(p[1..], v)
    ensures Glob(p, skipped + v)
    decreases |skipped|
  {
    if skipped == "" {
      assert skipped + v == v;
    } else {
      StarSkips(p, skipped[1..], v);
      assert (skipped + v)[1..] == skipped[1..] + v;
    }
  }

  /** A value matches exactly when it is the pattern with some text in place of
    * every star. */
  lemma {:induction false} GlobIff(p: string, v: string)
    ensures Glob(p, v) <==> exists texts :: |texts| == Stars(p) && Fill(p, texts) == v
  {
    if Glob(p, v) {
      assert |Witness(p, v)| == Stars(p) && Fill(p, Witness(p, v)) == v;
    }
    if texts :| |texts| == Stars(p) && Fill(p, texts) == v {
      FilledMatches(p, texts);
    }
  }

  predicate IsPad(c: char) { c == '_' }

  /** Compared without case and without the padding. */
  function Bare(s: string): string {
    StripRight(IsPad, Upper(s))
  }

  /** `_seg_match`. */
  predicate SegMatch(pattern: string, value: string) {
    var p, v := Bare(pattern), Bare(value);
    if p == "*" then true
    else if '*' in p then Glob(p, v)
    else p == v
  }

  lemma {:induction false} PlainGlob(p: string, v: string)
    requires '*' !in p
    ensures Glob(p, v) <==> p == v
    decreases p
  {
    if p != "" {
      assert p[0] in p && forall c :: c in p[1..] ==> c in p;
      if v != "" {
        PlainGlob(p[1..], v[1..]);
        assert p == [p[0]] + p[1..] && v == [v[0]] + v[1..];
      }
    }
  }

  lemma {:induction false} StarGlob(v: string)
    ensures Glob("*", v)
    decreases |v|
  {
    assert "*"[1..] == "";
    if v != "" {
      StarGlob(v[1..]);
    }
  }

  lemma {:induction false} SelfGlob(p: string)
    ensures Glob(p, p)
  {
    if p != "" {
      SelfGlob(p[1..]);
    }
  }

  /** The three cases of `_seg_match` are one glob. */
  lemma {:induction false} SegMatchIsGlob(pattern: string, value: string)
    ensures SegMatch(pattern, value) <==> Glob(Bare(pattern), Bare(value))
  {
    hide Bare, Glob;
    StarGlob(Bare(value));
    if '*' !in Bare(pattern) {
      PlainGlob(Bare(pattern), Bare(value));
    }
  }

  // -------------------------------------------------------------------- whole ids

  /** Split at the first `n` dashes. */
  function Split(s: string, n: nat): (parts: seq<string>)
    ensures 1 <= |parts| <= n + 1
    decreases n
  {
    var d := FirstDash(s);
    if n == 0 || d == |s| then [s] else [s[..d]] + Split(s[d + 1..], n - 1)
  }

  function Join(parts: seq<string>): string
    requires parts != []
  {
    if |parts| == 1 then parts[0] else parts[0] + "-" + Join(parts[1..])
  }

  /** What splitting at `n` dashes can give. */
  predicate Splittable(parts: seq<string>, n: nat) {
    1 <= |parts| <= n + 1 &&
    forall i :: 0 <= i < |parts| && (i < |parts| - 1 || |parts| <= n) ==> '-' !in parts[i]
  }

  lemma {:induction false} SplittableCons(x: string, rest: seq<string>, n: nat)
    requires '-' !in x && Splittable(rest, n)
    ensures Splittable([x] + rest, n + 1) && Join([x] + rest) == x + "-" + Join(rest)
  {
    assert ([x] + rest)[1..] == rest;
  }

  lemma {:induction false} SplittableOne(x: string, n: nat)
    requires n == 0 || '-' !in x
    ensures Splittable([x], n) && Join([x]) == x
  {
  }

  lemma {:induction false} BeforeAndAfterDash(s: string)
    ensures var d := FirstDash(s);
            if d == |s| then '-' !in s else '-' !in s[..d] && s[..d] + "-" + s[d + 1..] == s
  {
    hide FirstDash;
    var d := FirstDash(s);
    if d == |s| {
      assert s[..d] == s;
    }
  }

  lemma {:induction false} SplitThenJoin(s: string, n: nat)
    ensures Splittable(Split(s, n), n) && Join(Split(s, n)) == s
    decreases n
  {
    hide FirstDash, Splittable, Join;
    var d := FirstDash(s);
    BeforeAndAfterDash(s);
    if n == 0 || d == |s| {
      SplittableOne(s, n);
    } else {
      SplitThenJoin(s[d + 1..], n - 1);
      SplittableCons(s[..d], Split(s[d + 1..], n - 1), n - 1);
    }
  }

  lemma {:induction false} CutAtDash(x: string, r: string)
    requires '-' !in x
    ensures var s := x + "-" + r; FirstDash(s) == |x| < |s| && s[..|x|] == x && s[|x| + 1..] == r
  {
    assert x + "-" + r == x + ("-" + r);
    DashAfter(x, "-" + r);
  }

  lemma {:induction false} SplittableRest(parts: seq<string>, n: nat)
    requires Splittable(parts, n) && |parts| != 1
    ensures |parts| > 1 && n > 0 && '-' !in parts[0] && Splittable(parts[1..], n - 1)
  {
  }

  lemma {:induction false} SplitOne(x: string, n: nat)
    requires n == 0 || '-' !in x
    ensures Split(x, n) == [x]
  {
    if n > 0 {
      DashAfter(x, "");
      assert x + "" == x;
    }
  }

  lemma {:induction false} SplitCons(x: string, r: string, n: nat)
    requires n > 0 && '-' !in x
    ensures Split(x + "-" + r, n) == [x] + Split(r, n - 1)
  {
    hide FirstDash;
    CutAtDash(x, r);
  }

  lemma {:induction false} JoinThenSplit(parts: seq<string>, n: nat)
    requires Splittable(parts, n)
    ensures Split(Join(parts), n) == parts
    decreases n
  {
    hide FirstDash, Splittable, Split;
    if |parts| == 1 {
      OnlyPart(parts, n);
      SplitOne(parts[0], n);
    } else {
      SplittableRest(parts, n);
      SplitCons(parts[0], Join(parts[1..]), n);
      JoinThenSplit(parts[1..], n - 1);
      HeadAndRest(parts);
    }
  }

  lemma {:induction false} OnlyPart(parts: seq<string>, n: nat)
    requires Splittable(parts, n) && |parts| == 1
    ensures (n == 0 || '-' !in parts[0]) && parts == [parts[0]]
  {
  }

  lemma {:induction false} HeadAndRest(parts: seq<string>)
    requires parts != []
    ensures parts == [parts[0]] + parts[1..]
  {
  }

  function Segment(a: AgentId, i: nat): string
    requires i < 4
  {
    if i == 0 then a.broker else if i == 1 then a.pair else if i == 2 then a.kind else a.name
  }

  predicate PartsMatch(parts: seq<string>, a: AgentId) {
    && |parts| >= 4
    && (forall i :: 0 <= i < 4 ==> SegMatch(parts[i], Segment(a, i)))
    && (|parts| == 5 ==>
          parts[4] == "*" || Upper(parts[4]) == Upper(if a.extension.Some? then a.extension.value else ""))
  }

  /** `_pattern_matches`. */
  predicate PatternMatches(pattern: string, a: AgentId) {
    PartsMatch(Split(Strip(IsSpace, pattern), 4), a)
  }

  lemma {:induction false} SelfSegment(x: string)
    ensures SegMatch(x, x)
  {
    SegMatchIsGlob(x, x);
    SelfGlob(Bare(x));
  }

  function PartsOf(a: AgentId): seq<string> {
    [a.broker, a.pair, a.kind, a.name] + if a.extension.Some? then [a.extension.value] else []
  }

  lemma {:induction false} FormatIsJoin(a: AgentId)
    requires WellFormed(a)
    ensures Format(a) == Join(PartsOf(a)) && Splittable(PartsOf(a), 4)
  {
    hide Join, Format, Tail;
    var tail := if a.extension.Some? then [a.extension.value] else [];
    FormatLayout(a);
    JoinTail(a);
    JoinCons(a.kind, [a.name] + tail);
    JoinCons(a.pair, [a.kind] + ([a.name] + tail));
    JoinCons(a.broker, [a.pair] + ([a.kind] + ([a.name] + tail)));
    Regroup(a.broker, a.pair, a.kind, Tail(a));
    assert PartsOf(a) == [a.broker] + ([a.pair] + ([a.kind] + ([a.name] + tail)));
  }

  lemma {:induction false} JoinCons(x: string, ps: seq<string>)
    requires ps != []
    ensures Join([x] + ps) == x + "-" + Join(ps)
  {
    assert ([x] + ps)[1..] == ps;
  }

  lemma {:induction false} JoinTail(a: AgentId)
    ensures Join([a.name] + if a.extension.Some? then [a.extension.value] else []) == Tail(a)
  {
    if a.extension.Some? {
      JoinCons(a.name, [a.extension.value]);
      assert a.name + "-" + a.extension.value == a.name + ("-" + a.extension.value);
    } else {
      assert [a.name] + [] == [a.name] && a.name + "" == a.name;
    }
  }

  lemma {:induction false} Regroup(b: string, p: string, k: string, r: string)
    ensures b + "-" + (p + "-" + (k + "-" + r)) == b + "-" + p + "-" + k + "-" + r
  {
  }

  /** Every well-formed id matches its own printed form as a pattern. */
  lemma {:induction false} MatchesItself(a: AgentId)
    requires WellFormed(a)
    ensures PatternMatches(Format(a), a)
  {
    hide WellFormed, Format, Strip, Split, Join, SegMatch;
    WellFormedParses(a);
    FormatIsJoin(a);
    JoinThenSplit(PartsOf(a), 4);
    SelfSegment(a.broker);
    SelfSegment(a.pair);
    SelfSegment(a.kind);
    SelfSegment(a.name);
  }

  /** The pattern with its `i`-th segment replaced by a star. */
  function Widened(pattern: string, i: nat): string
    requires i < |Split(Strip(IsSpace, pattern), 4)|
  {
    Join(Split(Strip(IsSpace, pattern), 4)[i := "*"])
  }

  lemma {:induction false} JoinLast(parts: seq<string>)
    requires parts != []
    ensures Join(parts) == "" <==> parts == [""]
    ensures Join(parts) != "" ==>
              var last, s := parts[|parts| - 1], Join(parts);
              s[|s| - 1] == if last != "" then last[|last| - 1] else '-'
    ensures Join(parts) != "" ==> Join(parts)[0] == if parts[0] != "" then parts[0][0] else '-'
  {
    if |parts| > 1 {
      JoinLast(parts[1..]);
      var s, rest := Join(parts), Join(parts[1..]);
      assert s == parts[0] + ("-" + rest);
      assert s[|s| - 1] == ("-" + rest)[|rest|];
    }
  }

  lemma {:induction false} StarStaysTrimmed(parts: seq<string>, i: nat)
    requires i < |parts| && Trimmed(IsSpace, Join(parts))
    ensures Trimmed(IsSpace, Join(parts[i := "*"]))
  {
    hide Join;
    JoinLast(parts);
    JoinLast(parts[i := "*"]);
  }

  /** Replacing a segment of a pattern by "*" never loses a match. */
  lemma {:induction false} WideningKeepsMatches(pattern: string, a: AgentId, i: nat)
    requires PatternMatches(pattern, a) && i < |Split(Strip(IsSpace, pattern), 4)|
    ensures PatternMatches(Widened(pattern, i), a)
  {
    hide Strip, Split, Join, SegMatch, Trimmed;
    var s := Strip(IsSpace, pattern);
    var parts := Split(s, 4);
    var wide := parts[i := "*"];
    StripTrims(IsSpace, pattern);
    SplitThenJoin(s, 4);
    StarStaysTrimmed(parts, i);
    TrimmedStays(IsSpace, Join(wide));
    JoinThenSplit(wide, 4);
    forall k | 0 <= k < 4 ensures SegMatch(wide[k], Segment(a, k)) {
      StarMatches(Segment(a, k));
    }
  }

  lemma {:induction false} StarMatches(v: string)
    ensures SegMatch("*", v)
  {
    assert Upper("*") == "*";
    assert Bare("*") == "*";
  }

  // --------------------------------------------------------------------- building

  function Padded(s: string, n: nat): (r: string)
    ensures |r| >= n && s <= r && |r| == (if |s| >= n then |s| else n)
    ensures forall i :: |s| <= i < |r| ==> r[i] == '_'
    decreases n - |s|
  {
    if |s| >= n then s else Padded(s + "_", n)
  }

  function Built(broker: string, pair: string, kind: string, name: string, extension: Option<string>)
    : Result<AgentId, IdError>
  {
    var n := Upper(name);
    var short := if |n| > 5 then n[..5] else n;
    if extension.Some? && |short| != 5 then Err(ExtensionNotAllowed)
    else Ok(AgentId(Padded(Upper(broker), 5)[..5], Padded(Upper(pair), 6)[..6], Upper(kind), short, extension))
  }

  predicate FirstAre(p: char -> bool, s: string, n: nat) {
    forall i :: 0 <= i < |s| && i < n ==> p(UpperChar(s[i]))
  }

  /** An id built from parts survives printing and parsing exactly when the parts,
    * in upper case and as far as they are used, have the characters, the type and
    * the extension an id may have. Building itself checks none of that. */
  lemma {:induction false} BuiltRoundTripsIff(broker: string, pair: string, kind: string, name: string,
                                              extension: Option<string>)
    requires Built(broker, pair, kind, name, extension).Ok?
    ensures var a := Built(broker, pair, kind, name, extension).value;
            Parse(Format(a)) == Ok(a) <==>
            && FirstAre(Word, broker, 5) && FirstAre(Word, pair, 6) && Upper(kind) in TYPES
            && name != "" && FirstAre(CapitalOrDigit, name, 5)
            && (extension.Some? ==> Extension(extension.value))
  {
    hide Parse, Format, Word, CapitalOrDigit, Extension;
    FormatThenParseIff(Built(broker, pair, kind, name, extension).value);
    PaddedChars(broker, 5);
    PaddedChars(pair, 6);
    TrimmedChars(name);
  }

  lemma {:induction false} PaddedChars(s: string, n: nat)
    ensures Every(Word, Padded(Upper(s), n)[..n]) <==> FirstAre(Word, s, n)
  {
    hide Word;
    var r := Padded(Upper(s), n)[..n];
    assert Word('_') by {
      PadIsWord();
    }
    forall i | 0 <= i < n ensures r[i] == if i < |s| then UpperChar(s[i]) else '_' {
      if i < |s| {
        assert Upper(s)[i] == UpperChar(s[i]);
      }
    }
  }

  lemma {:induction false} PadIsWord()
    ensures Word('_')
  {
  }

  lemma {:induction false} TrimmedChars(s: string)
    ensures var n := Upper(s);
            Every(CapitalOrDigit, if |n| > 5 then n[..5] else n) <==> FirstAre(CapitalOrDigit, s, 5)
  {
    hide CapitalOrDigit;
    var n := Upper(s);
    var r := if |n| > 5 then n[..5] else n;
    assert forall i :: 0 <= i < |r| ==> r[i] == UpperChar(s[i]);
  }

  // ------------------------------------------------------ the format, spelled out

  predicate WordText(s: string) {
    forall i :: 0 <= i < |s| ==> 'A' <= s[i] <= 'Z' || '0' <= s[i] <= '9' || s[i] == '_'
  }

  /** The text is five word characters, six, two capitals, and a name of one to five
    * capitals or digits, with dashes between, and may end with a dash and an extension
    * on one line. */
  predicate IsText(s: string, b: string, p: string, k: string, n: string, e: Option<string>) {
    && |b| == 5 && WordText(b) && |p| == 6 && WordText(p)
    && |k| == 2 && 'A' <= k[0] <= 'Z' && 'A' <= k[1] <= 'Z'
    && 1 <= |n| <= 5 && WordText(n) && '_' !in n
    && (e.Some? ==> e.value != "" && '\n' !in e.value)
    && s == b + "-" + p + "-" + k + "-" + (n + if e.Some? then "-" + e.value else "")
  }

  lemma {:induction false} EveryMeans(s: string)
    ensures Every(Word, s) <==> WordText(s)
    ensures Every(CapitalOrDigit, s) <==> WordText(s) && '_' !in s
  {
    if Every(CapitalOrDigit, s) {
      assert forall i :: 0 <= i < |s| ==> CapitalOrDigit(s[i]);
    }
  }

  lemma {:induction false} TextTail(n: string, e: Option<string>)
    requires 1 <= |n| && '-' !in n
    ensures var tail := n + if e.Some? then "-" + e.value else "";
            && tail != "" && FirstDash(tail) == |n| && |n| <= |tail| && tail[..|n|] == n
            && (|n| < |tail| <==> e.Some?) && (e.Some? ==> tail[|n| + 1..] == e.value)
  {
    DashAfter(n, if e.Some? then "-" + e.value else "");
  }

  lemma {:induction false} TextShape(s: string, b: string, p: string, k: string, n: string, e: Option<string>)
    requires IsText(s, b, p, k, n, e)
    ensures Shape(s) && s[..5] == b && s[6..12] == p && s[13..15] == k
    ensures s[16..] == n + if e.Some? then "-" + e.value else ""
  {
    hide Word, CapitalOrDigit, FirstDash, Every;
    assert '-' !in n;
    TextTail(n, e);
    Layout(b, p, k, n + if e.Some? then "-" + e.value else "");
    EveryMeans(b);
    EveryMeans(p);
    EveryMeans(n);
    TwoCapitals(s[13..15]);
  }

  lemma {:induction false} TwoCapitals(k: string)
    requires |k| == 2
    ensures Every(Capital, k) <==> 'A' <= k[0] <= 'Z' && 'A' <= k[1] <= 'Z'
  {
    assert Capital(k[0]) && Capital(k[1]) ==> forall i :: 0 <= i < |k| ==> Capital(k[i]);
  }

  lemma {:induction false} NoDashInName(s: string, b: string, p: string, k: string, n: string, e: Option<string>)
    requires IsText(s, b, p, k, n, e)
    ensures '-' !in n && 1 <= |n| <= 5
  {
  }

  /** A text of the format is parsed into its parts, if the type is known and only a name
    * of five has an extension. */
  lemma {:induction false} ParseReads(raw: string, b: string, p: string, k: string, n: string, e: Option<string>)
    requires IsText(Strip(IsSpace, raw), b, p, k, n, e)
    ensures Parse(raw) == if k !in {"AA", "BA", "EA", "GA", "AD", "EC"} then Err(BadType)
                          else if e.Some? && |n| < 5 then Err(ExtensionNotAllowed)
                          else Ok(AgentId(b, p, k, n, e))
  {
    hide Strip, Shape, IsText, FirstDash;
    TextShape(Strip(IsSpace, raw), b, p, k, n, e);
    NoDashInName(Strip(IsSpace, raw), b, p, k, n, e);
    TextTail(n, e);
  }

  /** Every other text is refused as badly formed. */
  lemma {:induction false} ParseRefusesIff(raw: string)
    ensures Parse(raw) == Err(BadFormat) <==>
            forall b, p, k, n, e :: !IsText(Strip(IsSpace, raw), b, p, k, n, e)
  {
    hide Strip, Word, CapitalOrDigit, IsText;
    var s := Strip(IsSpace, raw);
    if Shape(s) {
      var e := ShapeReads(s);
    }
    forall b, p, k, n, e | IsText(s, b, p, k, n, e) ensures Parse(raw) != Err(BadFormat) {
      ParseReads(raw, b, p, k, n, e);
    }
  }

  lemma {:induction false} ShapeReads(s: string) returns (e: Option<string>)
    requires Shape(s)
    ensures IsText(s, s[..5], s[6..12], s[13..15], s[16..][..FirstDash(s[16..])], e)
  {
    hide Word, CapitalOrDigit;
    var rest := s[16..];
    var n := FirstDash(rest);
    e := if n < |rest| then Some(rest[n + 1..]) else None;
    EveryMeans(s[..5]);
    EveryMeans(s[6..12]);
    EveryMeans(rest[..n]);
    assert s[13..15][0] == s[13] && s[13..15][1] == s[14];
    assert rest == rest[..n] + if n < |rest| then "-" + rest[n + 1..] else "";
    assert s == s[..5] + "-" + s[6..12] + "-" + s[13..15] + "-" + rest;
  }

  // -------------------------------------------------------- a match, spelled out

  /** `x` is `s` in upper case without the underscores at its end. */
  ghost predicate IsBare(s: string, x: string) {
    && |x| <= |s| && (x != "" ==> x[|x| - 1] != '_')
    && (forall i :: 0 <= i < |x| ==> x[i] == UpperChar(s[i]))
    && forall i :: |x| <= i < |s| ==> s[i] == '_'
  }

  lemma {:induction false} BareMeans(s: string)
    ensures IsBare(s, Bare(s))
  {
    var u := Upper(s);
    var j := StripRightMeans(IsPad, u);
    StripRightKeeps(IsPad, u);
    forall i | j <= i < |s| ensures s[i] == '_' {
      assert IsPad(u[i]) && u[i] == UpperChar(s[i]);
    }
    assert forall i :: 0 <= i < j ==> u[..j][i] == UpperChar(s[i]);
  }

  lemma {:induction false} BareOnce(s: string, x: string, y: string)
    requires IsBare(s, x) && IsBare(s, y)
    ensures x == y
  {
  }

  /** The value, without case and padding, is the pattern with texts for its stars. */
  ghost predicate Alike(pattern: string, value: string) {
    exists p, v, texts :: IsBare(pattern, p) && IsBare(value, v) && |texts| == Stars(p) && Fill(p, texts) == v
  }

  lemma {:induction false} SegMatchAlike(pattern: string, value: string)
    ensures SegMatch(pattern, value) <==> Alike(pattern, value)
  {
    hide Bare, IsBare, Fill, Stars;
    SegMatchIsGlob(pattern, value);
    BareMeans(pattern);
    BareMeans(value);
    GlobIff(Bare(pattern), Bare(value));
    if Alike(pattern, value) {
      var p, v, texts :| IsBare(pattern, p) && IsBare(value, v) && |texts| == Stars(p) && Fill(p, texts) == v;
      BareOnce(pattern, p, Bare(pattern));
      BareOnce(value, v, Bare(value));
    }
  }

  /** The pattern: four parts with dashes between, and perhaps a fifth, which may itself
    * hold dashes. */
  predicate IsPattern(s: string, parts: seq<string>) {
    && 4 <= |parts| <= 5
    && (forall i :: 0 <= i < 4 ==> '-' !in parts[i])
    && s == parts[0] + "-" + (parts[1] + "-" + (parts[2] + "-" +
            if |parts| == 4 then parts[3] else parts[3] + "-" + parts[4]))
  }

  lemma {:induction false} FourJoined(parts: seq<string>)
    requires 4 <= |parts| <= 5
    ensures Join(parts) == parts[0] + "-" + (parts[1] + "-" + (parts[2] + "-" +
                           if |parts| == 4 then parts[3] else parts[3] + "-" + parts[4]))
    ensures Splittable(parts, 4) <==> forall i :: 0 <= i < 4 ==> '-' !in parts[i]
  {
    assert parts[1..][0] == parts[1] && parts[1..][1..] == parts[2..];
    assert parts[2..][0] == parts[2] && parts[2..][1..] == parts[3..];
    assert parts[3..][0] == parts[3] && parts[3..][1..] == parts[4..];
    assert |parts| == 5 ==> parts[4..] == [parts[4]];
    hide Join;
    JoinParts(parts);
    JoinParts(parts[1..]);
    JoinParts(parts[2..]);
    JoinParts(parts[3..]);
    if |parts| == 5 {
      JoinParts(parts[4..]);
    }
  }

  lemma {:induction false} JoinParts(parts: seq<string>)
    requires parts != []
    ensures Join(parts) == if |parts| == 1 then parts[0] else parts[0] + "-" + Join(parts[1..])
  {
  }

  lemma {:induction false} SplitIsPattern(s: string, parts: seq<string>)
    ensures IsPattern(s, parts) <==> |parts| >= 4 && parts == Split(s, 4)
  {
    hide Split, Join, Splittable;
    SplitThenJoin(s, 4);
    if IsPattern(s, parts) {
      FourJoined(parts);
      JoinThenSplit(parts, 4);
    }
    if |parts| >= 4 && parts == Split(s, 4) {
      FourJoined(parts);
    }
  }

  /** Which ids a pattern matches: each of the four parts is like its segment, and a
    * fifth one is "*" or, without case, the extension (the empty text where the id has
    * none). A pattern with fewer parts matches nothing. */
  lemma {:induction false} MatchesIff(pattern: string, a: AgentId)
    ensures PatternMatches(pattern, a) <==>
            exists parts ::
              && IsPattern(Strip(IsSpace, pattern), parts)
              && Alike(parts[0], a.broker) && Alike(parts[1], a.pair)
              && Alike(parts[2], a.kind) && Alike(parts[3], a.name)
              && (|parts| == 5 ==>
                    parts[4] == "*" || Upper(parts[4]) == Upper(if a.extension.Some? then a.extension.value else ""))
  {
    hide Strip, Split, IsPattern, SegMatch, Alike;
    var s := Strip(IsSpace, pattern);
    var split := Split(s, 4);
    SplitIsPattern(s, split);
    SegmentsAlike(split, a);
    forall parts | IsPattern(s, parts) ensures parts == split {
      SplitIsPattern(s, parts);
    }
  }

  lemma {:induction false} SegmentsAlike(parts: seq<string>, a: AgentId)
    ensures |parts| >= 4 ==>
              ((forall i :: 0 <= i < 4 ==> SegMatch(parts[i], Segment(a, i))) <==>
               && Alike(parts[0], a.broker) && Alike(parts[1], a.pair)
               && Alike(parts[2], a.kind) && Alike(parts[3], a.name))
  {
    hide SegMatch, Alike;
    if |parts| >= 4 {
      SegMatchAlike(parts[0], a.broker);
      SegMatchAlike(parts[1], a.pair);
      SegMatchAlike(parts[2], a.kind);
      SegMatchAlike(parts[3], a.name);
      assert (forall i :: 0 <= i < 4 ==> SegMatch(parts[i], Segment(a, i))) <==>
             SegMatch(parts[0], Segment(a, 0)) && SegMatch(parts[1], Segment(a, 1)) &&
             SegMatch(parts[2], Segment(a, 2)) && SegMatch(parts[3], Segment(a, 3));
    }
  }

  /** `long` is `s` in upper case, filled up with underscores and cut off at `n`. */
  predicate Fitted(s: string, n: nat, long: string) {
    |long| == n && forall i :: 0 <= i < n ==> long[i] == if i < |s| then UpperChar(s[i]) else '_'
  }

  /** What building gives: broker and pair at their full length, the name at five at
    * most, and an error when a shorter name comes with an extension. */
  lemma {:induction false} BuiltSays(broker: string, pair: string, kind: string, name: string, extension: Option<string>)
    ensures var r := Built(broker, pair, kind, name, extension);
            && (r == Err(ExtensionNotAllowed) <==> extension.Some? && |name| < 5)
            && (r.Err? ==> r.error == ExtensionNotAllowed)
            && (r.Ok? ==>
                  && Fitted(broker, 5, r.value.broker) && Fitted(pair, 6, r.value.pair)
                  && Fitted(kind, |kind|, r.value.kind) && r.value.extension == extension
                  && Fitted(name, if |name| > 5 then 5 else |name|, r.value.name))
  {
    FitsPadded(broker, 5);
    FitsPadded(pair, 6);
  }

  lemma {:induction false} FitsPadded(s: string, n: nat)
    ensures Fitted(s, n, Padded(Upper(s), n)[..n])
  {
    var r := Padded(Upper(s), n);
    forall i | 0 <= i < n ensures r[..n][i] == if i < |s| then UpperChar(s[i]) else '_' {
      if i < |s| {
        assert r[i] == Upper(s)[i];
      }
    }
  }
}
