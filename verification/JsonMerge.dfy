/** Merging a personal configuration over the default one. */
module JsonMerge {
  import opened Wrappers
  import opened Seqs
  import opened Texts

  /** A parsed document. An object keeps its keys in order, a number its text. */
  datatype Json =
    | Null
    | Bool(b: bool)
    | Number(text: string)
    | Str(s: string)
    | Arr(items: seq<Json>)
    | Obj(fields: seq<Field>)

  datatype Field = Field(key: string, value: Json)

  // ------------------------------------------------------------------ objects

  function Keys(fs: seq<Field>): seq<string> {
    if fs == [] then [] else Keys(fs[..|fs| - 1]) + [fs[|fs| - 1].key]
  }

  function Lookup(fs: seq<Field>, k: string): (r: Option<Json>)
    ensures r.Some? <==> k in Keys(fs)
    ensures r.Some? ==> Field(k, r.value) in fs
  {
    if fs == [] then None
    else if fs[|fs| - 1].key == k then
      var v := fs[|fs| - 1].value;
      assert fs[|fs| - 1] == Field(k, v);
      Some(v)
    else Lookup(fs[..|fs| - 1], k)
  }

  /** `fs` with the value under `k` replaced. */
  function Update(fs: seq<Field>, k: string, v: Json): seq<Field> {
    if fs == [] then []
    else if fs[|fs| - 1].key == k then fs[..|fs| - 1] + [Field(k, v)]
    else Update(fs[..|fs| - 1], k, v) + [fs[|fs| - 1]]
  }

  /** `fs` with `k` set to `v`: in place where `k` is, at the end where it is not. */
  function Put(fs: seq<Field>, k: string, v: Json): seq<Field> {
    if k in Keys(fs) then Update(fs, k, v) else fs + [Field(k, v)]
  }

  predicate Distinct<T(==)>(xs: seq<T>) {
    xs == [] || (Distinct(xs[..|xs| - 1]) && xs[|xs| - 1] !in xs[..|xs| - 1])
  }

  /** No object in the document has a key twice. */
  predicate Valid(j: Json) {
    match j
    case Arr(items) => forall x :: x in items ==> Valid(x)
    case Obj(fields) => Distinct(Keys(fields)) && forall f :: f in fields ==> Valid(f.value)
    case _ => true
  }

  /** `xs`, then the elements of `ys` that are not there yet, each once. */
  function AppendUnique<T(==)>(xs: seq<T>, ys: seq<T>): seq<T> {
    if ys == [] then xs
    else
      var out := AppendUnique(xs, ys[..|ys| - 1]);
      if ys[|ys| - 1] in out then out else out + [ys[|ys| - 1]]
  }

  // -------------------------------------------------------------------- paths

  predicate IsDot(c: char) {
    c == '.'
  }

  function Normalize(path: string): string {
    Strip(IsDot, Strip(IsSpace, path))
  }

  /** The segments between the dots. */
  function Split(s: string): (parts: seq<string>)
    ensures parts != []
  {
    if s == "" then [""]
    else
      var init := Split(s[..|s| - 1]);
      if s[|s| - 1] == '.' then init + [""]
      else init[..|init| - 1] + [init[|init| - 1] + [s[|s| - 1]]]
  }

  function Parts(path: string): seq<string> {
    if Normalize(path) == "" then [] else Split(Normalize(path))
  }

  /** Segment by segment, the rule says "*" or the same. */
  predicate Fits(path: seq<string>, rule: seq<string>) {
    |path| == |rule| && forall i :: 0 <= i < |rule| ==> rule[i] == "*" || path[i] == rule[i]
  }

  predicate PathMatches(path: string, rule: string) {
    Parts(rule) != [] && Fits(Parts(path), Parts(rule))
  }

  /** The text is the parts with dots between them, and no part holds a dot. */
  predicate Dotted(s: string, parts: seq<string>)
    decreases |parts|
  {
    parts != [] && '.' !in parts[0] &&
    if |parts| == 1 then s == parts[0]
    else parts[0] + "." <= s && Dotted(s[|parts[0]| + 1..], parts[1..])
  }

  /** `n` is the path without white space, and then without dots, at its ends. */
  ghost predicate Normal(path: string, n: string) {
    exists t, i: nat, j: nat, k: nat, l: nat :: Between(IsSpace, path, t, i, j) && Between(IsDot, t, n, k, l)
  }

  /** Part by part, the rule says "*" or the same as the keys. */
  predicate Allows(rule: seq<string>, keys: seq<string>) {
    |rule| == |keys| && forall i :: 0 <= i < |rule| ==> rule[i] == "*" || rule[i] == keys[i]
  }

  /** The rule, which is not empty, stands for the path. */
  ghost predicate Covers(rule: string, path: string) {
    exists r, rs, p, ps ::
      Normal(rule, r) && r != "" && Dotted(r, rs) && Normal(path, p) && p != "" && Dotted(p, ps) && Allows(rs, ps)
  }

  lemma {:induction false} NormalizeMeans(path: string, n: string)
    ensures Normal(path, n) <==> n == Normalize(path)
  {
    hide Strip, Between;
    var t := Strip(IsSpace, path);
    var i, j := StripMeans(IsSpace, path);
    var k, l := StripMeans(IsDot, t);
    if Normal(path, n) {
      var u, a: nat, b: nat, c: nat, d: nat :| Between(IsSpace, path, u, a, b) && Between(IsDot, u, n, c, d);
      BetweenIsStrip(IsSpace, path, u, a, b);
      BetweenIsStrip(IsDot, u, n, c, d);
    }
  }

  /** One more character at the end. */
  lemma {:induction false} DottedNext(s: string, parts: seq<string>, c: char)
    requires Dotted(s, parts)
    ensures var n := |parts| - 1;
            Dotted(s + [c], if c == '.' then parts + [""] else parts[..n] + [parts[n] + [c]])
    decreases |parts|
  {
    var n := |parts| - 1;
    if n == 0 {
      assert parts[..0] == [];
      assert (parts + [""])[1..] == [""];
      if c == '.' {
        assert (s + [c])[|s| + 1..] == "";
      }
    } else {
      DottedNext(s[|parts[0]| + 1..], parts[1..], c);
      assert (s + [c])[|parts[0]| + 1..] == s[|parts[0]| + 1..] + [c];
      assert (parts + [""])[1..] == parts[1..] + [""];
      assert (parts[..n] + [parts[n] + [c]])[1..] == parts[1..][..n - 1] + [parts[n] + [c]];
    }
  }

  lemma {:induction false} SplitDotted(s: string)
    ensures Dotted(s, Split(s))
  {
    hide Dotted;
    if s == "" {
      NoDots();
    } else {
      var init, c := s[..|s| - 1], s[|s| - 1];
      SplitDotted(init);
      DottedNext(init, Split(init), c);
      assert s == init + [c];
    }
  }

  lemma {:induction false} NoDots()
    ensures Dotted("", [""])
  {
  }

  lemma {:induction false} DottedFirst(s: string, parts: seq<string>)
    requires Dotted(s, parts)
    ensures parts != [] && '.' !in parts[0] && parts[0] <= s
    ensures |parts| == 1 ==> s == parts[0]
    ensures |parts| > 1 ==> |parts[0]| < |s| && s[|parts[0]|] == '.'
  {
    if |parts| > 1 {
      assert s[|parts[0]|] == (parts[0] + ".")[|parts[0]|];
    }
  }

  lemma {:induction false} FirstNotLonger(s: string, x: seq<string>, y: seq<string>)
    requires Dotted(s, x) && Dotted(s, y)
    ensures x != [] && y != [] && |y[0]| <= |x[0]|
  {
    hide Dotted;
    DottedFirst(s, x);
    DottedFirst(s, y);
    assert forall i :: 0 <= i < |y[0]| ==> y[0][i] == s[i] && y[0][i] in y[0];
  }

  /** The parts of a text are determined by it. */
  lemma {:induction false} DottedUnique(s: string, x: seq<string>, y: seq<string>)
    requires Dotted(s, x) && Dotted(s, y)
    ensures x == y
    decreases |x|
  {
    FirstNotLonger(s, x, y);
    FirstNotLonger(s, y, x);
    DottedFirst(s, x);
    DottedFirst(s, y);
    assert x[0] == s[..|x[0]|] == y[0];
    if |x| > 1 && |y| > 1 {
      DottedUnique(s[|x[0]| + 1..], x[1..], y[1..]);
      assert x == [x[0]] + x[1..] && y == [y[0]] + y[1..];
    }
  }

  lemma {:induction false} MatchesCovers(path: string, rule: string)
    ensures PathMatches(path, rule) <==> Covers(rule, path)
  {
    hide Normal, Normalize, Dotted, Split;
    var p, r := Normalize(path), Normalize(rule);
    NormalizeMeans(path, p);
    NormalizeMeans(rule, r);
    SplitDotted(p);
    SplitDotted(r);
    if Covers(rule, path) {
      var r2, rs, p2, ps :|
        Normal(rule, r2) && r2 != "" && Dotted(r2, rs) && Normal(path, p2) && p2 != "" && Dotted(p2, ps) && Allows(rs, ps);
      NormalizeMeans(path, p2);
      NormalizeMeans(rule, r2);
      DottedUnique(p, ps, Split(p));
      DottedUnique(r, rs, Split(r));
    }
  }

  /** `_path_matches_rule`. */
  method PathMatchesRule(path: string, rule: string) returns (ok: bool)
    ensures ok == PathMatches(path, rule)
    ensures ok <==> Covers(rule, path)
  {
    hide Normalize, Split, Covers;
    MatchesCovers(path, rule);
    var p, r := Normalize(path), Normalize(rule);
    if r == "" {
      return false;
    }
    var pParts := if p != "" then Split(p) else [];
    var rParts := Split(r);
    if |pParts| != |rParts| {
      return false;
    }
    var i := 0;
    while i < |rParts|
      invariant i <= |rParts|
      invariant forall k :: 0 <= k < i ==> rParts[k] == "*" || pParts[k] == rParts[k]
    {
      if rParts[i] != "*" && pParts[i] != rParts[i] {
        return false;
      }
      i := i + 1;
    }
    return true;
  }

  predicate Replaced(rules: seq<string>, path: string) {
    path != "" && exists r :: r in rules && PathMatches(path, r)
  }

  function Child(path: string, key: string): string {
    if path == "" then key else path + "." + key
  }

  // ------------------------------------------------------------------ the merge

  function Merge(base: Json, over: Json, rules: seq<string>, path: string): Json
    decreases over
  {
    if Replaced(rules, path) then over
    else if base.Obj? && over.Obj? then Obj(MergeFields(base.fields, over.fields, rules, path))
    else if base.Arr? && over.Arr? then Arr(AppendUnique(base.items, over.items))
    else over
  }

  /** The fields of `os`, one after the other, merged into `bs`. */
  function MergeFields(bs: seq<Field>, os: seq<Field>, rules: seq<string>, path: string): seq<Field>
    decreases os
  {
    if os == [] then bs
    else
      var f, out := os[|os| - 1], MergeFields(bs, os[..|os| - 1], rules, path);
      var had := Lookup(out, f.key);
      Put(out, f.key, if had.Some? then Merge(had.value, f.value, rules, Child(path, f.key)) else f.value)
  }

  // ---------------------------------------------------------- objects, as lookups

  lemma {:induction false} UpdateMeans(fs: seq<Field>, k: string, v: Json, j: string)
    ensures Keys(Update(fs, k, v)) == Keys(fs)
    ensures Lookup(Update(fs, k, v), j) == if j == k && k in Keys(fs) then Some(v) else Lookup(fs, j)
  {
    if fs != [] {
      var init, last := fs[..|fs| - 1], fs[|fs| - 1];
      assert fs == init + [last];
      hide Keys, Lookup;
      FieldsSnoc(init, last, j);
      InSnoc(Keys(init), last.key, k);
      if last.key == k {
        FieldsSnoc(init, Field(k, v), j);
      } else {
        UpdateMeans(init, k, v, j);
        FieldsSnoc(Update(init, k, v), last, j);
      }
    }
  }

  lemma {:induction false} PutMeans(fs: seq<Field>, k: string, v: Json, j: string)
    ensures Keys(Put(fs, k, v)) == if k in Keys(fs) then Keys(fs) else Keys(fs) + [k]
    ensures Lookup(Put(fs, k, v), j) == if j == k then Some(v) else Lookup(fs, j)
  {
    hide Keys, Lookup, Update;
    UpdateMeans(fs, k, v, j);
    FieldsSnoc(fs, Field(k, v), j);
  }

  lemma {:induction false} InSnoc<T>(xs: seq<T>, x: T, y: T)
    ensures y in xs + [x] <==> y in xs || y == x
  {
  }

  lemma {:induction false} FieldsSnoc(fs: seq<Field>, f: Field, j: string)
    ensures Keys(fs + [f]) == Keys(fs) + [f.key]
    ensures Lookup(fs + [f], j) == if j == f.key then Some(f.value) else Lookup(fs, j)
  {
    assert (fs + [f])[..|fs + [f]| - 1] == fs;
  }

  /** An object is its keys in order and the value of each. */
  lemma {:induction false} FieldsExtensional(x: seq<Field>, y: seq<Field>)
    requires Keys(x) == Keys(y) && Distinct(Keys(x))
    requires forall k :: k in Keys(x) ==> Lookup(x, k) == Lookup(y, k)
    ensures x == y
  {
    hide *;
    KeysLength(x);
    KeysLength(y);
    if x != [] {
      var xi, yi, xl, yl := x[..|x| - 1], y[..|y| - 1], x[|x| - 1], y[|y| - 1];
      SplitKeys(x);
      SplitKeys(y);
      InSnoc(Keys(xi), xl.key, xl.key);
      LookupSplit(x, xl.key);
      LookupSplit(y, xl.key);
      forall k | k in Keys(xi) ensures Lookup(xi, k) == Lookup(yi, k) {
        InSnoc(Keys(xi), xl.key, k);
        LookupSplit(x, k);
        LookupSplit(y, k);
      }
      FieldsExtensional(xi, yi);
      SplitAt(x, |x| - 1);
      SplitAt(y, |y| - 1);
    }
  }

  lemma {:induction false} LookupSplit(x: seq<Field>, k: string)
    requires x != []
    ensures Lookup(x, k) == if k == x[|x| - 1].key then Some(x[|x| - 1].value) else Lookup(x[..|x| - 1], k)
    ensures x[|x| - 1..] == [x[|x| - 1]]
  {
  }

  lemma {:induction false} SplitKeys(x: seq<Field>)
    requires x != []
    ensures |Keys(x)| == |x| && Keys(x) == Keys(x[..|x| - 1]) + [x[|x| - 1].key]
    ensures Keys(x)[..|x| - 1] == Keys(x[..|x| - 1]) && Keys(x)[|x| - 1] == x[|x| - 1].key
    ensures Distinct(Keys(x)) ==> Distinct(Keys(x[..|x| - 1])) && x[|x| - 1].key !in Keys(x[..|x| - 1])
  {
    KeysLength(x[..|x| - 1]);
    DropPrefix(Keys(x[..|x| - 1]), [x[|x| - 1].key]);
  }

  lemma {:induction false} KeysLength(fs: seq<Field>)
    ensures |Keys(fs)| == |fs|
  {
    if fs != [] {
      KeysLength(fs[..|fs| - 1]);
    }
  }

  /** What the merged object holds under `k`. */
  function MergedValue(bs: seq<Field>, os: seq<Field>, rules: seq<string>, path: string, k: string): Option<Json> {
    match Lookup(os, k)
    case None => Lookup(bs, k)
    case Some(v) =>
      match Lookup(bs, k)
      case None => Some(v)
      case Some(u) => Some(Merge(u, v, rules, Child(path, k)))
  }

  lemma {:induction false} MergeFieldsMeans(bs: seq<Field>, os: seq<Field>, rules: seq<string>, path: string)
    requires Distinct(Keys(os))
    ensures Keys(MergeFields(bs, os, rules, path)) == AppendUnique(Keys(bs), Keys(os))
    ensures forall k :: Lookup(MergeFields(bs, os, rules, path), k) == MergedValue(bs, os, rules, path, k)
  {
    hide Distinct, Merge, Put, AppendUnique, Keys, Lookup, MergedValue;
    if os == [] {
      MergeNothing(bs, rules, path);
    } else {
      var init, f := os[..|os| - 1], os[|os| - 1];
      SplitKeys(os);
      MergeFieldsMeans(bs, init, rules, path);
      OneMoreField(bs, init, f, MergeFields(bs, init, rules, path), rules, path);
      UniqueSnoc(Keys(bs), Keys(init), f.key);
      assert os == init + [f];
    }
  }

  lemma {:induction false} MergeNothing(bs: seq<Field>, rules: seq<string>, path: string)
    ensures AppendUnique(Keys(bs), Keys([])) == Keys(bs)
    ensures forall k :: MergedValue(bs, [], rules, path, k) == Lookup(bs, k)
  {
  }

  lemma {:induction false} OneMoreField(bs: seq<Field>, os: seq<Field>, f: Field, out: seq<Field>,
                                       rules: seq<string>, path: string)
    requires f.key !in Keys(os) && forall k :: Lookup(out, k) == MergedValue(bs, os, rules, path, k)
    ensures var had := Lookup(out, f.key);
            var v := if had.Some? then Merge(had.value, f.value, rules, Child(path, f.key)) else f.value;
            && Keys(Put(out, f.key, v)) == (if f.key in Keys(out) then Keys(out) else Keys(out) + [f.key])
            && forall k :: Lookup(Put(out, f.key, v), k) == MergedValue(bs, os + [f], rules, path, k)
  {
    hide Keys, Lookup, Put, Merge;
    var had := Lookup(out, f.key);
    var v := if had.Some? then Merge(had.value, f.value, rules, Child(path, f.key)) else f.value;
    PutMeans(out, f.key, v, f.key);
    forall k ensures Lookup(Put(out, f.key, v), k) == MergedValue(bs, os + [f], rules, path, k) {
      PutMeans(out, f.key, v, k);
      FieldsSnoc(os, f, k);
    }
  }

  // ------------------------------------------------------- appending without repeats

  lemma {:induction false} UniqueSnoc<T>(xs: seq<T>, ys: seq<T>, y: T)
    ensures AppendUnique(xs, ys + [y]) ==
            if y in AppendUnique(xs, ys) then AppendUnique(xs, ys) else AppendUnique(xs, ys) + [y]
  {
    assert (ys + [y])[..|ys + [y]| - 1] == ys;
  }

  /** The base stays in front, nothing is lost, and nothing is repeated that was not. */
  lemma {:induction false} UniqueKeepsAll<T>(xs: seq<T>, ys: seq<T>)
    ensures xs <= AppendUnique(xs, ys)
    ensures forall x :: x in AppendUnique(xs, ys) <==> x in xs || x in ys
    ensures Distinct(xs) ==> Distinct(AppendUnique(xs, ys))
  {
    hide Distinct;
    if ys != [] {
      var init, last := ys[..|ys| - 1], ys[|ys| - 1];
      UniqueKeepsAll(xs, init);
      var out := AppendUnique(xs, init);
      if Distinct(out) && last !in out {
        DistinctSnoc(out, last);
      }
      forall x ensures x in AppendUnique(xs, ys) <==> x in xs || x in ys {
        InSnoc(init, last, x);
        InSnoc(out, last, x);
        assert ys == init + [last];
      }
    }
  }

  lemma {:induction false} DistinctSnoc<T>(xs: seq<T>, x: T)
    requires Distinct(xs) && x !in xs
    ensures Distinct(xs + [x])
  {
    assert (xs + [x])[..|xs + [x]| - 1] == xs;
  }

  lemma {:induction false} UniqueAbsorbs<T>(xs: seq<T>, ys: seq<T>)
    requires forall y :: y in ys ==> y in xs
    ensures AppendUnique(xs, ys) == xs
  {
    if ys != [] {
      var init := ys[..|ys| - 1];
      assert forall y :: y in init ==> y in ys;
      UniqueAbsorbs(xs, init);
    }
  }

  lemma {:induction false} UniqueConcat<T>(x: seq<T>, y: seq<T>, z: seq<T>)
    ensures AppendUnique(AppendUnique(x, y), z) == AppendUnique(x, y + z)
    ensures AppendUnique(x, AppendUnique(y, z)) == AppendUnique(x, y + z)
  {
    hide Distinct;
    if z == [] {
      assert y + z == y;
    } else {
      var init, last := z[..|z| - 1], z[|z| - 1];
      UniqueConcat(x, y, init);
      assert y + z == (y + init) + [last];
      UniqueSnoc(x, y + init, last);
      UniqueSnoc(x, AppendUnique(y, init), last);
      UniqueKeepsAll(x, AppendUnique(y, init));
    }
  }

  // ----------------------------------------------------------------------- the laws

  lemma {:induction false} MergedObject(b: Json, o: Json, rules: seq<string>, path: string)
    requires b.Obj? && o.Obj? && Valid(b) && Valid(o) && !Replaced(rules, path)
    ensures var m := Merge(b, o, rules, path);
            && m.Obj? && Distinct(Keys(m.fields))
            && Keys(m.fields) == AppendUnique(Keys(b.fields), Keys(o.fields))
            && (forall k :: k in Keys(m.fields) <==> k in Keys(b.fields) || k in Keys(o.fields))
            && forall k :: Lookup(m.fields, k) == MergedValue(b.fields, o.fields, rules, path, k)
  {
    hide Keys, Lookup, Distinct, AppendUnique, MergeFields, MergedValue;
    MergeFieldsMeans(b.fields, o.fields, rules, path);
    UniqueKeepsAll(Keys(b.fields), Keys(o.fields));
  }

  /** A value under a key of a valid object is valid. */
  lemma {:induction false} ValidValue(fs: seq<Field>, k: string)
    requires Valid(Obj(fs)) && k in Keys(fs)
    ensures Lookup(fs, k).Some? && Valid(Lookup(fs, k).value)
  {
    var f := Field(k, Lookup(fs, k).value);
    assert f in fs;
  }

  lemma {:induction false} MergeSelf(x: Json, rules: seq<string>, path: string)
    requires Valid(x)
    ensures Merge(x, x, rules, path) == x
    decreases x
  {
    hide Replaced, Keys, Distinct, MergeFields, AppendUnique;
    if Replaced(rules, path) {
    } else if x.Obj? {
      MergedObject(x, x, rules, path);
      var m := Merge(x, x, rules, path);
      UniqueAbsorbs(Keys(x.fields), Keys(x.fields));
      forall k | k in Keys(x.fields) ensures Lookup(m.fields, k) == Lookup(x.fields, k) {
        ValidValue(x.fields, k);
        var f := Field(k, Lookup(x.fields, k).value);
        assert f in x.fields;
        MergeSelf(f.value, rules, Child(path, k));
      }
      FieldsExtensional(m.fields, x.fields);
    } else if x.Arr? {
      UniqueAbsorbs(x.items, x.items);
    }
  }

  /** Merging the same overrides a second time changes nothing. */
  lemma {:induction false} MergeAgain(b: Json, o: Json, rules: seq<string>, path: string)
    requires Valid(b) && Valid(o)
    ensures Merge(Merge(b, o, rules, path), o, rules, path) == Merge(b, o, rules, path)
    decreases o
  {
    hide Replaced, Keys, Distinct, MergeFields, AppendUnique;
    MergeSelf(o, rules, path);
    if !Replaced(rules, path) {
      if b.Obj? && o.Obj? {
        MergeAgainObject(b, o, rules, path);
      } else if b.Arr? && o.Arr? {
        UniqueKeepsAll(b.items, o.items);
        UniqueAbsorbs(AppendUnique(b.items, o.items), o.items);
      }
    }
  }

  lemma {:induction false} MergeAgainObject(b: Json, o: Json, rules: seq<string>, path: string)
    requires b.Obj? && o.Obj? && Valid(b) && Valid(o) && !Replaced(rules, path)
    ensures Merge(Merge(b, o, rules, path), o, rules, path) == Merge(b, o, rules, path)
    decreases o, 0
  {
    hide Replaced, Keys, Distinct, MergeFields, AppendUnique;
    var m := MergeFields(b.fields, o.fields, rules, path);
    var n := MergeFields(m, o.fields, rules, path);
    MergedObject(b, o, rules, path);
    MergeFieldsMeans(m, o.fields, rules, path);
    UniqueAbsorbs(Keys(m), Keys(o.fields));
    forall k | k in Keys(n) ensures Lookup(n, k) == Lookup(m, k) {
      if k in Keys(o.fields) {
        ValidValue(o.fields, k);
        var f := Field(k, Lookup(o.fields, k).value);
        assert f in o.fields;
        MergeSelf(f.value, rules, Child(path, k));
        if k in Keys(b.fields) {
          ValidValue(b.fields, k);
          MergeAgain(Lookup(b.fields, k).value, f.value, rules, Child(path, k));
        }
      }
    }
    FieldsExtensional(n, m);
  }

  // ------------------------------------------------------------- one path at a time

  function Get(j: Json, ks: seq<string>): Option<Json>
    decreases |ks|
  {
    if ks == [] then Some(j)
    else if !j.Obj? || Lookup(j.fields, ks[0]).None? then None
    else Get(Lookup(j.fields, ks[0]).value, ks[1..])
  }

  function At(path: string, ks: seq<string>): string
    decreases |ks|
  {
    if ks == [] then path else At(Child(path, ks[0]), ks[1..])
  }

  /** The path, or a path on the way to it, is under a replace rule. */
  predicate ReplacedAlong(rules: seq<string>, path: string, ks: seq<string>)
    decreases |ks|
  {
    Replaced(rules, path) || (ks != [] && ReplacedAlong(rules, Child(path, ks[0]), ks[1..]))
  }

  /** What is found at a path both documents have: exactly the override's value
    * when a rule replaces the path, else the two values merged. */
  lemma {:induction false} MergeAt(b: Json, o: Json, rules: seq<string>, path: string, ks: seq<string>)
    requires Valid(b) && Valid(o) && Get(b, ks).Some? && Get(o, ks).Some?
    ensures Get(Merge(b, o, rules, path), ks) ==
            Some(if ReplacedAlong(rules, path, ks) then Get(o, ks).value
                 else Merge(Get(b, ks).value, Get(o, ks).value, rules, At(path, ks)))
    decreases |ks|
  {
    hide Replaced, Keys, Distinct, MergeFields, AppendUnique;
    if ks != [] && !Replaced(rules, path) {
      MergedObject(b, o, rules, path);
      ValidValue(b.fields, ks[0]);
      ValidValue(o.fields, ks[0]);
      MergeAt(Lookup(b.fields, ks[0]).value, Lookup(o.fields, ks[0]).value, rules, Child(path, ks[0]), ks[1..]);
    }
  }

  // ------------------------------------------------------ the merge, key by key

  /** A key that means only itself in a path. */
  predicate PlainKey(k: string) {
    k != "" && '.' !in k && !IsSpace(k[0]) && !IsSpace(k[|k| - 1])
  }

  predicate PlainKeys(ks: seq<string>) {
    forall k :: k in ks ==> PlainKey(k)
  }

  /** Some rule stands for the keys, or for those on the way to them. */
  ghost predicate UnderRule(rules: seq<string>, ks: seq<string>) {
    exists n: nat, rule :: 0 < n <= |ks| && rule in rules && CoversKeys(rule, ks[..n])
  }

  ghost predicate CoversKeys(rule: string, ks: seq<string>) {
    exists r, rs :: Normal(rule, r) && r != "" && Dotted(r, rs) && Allows(rs, ks)
  }

  /** `more` are the elements of `ys` that are not in `xs`, each where it stands first. */
  ghost predicate Additions<T>(xs: seq<T>, ys: seq<T>, more: seq<T>, at: seq<nat>) {
    && |at| == |more|
    && (forall i :: 0 <= i < |at| ==> at[i] < |ys| && more[i] == ys[at[i]] && more[i] !in xs && more[i] !in ys[..at[i]])
    && (forall i, j :: 0 <= i < j < |at| ==> at[i] < at[j])
    && forall n: nat :: n < |ys| && ys[n] !in xs && ys[n] !in ys[..n] ==> n in at
  }

  ghost predicate Extended<T>(xs: seq<T>, ys: seq<T>, all: seq<T>) {
    xs <= all && exists at: seq<nat> :: Additions(xs, ys, all[|xs|..], at)
  }

  /** The two values merged, as far as it can be seen here: objects have the keys of both,
    * arrays the elements of both, and anything else is the override. */
  ghost predicate MergedHere(x: Json, y: Json, m: Json) {
    if x.Obj? && y.Obj? then
      && m.Obj? && Extended(Keys(x.fields), Keys(y.fields), Keys(m.fields))
      && forall k :: (k !in Keys(y.fields) ==> Lookup(m.fields, k) == Lookup(x.fields, k)) &&
                     (k !in Keys(x.fields) ==> Lookup(m.fields, k) == Lookup(y.fields, k))
    else if x.Arr? && y.Arr? then m.Arr? && Extended(x.items, y.items, m.items)
    else m == y
  }

  lemma {:induction false} AdditionsNext<T>(xs: seq<T>, ys: seq<T>, more: seq<T>, at: seq<nat>, y: T)
    requires Additions(xs, ys, more, at)
    ensures y in xs || y in ys ==> Additions(xs, ys + [y], more, at)
    ensures y !in xs && y !in ys ==> Additions(xs, ys + [y], more + [y], at + [|ys|])
  {
    var next := ys + [y];
    assert forall n: nat :: n <= |ys| ==> next[..n] == ys[..n];
    assert ys[..|ys|] == ys;
    forall n: nat | n < |ys| ensures next[n] == ys[n] {
    }
  }

  lemma {:induction false} UniqueAdds<T>(xs: seq<T>, ys: seq<T>) returns (at: seq<nat>)
    ensures xs <= AppendUnique(xs, ys) && Additions(xs, ys, AppendUnique(xs, ys)[|xs|..], at)
  {
    hide Additions;
    if ys == [] {
      at := [];
      NothingAdded(xs);
    } else {
      var init, y := ys[..|ys| - 1], ys[|ys| - 1];
      at := UniqueAdds(xs, init);
      var out := AppendUnique(xs, init);
      UniqueKeepsAll(xs, init);
      AdditionsNext(xs, init, out[|xs|..], at, y);
      assert init + [y] == ys && (out + [y])[|xs|..] == out[|xs|..] + [y];
      if y !in out {
        at := at + [|init|];
      }
    }
  }

  lemma {:induction false} NothingAdded<T>(xs: seq<T>)
    ensures xs[|xs|..] == [] && Additions(xs, [], xs[|xs|..], [])
  {
  }

  lemma {:induction false} UniqueExtends<T>(xs: seq<T>, ys: seq<T>)
    ensures Extended(xs, ys, AppendUnique(xs, ys))
  {
    hide AppendUnique, Additions;
    var at := UniqueAdds(xs, ys);
  }

  lemma {:induction false} MergesHere(x: Json, y: Json, rules: seq<string>, path: string)
    requires Valid(x) && Valid(y) && !Replaced(rules, path)
    ensures MergedHere(x, y, Merge(x, y, rules, path))
  {
    hide Replaced, Valid, Keys, Lookup, AppendUnique, MergeFields, Extended, Distinct;
    if x.Obj? && y.Obj? {
      MergedObject(x, y, rules, path);
      UniqueExtends(Keys(x.fields), Keys(y.fields));
      assert forall k :: (k in Keys(x.fields) <==> Lookup(x.fields, k).Some?) &&
                         (k in Keys(y.fields) <==> Lookup(y.fields, k).Some?);
    } else if x.Arr? && y.Arr? {
      UniqueExtends(x.items, y.items);
    }
  }

  // -------------------------------------------------------- paths of plain keys

  lemma {:induction false} DottedPart(s: string, parts: seq<string>, k: string)
    requires Dotted(s, parts) && '.' !in k
    ensures Dotted(s + "." + k, parts + [k])
    decreases |parts|
  {
    if |parts| == 1 {
      assert (parts + [k])[1..] == [k];
      assert (s + "." + k)[|s| + 1..] == k;
    } else {
      var n := |parts[0]| + 1;
      DottedPart(s[n..], parts[1..], k);
      assert (s + "." + k)[n..] == s[n..] + "." + k;
      assert (parts + [k])[1..] == parts[1..] + [k];
    }
  }

  /** The path begins with a plain key and ends with one, as far as its ends show. */
  predicate PlainEnds(path: string) {
    path != "" && !IsSpace(path[0]) && !IsSpace(path[|path| - 1]) && path[0] != '.' && path[|path| - 1] != '.'
  }

  lemma {:induction false} ChildDotted(path: string, ks: seq<string>, k: string)
    requires PlainKey(k) && if ks == [] then path == "" else Dotted(path, ks) && PlainEnds(path)
    ensures Dotted(Child(path, k), ks + [k]) && PlainEnds(Child(path, k))
  {
    hide Dotted, IsSpace;
    assert k[0] in k && k[|k| - 1] in k;
    if ks == [] {
      OneKey(k);
      assert [] + [k] == [k];
    } else {
      DottedPart(path, ks, k);
    }
  }

  lemma {:induction false} OneKey(k: string)
    requires '.' !in k
    ensures Dotted(k, [k])
  {
  }

  lemma {:induction false} PlainIsNormal(path: string)
    requires PlainEnds(path)
    ensures Normal(path, path)
  {
    assert path[0..|path|] == path;
    assert Between(IsSpace, path, path, 0, |path|) && Between(IsDot, path, path, 0, |path|);
  }

  /** On a path of plain keys a rule covers the path exactly when it covers the keys. */
  lemma {:induction false} CoversPlain(rule: string, path: string, ks: seq<string>)
    requires ks != [] && Dotted(path, ks) && PlainEnds(path)
    ensures Covers(rule, path) <==> CoversKeys(rule, ks)
  {
    hide Dotted, Normal, Normalize, Allows;
    PlainIsNormal(path);
    NormalizeMeans(path, path);
    if Covers(rule, path) {
      var r, rs, p, ps :|
        Normal(rule, r) && r != "" && Dotted(r, rs) && Normal(path, p) && p != "" && Dotted(p, ps) && Allows(rs, ps);
      NormalizeMeans(path, p);
      DottedUnique(path, ps, ks);
    }
    if CoversKeys(rule, ks) {
      var r, rs :| Normal(rule, r) && r != "" && Dotted(r, rs) && Allows(rs, ks);
      assert path != "";
    }
  }

  lemma {:induction false} ReplacedPlain(rules: seq<string>, path: string, ks: seq<string>)
    requires if ks == [] then path == "" else Dotted(path, ks) && PlainEnds(path)
    ensures Replaced(rules, path) <==> ks != [] && exists rule :: rule in rules && CoversKeys(rule, ks)
  {
    hide Dotted, PathMatches, Covers, CoversKeys;
    if ks != [] {
      forall rule ensures PathMatches(path, rule) <==> CoversKeys(rule, ks) {
        MatchesCovers(path, rule);
        CoversPlain(rule, path, ks);
      }
    }
  }

  /** `done` are the keys of the path so far. */
  lemma {:induction false} AlongPlain(rules: seq<string>, path: string, done: seq<string>, ks: seq<string>)
    requires PlainKeys(done + ks) && if done == [] then path == "" else Dotted(path, done) && PlainEnds(path)
    ensures ReplacedAlong(rules, path, ks) <==>
            exists n: nat, rule ::
              |done| <= n <= |done + ks| && n > 0 && rule in rules && CoversKeys(rule, (done + ks)[..n])
    ensures if done + ks == [] then At(path, ks) == "" else Dotted(At(path, ks), done + ks) && PlainEnds(At(path, ks))
    decreases |ks|
  {
    hide Dotted, Replaced, CoversKeys, PlainEnds;
    var all := done + ks;
    ReplacedPlain(rules, path, done);
    assert all[..|done|] == done;
    if ks == [] {
      assert all == done;
    } else {
      assert ks[0] in all;
      ChildDotted(path, done, ks[0]);
      assert done + [ks[0]] + ks[1..] == all;
      AlongPlain(rules, Child(path, ks[0]), done + [ks[0]], ks[1..]);
    }
  }

  /** What merging does at a path of plain keys that both documents have: exactly the
    * override where a rule stands for the path or for one on the way to it; else, an
    * object with the keys of both, an array with the elements of both, or the override. */
  lemma {:induction false} MergedAt(b: Json, o: Json, rules: seq<string>, ks: seq<string>)
    requires Valid(b) && Valid(o) && Get(b, ks).Some? && Get(o, ks).Some? && PlainKeys(ks)
    ensures var m := Get(Merge(b, o, rules, ""), ks);
            && m.Some?
            && (UnderRule(rules, ks) ==> m == Get(o, ks))
            && (!UnderRule(rules, ks) ==> MergedHere(Get(b, ks).value, Get(o, ks).value, m.value))
  {
    hide Merge, Replaced, Get, Valid, MergedHere, CoversKeys, Dotted;
    MergeAt(b, o, rules, "", ks);
    assert [] + ks == ks;
    AlongPlain(rules, "", [], ks);
    if !ReplacedAlong(rules, "", ks) {
      NotReplacedThere(rules, "", ks);
      ValidAt(b, ks);
      ValidAt(o, ks);
      MergesHere(Get(b, ks).value, Get(o, ks).value, rules, At("", ks));
    }
  }

  lemma {:induction false} NotReplacedThere(rules: seq<string>, path: string, ks: seq<string>)
    requires !ReplacedAlong(rules, path, ks)
    ensures !Replaced(rules, At(path, ks))
    decreases |ks|
  {
    hide Replaced;
    if ks != [] {
      NotReplacedThere(rules, Child(path, ks[0]), ks[1..]);
    }
  }

  lemma {:induction false} ValidAt(j: Json, ks: seq<string>)
    requires Valid(j) && Get(j, ks).Some?
    ensures Valid(Get(j, ks).value)
    decreases |ks|
  {
    if ks != [] {
      ValidValue(j.fields, ks[0]);
      ValidAt(Lookup(j.fields, ks[0]).value, ks[1..]);
    }
  }

  // ------------------------------------------------------------------ three layers

  /** Elements the base does not have, each once. */
  predicate New<T(==)>(xs: seq<T>, more: seq<T>) {
    Distinct(more) && forall x :: x in more ==> x !in xs
  }

  /** `a` under `c` adds nothing and moves nothing: what both hold of one kind begins
    * in `c` with what `a` has. */
  predicate AddsNothing(a: Json, c: Json, rules: seq<string>, path: string)
    decreases c
  {
    Replaced(rules, path) ||
    if a.Obj? && c.Obj? then
      && Keys(a.fields) <= Keys(c.fields)
      && forall k :: k in Keys(c.fields) ==>
           var x, z := Lookup(a.fields, k), Lookup(c.fields, k);
           assert Field(k, z.value) in c.fields;
           x.Some? ==> AddsNothing(x.value, z.value, rules, Child(path, k))
    else if a.Arr? && c.Arr? then
      a.items <= c.items && New(a.items, c.items[|a.items|..])
    else true
  }

  lemma {:induction false} UniqueLength<T>(xs: seq<T>, ys: seq<T>)
    ensures |AppendUnique(xs, ys)| <= |xs| + |ys|
  {
    if ys != [] {
      UniqueLength(xs, ys[..|ys| - 1]);
    }
  }

  /** All of `more` is appended exactly when it is new. */
  lemma {:induction false} AppendsAllIff<T>(xs: seq<T>, more: seq<T>)
    ensures AppendUnique(xs, more) == xs + more <==> New(xs, more)
  {
    if more == [] {
      assert xs + more == xs;
    } else {
      var init, last := more[..|more| - 1], more[|more| - 1];
      AppendsAllIff(xs, init);
      UniqueLength(xs, init);
      hide AppendUnique, Distinct;
      assert more == init + [last] && xs + more == (xs + init) + [last];
      UniqueSnoc(xs, init, last);
      NewSnoc(xs, init, last);
      if AppendUnique(xs, more) == xs + more {
        assert (AppendUnique(xs, init) + [last])[..|xs + init|] == AppendUnique(xs, init);
        assert ((xs + init) + [last])[..|xs + init|] == xs + init;
      }
    }
  }

  lemma {:induction false} NewSnoc<T>(xs: seq<T>, init: seq<T>, last: T)
    ensures New(xs, init + [last]) <==> New(xs, init) && last !in xs + init
  {
    assert (init + [last])[..|init + [last]| - 1] == init;
    assert last in init + [last] && forall x :: x in init ==> x in init + [last];
  }

  lemma {:induction false} KeepsIff<T>(xs: seq<T>, ys: seq<T>)
    ensures AppendUnique(xs, ys) == ys <==> xs <= ys && New(xs, ys[|xs|..])
  {
    hide AppendUnique, New;
    UniqueKeepsAll(xs, ys);
    if xs <= ys {
      var rest := ys[|xs|..];
      assert ys == xs + rest;
      UniqueConcat(xs, xs, rest);
      UniqueAbsorbs(xs, xs);
      AppendsAllIff(xs, rest);
    }
  }

  lemma {:induction false} DistinctParts<T>(xs: seq<T>, ys: seq<T>)
    requires Distinct(xs + ys)
    ensures New(xs, ys)
  {
    if ys != [] {
      DropLastConcat(xs, ys);
      DistinctParts(xs, ys[..|ys| - 1]);
      assert ys == ys[..|ys| - 1] + [ys[|ys| - 1]];
      NewSnoc(xs, ys[..|ys| - 1], ys[|ys| - 1]);
    }
  }

  /** So it is: merging over such a base gives the override back, and over no other. */
  lemma {:induction false} AddsNothingIff(a: Json, c: Json, rules: seq<string>, path: string)
    requires Valid(a) && Valid(c)
    ensures Merge(a, c, rules, path) == c <==> AddsNothing(a, c, rules, path)
    decreases c
  {
    hide Replaced, Keys, Distinct, MergeFields, AppendUnique, New, Lookup;
    if !Replaced(rules, path) {
      if a.Obj? && c.Obj? {
        var m := MergeFields(a.fields, c.fields, rules, path);
        MergedObject(a, c, rules, path);
        KeepsIff(Keys(a.fields), Keys(c.fields));
        if Keys(a.fields) <= Keys(c.fields) {
          var n := |Keys(a.fields)|;
          assert Keys(c.fields) == Keys(a.fields) + Keys(c.fields)[n..];
          DistinctParts(Keys(a.fields), Keys(c.fields)[n..]);
        }
        forall k | k in Keys(c.fields) && Lookup(a.fields, k).Some?
          ensures Merge(Lookup(a.fields, k).value, Lookup(c.fields, k).value, rules, Child(path, k)) ==
                  Lookup(c.fields, k).value <==>
                  AddsNothing(Lookup(a.fields, k).value, Lookup(c.fields, k).value, rules, Child(path, k))
        {
          ValidValue(a.fields, k);
          ValidValue(c.fields, k);
          assert Field(k, Lookup(c.fields, k).value) in c.fields;
          AddsNothingIff(Lookup(a.fields, k).value, Lookup(c.fields, k).value, rules, Child(path, k));
        }
        if Keys(m) == Keys(c.fields) && forall k :: k in Keys(c.fields) ==> Lookup(m, k) == Lookup(c.fields, k) {
          FieldsExtensional(m, c.fields);
        }
        assert m == c.fields <==>
               Keys(m) == Keys(c.fields) && forall k :: k in Keys(c.fields) ==> Lookup(m, k) == Lookup(c.fields, k);
      } else if a.Arr? && c.Arr? {
        KeepsIff(a.items, c.items);
      }
    }
  }

  /** No middle layer hides a container from the one above it, unless the one below
    * adds nothing to that anyway. */
  predicate Associates(a: Json, b: Json, c: Json, rules: seq<string>, path: string)
    decreases c
  {
    Replaced(rules, path) ||
    if a.Obj? && b.Obj? && c.Obj? then
      forall k :: k in Keys(c.fields) ==>
        var x, y, z := Lookup(a.fields, k), Lookup(b.fields, k), Lookup(c.fields, k);
        assert Field(k, z.value) in c.fields;
        x.Some? && y.Some? ==> Associates(x.value, y.value, z.value, rules, Child(path, k))
    else if (a.Obj? && c.Obj?) || (a.Arr? && c.Arr? && !b.Arr?) then AddsNothing(a, c, rules, path)
    else true
  }

  /** Merging three layers from the left or from the right is the same exactly when
    * the layers associate. */
  lemma {:induction false} MergeAssociativeIff(a: Json, b: Json, c: Json, rules: seq<string>, path: string)
    requires Valid(a) && Valid(b) && Valid(c)
    ensures Merge(Merge(a, b, rules, path), c, rules, path) == Merge(a, Merge(b, c, rules, path), rules, path) <==>
            Associates(a, b, c, rules, path)
    decreases c, 2
  {
    hide Replaced, Keys, Distinct, MergeFields, AppendUnique, Lookup;
    if !Replaced(rules, path) {
      if a.Obj? && b.Obj? && c.Obj? {
        ObjectsAssociateIff(a, b, c, rules, path);
      } else if a.Arr? && b.Arr? && c.Arr? {
        UniqueConcat(a.items, b.items, c.items);
      } else {
        AddsNothingIff(a, c, rules, path);
      }
    }
  }

  lemma {:induction false} ObjectsAssociateIff(a: Json, b: Json, c: Json, rules: seq<string>, path: string)
    requires Valid(a) && Valid(b) && Valid(c) && a.Obj? && b.Obj? && c.Obj? && !Replaced(rules, path)
    ensures Merge(Merge(a, b, rules, path), c, rules, path) == Merge(a, Merge(b, c, rules, path), rules, path) <==>
            Associates(a, b, c, rules, path)
    decreases c, 1
  {
    hide Replaced, Keys, Distinct, MergeFields, AppendUnique;
    var ab, bc := MergeFields(a.fields, b.fields, rules, path), MergeFields(b.fields, c.fields, rules, path);
    var l, r := MergeFields(ab, c.fields, rules, path), MergeFields(a.fields, bc, rules, path);
    MergedObject(a, b, rules, path);
    MergedObject(b, c, rules, path);
    MergeFieldsMeans(ab, c.fields, rules, path);
    MergeFieldsMeans(a.fields, bc, rules, path);
    UniqueConcat(Keys(a.fields), Keys(b.fields), Keys(c.fields));
    UniqueKeepsAll(Keys(ab), Keys(c.fields));
    forall k ensures Lookup(l, k) == Lookup(r, k) <==> KeyAssociates(a, b, c, rules, path, k) {
      SidesAgreeIff(a, b, c, ab, bc, rules, path, k);
    }
    if forall k :: Lookup(l, k) == Lookup(r, k) {
      FieldsExtensional(l, r);
    }
    EveryKeyAssociates(a, b, c, rules, path);
  }

  /** The part of `Associates` that is about one key. */
  predicate KeyAssociates(a: Json, b: Json, c: Json, rules: seq<string>, path: string, k: string)
    requires a.Obj? && b.Obj? && c.Obj?
  {
    var x, y, z := Lookup(a.fields, k), Lookup(b.fields, k), Lookup(c.fields, k);
    x.Some? && y.Some? && z.Some? ==> Associates(x.value, y.value, z.value, rules, Child(path, k))
  }

  lemma {:induction false} SidesAgreeIff(a: Json, b: Json, c: Json, ab: seq<Field>, bc: seq<Field>,
                                        rules: seq<string>, path: string, k: string)
    requires Valid(a) && Valid(b) && Valid(c) && a.Obj? && b.Obj? && c.Obj?
    requires Lookup(ab, k) == MergedValue(a.fields, b.fields, rules, path, k)
    requires Lookup(bc, k) == MergedValue(b.fields, c.fields, rules, path, k)
    ensures MergedValue(ab, c.fields, rules, path, k) == MergedValue(a.fields, bc, rules, path, k) <==>
            KeyAssociates(a, b, c, rules, path, k)
    decreases c, 0
  {
    hide Replaced, Keys, Distinct, MergeFields, AppendUnique, Associates, Merge;
    var x, y, z := Lookup(a.fields, k), Lookup(b.fields, k), Lookup(c.fields, k);
    if x.Some? && y.Some? && z.Some? {
      ValidValue(a.fields, k);
      ValidValue(b.fields, k);
      ValidValue(c.fields, k);
      assert Field(k, z.value) in c.fields;
      MergeAssociativeIff(x.value, y.value, z.value, rules, Child(path, k));
    }
  }

  lemma {:induction false} EveryKeyAssociates(a: Json, b: Json, c: Json, rules: seq<string>, path: string)
    requires a.Obj? && b.Obj? && c.Obj? && !Replaced(rules, path)
    ensures Associates(a, b, c, rules, path) <==> forall k :: KeyAssociates(a, b, c, rules, path, k)
  {
    hide Replaced, Lookup, Keys;
    if Associates(a, b, c, rules, path) {
      forall k ensures KeyAssociates(a, b, c, rules, path, k) {
        if Lookup(c.fields, k).Some? {
          assert k in Keys(c.fields);
        }
      }
    }
    if forall k :: KeyAssociates(a, b, c, rules, path, k) {
      forall k | k in Keys(c.fields) && Lookup(a.fields, k).Some? && Lookup(b.fields, k).Some?
        ensures Associates(Lookup(a.fields, k).value, Lookup(b.fields, k).value, Lookup(c.fields, k).value, rules,
                           Child(path, k))
      {
        assert KeyAssociates(a, b, c, rules, path, k);
      }
    }
  }

  /** The same kind of thing in all three layers, at every shared path. */
  predicate KindsAgree(a: Json, b: Json, c: Json)
    decreases c
  {
    && (a.Obj? <==> b.Obj?) && (b.Obj? <==> c.Obj?) && (a.Arr? <==> b.Arr?) && (b.Arr? <==> c.Arr?)
    && (c.Obj? ==> forall k :: k in Keys(c.fields) ==>
          var x, y, z := Lookup(a.fields, k), Lookup(b.fields, k), Lookup(c.fields, k);
          assert Field(k, z.value) in c.fields;
          x.Some? && y.Some? ==> KindsAgree(x.value, y.value, z.value))
  }

  /** In particular where no key changes kind between the layers. */
  lemma {:induction false} KindsAgreeAssociates(a: Json, b: Json, c: Json, rules: seq<string>, path: string)
    requires KindsAgree(a, b, c)
    ensures Associates(a, b, c, rules, path)
    decreases c
  {
    hide Replaced, Lookup, Keys;
    if c.Obj? {
      forall k | k in Keys(c.fields) && Lookup(a.fields, k).Some? && Lookup(b.fields, k).Some?
        ensures Associates(Lookup(a.fields, k).value, Lookup(b.fields, k).value, Lookup(c.fields, k).value, rules,
                           Child(path, k))
      {
        assert Field(k, Lookup(c.fields, k).value) in c.fields;
        KindsAgreeAssociates(Lookup(a.fields, k).value, Lookup(b.fields, k).value, Lookup(c.fields, k).value, rules,
                             Child(path, k));
      }
    }
  }

  lemma {:induction false} SelfAssociates(d: Json, o: Json, rules: seq<string>, path: string)
    requires Valid(d) && Valid(o)
    ensures Associates(d, d, o, rules, path)
    decreases o
  {
    hide Replaced, Lookup, Keys;
    if o.Obj? && d.Obj? {
      forall k | k in Keys(o.fields) && Lookup(d.fields, k).Some?
        ensures Associates(Lookup(d.fields, k).value, Lookup(d.fields, k).value, Lookup(o.fields, k).value, rules,
                           Child(path, k))
      {
        ValidValue(d.fields, k);
        ValidValue(o.fields, k);
        assert Field(k, Lookup(o.fields, k).value) in o.fields;
        SelfAssociates(Lookup(d.fields, k).value, Lookup(o.fields, k).value, rules, Child(path, k));
      }
    } else if o.Obj? || o.Arr? {
      assert !(d.Obj? && o.Obj?);
    }
  }

  /** Merging the merged document over the default one gives it back. */
  lemma {:induction false} MergedIsStable(d: Json, o: Json, rules: seq<string>, path: string)
    requires Valid(d) && Valid(o)
    ensures Merge(d, Merge(d, o, rules, path), rules, path) == Merge(d, o, rules, path)
  {
    hide Merge, Associates, Valid;
    SelfAssociates(d, o, rules, path);
    MergeAssociativeIff(d, d, o, rules, path);
    MergeSelf(d, rules, path);
  }

  // ---------------------------------------------------------------------- the loops

  /** `_array_append_unique`. */
  method ArrayAppendUnique(base: seq<Json>, over: seq<Json>) returns (out: seq<Json>)
    ensures out == AppendUnique(base, over)
  {
    out := base;
    var seen := set x | x in base;
    var i := 0;
    while i < |over|
      invariant i <= |over|
      invariant out == AppendUnique(base, over[..i])
      invariant forall x :: x in seen <==> x in out
    {
      TakeNext(over, i);
      var item := over[i];
      i := i + 1;
      if item in seen {
        continue;
      }
      seen := seen + {item};
      out := out + [item];
    }
    TakeAll(over);
  }

  method AnyMatches(rules: seq<string>, path: string) returns (found: bool)
    ensures found <==> exists r :: r in rules && PathMatches(path, r)
  {
    hide PathMatches;
    var i := 0;
    while i < |rules|
      invariant i <= |rules|
      invariant forall k :: 0 <= k < i ==> !PathMatches(path, rules[k])
    {
      var ok := PathMatchesRule(path, rules[i]);
      if ok {
        return true;
      }
      i := i + 1;
    }
    return false;
  }

  /** `_deep_merge`. */
  method DeepMerge(base: Json, over: Json, rules: seq<string>, path: string) returns (merged: Json)
    ensures merged == Merge(base, over, rules, path)
    decreases over
  {
    hide PathMatches, Keys, Lookup, Put, AppendUnique;
    if path != "" {
      var found := AnyMatches(rules, path);
      if found {
        return over;
      }
    }
    if base.Obj? && over.Obj? {
      var out := base.fields;
      var i := 0;
      while i < |over.fields|
        invariant i <= |over.fields|
        invariant out == MergeFields(base.fields, over.fields[..i], rules, path)
      {
        TakeNext(over.fields, i);
        var f := over.fields[i];
        var had := Lookup(out, f.key);
        if had.Some? {
          var value := DeepMerge(had.value, f.value, rules, Child(path, f.key));
          out := Put(out, f.key, value);
        } else {
          out := Put(out, f.key, f.value);
        }
        i := i + 1;
      }
      TakeAll(over.fields);
      return Obj(out);
    }
    if base.Arr? && over.Arr? {
      var items := ArrayAppendUnique(base.items, over.items);
      return Arr(items);
    }
    return over;
  }
}
