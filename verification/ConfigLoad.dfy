/** Loading the configuration: the default file and the personal one, substituted and
  * merged. */
module ConfigLoad {
  import opened Wrappers
  import opened Texts
  import opened JsonMerge

  // ----------------------------------------------------------- default and personal

  const IMPORT_RULES: string := "ImportRules"

  datatype LoadError = FileMissing | RootNotObject

  /** The document with every text put through `env`, which replaces references to
    * environment variables; keys stay. */
  function Substituted(j: Json, env: string -> string): Json {
    match j
    case Str(s) => Str(env(s))
    case Arr(items) => Arr(SubstitutedItems(items, env))
    case Obj(fields) => Obj(SubstitutedFields(fields, env))
    case _ => j
  }

  function SubstitutedItems(items: seq<Json>, env: string -> string): seq<Json> {
    if items == [] then []
    else SubstitutedItems(items[..|items| - 1], env) + [Substituted(items[|items| - 1], env)]
  }

  function SubstitutedFields(fs: seq<Field>, env: string -> string): seq<Field> {
    if fs == [] then []
    else
      var f := fs[|fs| - 1];
      SubstitutedFields(fs[..|fs| - 1], env) + [Field(f.key, Substituted(f.value, env))]
  }

  /** The entries of the replace list that say something; `show` is how an entry that
    * is no text is written. */
  function RuleTexts(items: seq<Json>, show: Json -> string): seq<string> {
    if items == [] then []
    else
      var x := items[|items| - 1];
      var text := Strip(IsSpace, if x.Str? then x.s else show(x));
      RuleTexts(items[..|items| - 1], show) + if text == "" then [] else [text]
  }

  function ReplaceRules(fields: seq<Field>, show: Json -> string): seq<string> {
    match Lookup(fields, IMPORT_RULES)
    case Some(Obj(entries)) =>
      (match Lookup(entries, "Replace")
       case Some(Arr(items)) => RuleTexts(items, show)
       case _ => [])
    case _ => []
  }

  function Without(fs: seq<Field>, k: string): seq<Field> {
    if fs == [] then []
    else Without(fs[..|fs| - 1], k) + if fs[|fs| - 1].key == k then [] else [fs[|fs| - 1]]
  }

  /** Default and personal document, both substituted, merged under the rules of the
    * default one. */
  function Loaded(defaults: seq<Field>, personal: Json, env: string -> string, show: Json -> string): Json {
    var base := SubstitutedFields(defaults, env);
    Merge(Obj(Without(base, IMPORT_RULES)), Substituted(personal, env), ReplaceRules(base, show), "")
  }

  /** `_load_system_with_defaults`; None stands for a missing file. */
  method LoadWithDefaults(defaults: Option<Json>, personal: Option<Json>, env: string -> string, show: Json -> string)
    returns (r: Result<Json, LoadError>)
    ensures r == if defaults.None? && personal.None? then Err(FileMissing)
                 else if (defaults.Some? && !defaults.value.Obj?) || (personal.Some? && !personal.value.Obj?)
                 then Err(RootNotObject)
                 else if defaults.None? then Ok(Substituted(personal.value, env))
                 else Ok(Loaded(defaults.value.fields, if personal.None? then Obj([]) else personal.value, env, show))
  {
    hide Without, ReplaceRules, MergeFields, SubstitutedItems;
    if defaults.None? {
      if personal.None? {
        return Err(FileMissing);
      }
      var alone := Substituted(personal.value, env);
      return if alone.Obj? then Ok(alone) else Err(RootNotObject);
    }
    var base := Substituted(defaults.value, env);
    if !base.Obj? {
      return Err(RootNotObject);
    }
    var over := Obj([]);
    if personal.Some? {
      over := Substituted(personal.value, env);
      if !over.Obj? {
        return Err(RootNotObject);
      }
    }
    var rules := ReplaceRules(base.fields, show);
    var merged := DeepMerge(Obj(Without(base.fields, IMPORT_RULES)), over, rules, "");
    return Ok(merged);
  }

  /** Substitution changes no key, and what is found under a key is what was there,
    * substituted. */
  lemma {:induction false} SubstitutedLookup(fs: seq<Field>, env: string -> string, k: string)
    ensures Keys(SubstitutedFields(fs, env)) == Keys(fs)
    ensures Lookup(SubstitutedFields(fs, env), k) ==
            if Lookup(fs, k).None? then None else Some(Substituted(Lookup(fs, k).value, env))
  {
    hide Keys, Lookup, Substituted;
    if fs == [] {
      EmptyKeys();
    } else {
      var init, f := fs[..|fs| - 1], fs[|fs| - 1];
      SubstitutedLookup(init, env, k);
      FieldsSnoc(SubstitutedFields(init, env), Field(f.key, Substituted(f.value, env)), k);
      FieldsSnoc(init, f, k);
      assert fs == init + [f];
    }
  }

  lemma {:induction false} SubstitutedValid(j: Json, env: string -> string)
    requires Valid(j)
    ensures Valid(Substituted(j, env))
    decreases j, 1
  {
    hide Keys, Distinct, Lookup;
    match j
    case Arr(items) => ItemsValid(items, env);
    case Obj(fields) =>
      SubstitutedLookup(fields, env, "");
      FieldsValid(fields, env);
    case _ =>
  }

  lemma {:induction false} ItemsValid(items: seq<Json>, env: string -> string)
    requires forall x :: x in items ==> Valid(x)
    ensures forall x :: x in SubstitutedItems(items, env) ==> Valid(x)
    decreases items, 0
  {
    hide Valid, Substituted;
    if items != [] {
      var init, x := items[..|items| - 1], items[|items| - 1];
      assert x in items && forall y :: y in init ==> y in items;
      ItemsValid(init, env);
      SubstitutedValid(x, env);
    }
  }

  lemma {:induction false} FieldsValid(fs: seq<Field>, env: string -> string)
    requires forall f :: f in fs ==> Valid(f.value)
    ensures forall f :: f in SubstitutedFields(fs, env) ==> Valid(f.value)
    decreases fs, 0
  {
    hide Valid, Substituted;
    if fs != [] {
      var init, f := fs[..|fs| - 1], fs[|fs| - 1];
      assert f in fs && forall g :: g in init ==> g in fs;
      FieldsValid(init, env);
      SubstitutedValid(f.value, env);
    }
  }

  lemma {:induction false} WithoutMeans(fs: seq<Field>, k: string)
    requires Distinct(Keys(fs))
    ensures Distinct(Keys(Without(fs, k))) && forall j :: j in Keys(Without(fs, k)) <==> j in Keys(fs) && j != k
    ensures forall f :: f in Without(fs, k) ==> f in fs
  {
    hide Distinct, Keys;
    if fs == [] {
      EmptyKeys();
    } else {
      var init, last := fs[..|fs| - 1], fs[|fs| - 1];
      SplitKeys(fs);
      WithoutMeans(init, k);
      var rest := Without(init, k);
      FieldsSnoc(rest, last, k);
      if last.key != k {
        DistinctSnoc(Keys(rest), last.key);
      } else {
        assert rest + [] == rest;
      }
      forall j ensures j in Keys(Without(fs, k)) <==> j in Keys(fs) && j != k {
        InSnoc(Keys(rest), last.key, j);
        InSnoc(Keys(init), last.key, j);
      }
    }
  }

  lemma {:induction false} EmptyKeys()
    ensures Keys([]) == [] && Distinct(Keys([]))
  {
  }

  /** The import rules are taken out of the defaults only: they are in the loaded
    * configuration exactly when the personal file holds them; every other key is
    * there exactly when one of the files has it. */
  lemma {:induction false} LoadedKeys(defaults: seq<Field>, personal: Json, env: string -> string, show: Json -> string,
                                     k: string)
    requires personal.Obj? && Valid(Obj(defaults)) && Valid(personal)
    ensures var m := Loaded(defaults, personal, env, show);
            m.Obj? && (k in Keys(m.fields) <==>
                       k in Keys(personal.fields) || (k in Keys(defaults) && k != IMPORT_RULES))
  {
    hide Distinct, Keys, Without, MergeFields, ReplaceRules, Lookup, SubstitutedFields, SubstitutedItems;
    var base, over := SubstitutedFields(defaults, env), Substituted(personal, env);
    SubstitutedLookup(defaults, env, k);
    SubstitutedLookup(personal.fields, env, k);
    SubstitutedValid(Obj(defaults), env);
    SubstitutedValid(personal, env);
    WithoutMeans(base, IMPORT_RULES);
    MergedObject(Obj(Without(base, IMPORT_RULES)), over, ReplaceRules(base, show), "");
  }

  // ----------------------------------------------------- the loaded document

  /** Substitution, case by case: texts go through `env`, lists and objects keep their
    * shape and their keys, everything else stays. */
  lemma {:induction false} SubstitutedSays(j: Json, env: string -> string)
    ensures var r := Substituted(j, env);
            && (j.Str? ==> r == Str(env(j.s)))
            && (j.Arr? ==> r.Arr? && |r.items| == |j.items| &&
                           forall i :: 0 <= i < |j.items| ==> r.items[i] == Substituted(j.items[i], env))
            && (j.Obj? ==> r.Obj? && |r.fields| == |j.fields| &&
                           forall i :: 0 <= i < |j.fields| ==>
                             r.fields[i] == Field(j.fields[i].key, Substituted(j.fields[i].value, env)))
            && (!j.Str? && !j.Arr? && !j.Obj? ==> r == j)
  {
    hide SubstitutedItems, SubstitutedFields;
    match j
    case Arr(items) => ItemsAt(items, env);
    case Obj(fields) => FieldsAt(fields, env);
    case _ =>
  }

  lemma {:induction false} ItemsAt(items: seq<Json>, env: string -> string)
    ensures |SubstitutedItems(items, env)| == |items|
    ensures forall i :: 0 <= i < |items| ==> SubstitutedItems(items, env)[i] == Substituted(items[i], env)
  {
    hide Substituted;
    if items != [] {
      var init := items[..|items| - 1];
      ItemsAt(init, env);
      assert forall i :: 0 <= i < |init| ==> init[i] == items[i];
    }
  }

  lemma {:induction false} FieldsAt(fs: seq<Field>, env: string -> string)
    ensures |SubstitutedFields(fs, env)| == |fs|
    ensures forall i :: 0 <= i < |fs| ==>
              SubstitutedFields(fs, env)[i] == Field(fs[i].key, Substituted(fs[i].value, env))
  {
    hide Substituted;
    if fs != [] {
      var init := fs[..|fs| - 1];
      FieldsAt(init, env);
      assert forall i :: 0 <= i < |init| ==> init[i] == fs[i];
    }
  }

  /** The rule is the text without the white space at its ends, and not empty. */
  ghost predicate IsEntry(rule: string, text: string) {
    rule != "" && exists i: nat, j: nat :: Between(IsSpace, text, rule, i, j)
  }

  /** The rules are the entries of the list under "ImportRules" and "Replace" that are
    * not blank; without such a list there are none. */
  ghost predicate RulesOf(fields: seq<Field>, show: Json -> string, rules: seq<string>) {
    var found := Lookup(fields, "ImportRules");
    if found.Some? && found.value.Obj? && Lookup(found.value.fields, "Replace").Some? &&
       Lookup(found.value.fields, "Replace").value.Arr?
    then
      var entries := Lookup(found.value.fields, "Replace").value.items;
      forall rule :: rule in rules <==> exists x :: x in entries && IsEntry(rule, if x.Str? then x.s else show(x))
    else rules == []
  }

  lemma {:induction false} EntryIs(rule: string, text: string)
    ensures IsEntry(rule, text) <==> rule != "" && rule == Strip(IsSpace, text)
  {
    hide Strip, Between;
    var a, b := StripMeans(IsSpace, text);
    if i: nat, j: nat :| Between(IsSpace, text, rule, i, j) {
      BetweenIsStrip(IsSpace, text, rule, i, j);
    }
  }

  lemma {:induction false} RuleTextsMean(items: seq<Json>, show: Json -> string, rule: string)
    ensures rule in RuleTexts(items, show) <==> exists x :: x in items && IsEntry(rule, if x.Str? then x.s else show(x))
  {
    hide Strip, IsEntry;
    if items != [] {
      var init, x := items[..|items| - 1], items[|items| - 1];
      RuleTextsMean(init, show, rule);
      EntryIs(rule, if x.Str? then x.s else show(x));
      assert items == init + [x];
    }
  }

  lemma {:induction false} ReplaceRulesMean(fields: seq<Field>, show: Json -> string)
    ensures RulesOf(fields, show, ReplaceRules(fields, show))
  {
    hide RuleTexts, Lookup, IsEntry;
    forall items: seq<Json>, rule {
      RuleTextsMean(items, show, rule);
    }
  }

  lemma {:induction false} WithoutKeeps(fs: seq<Field>, k: string, j: string)
    requires j != k
    ensures Lookup(Without(fs, k), j) == Lookup(fs, j)
  {
    hide Lookup, Keys;
    if fs != [] {
      var init, last := fs[..|fs| - 1], fs[|fs| - 1];
      WithoutKeeps(init, k, j);
      FieldsSnoc(init, last, j);
      FieldsSnoc(Without(init, k), last, j);
      assert fs == init + [last];
      assert Without(init, k) + [] == Without(init, k);
    }
  }

  lemma {:induction false} SubstitutedAt(j: Json, env: string -> string, ks: seq<string>)
    ensures Get(Substituted(j, env), ks) ==
            if Get(j, ks).None? then None else Some(Substituted(Get(j, ks).value, env))
    decreases |ks|
  {
    hide Lookup, SubstitutedFields, SubstitutedItems;
    if ks != [] && j.Obj? {
      SubstitutedLookup(j.fields, env, ks[0]);
      if Lookup(j.fields, ks[0]).Some? {
        SubstitutedAt(Lookup(j.fields, ks[0]).value, env, ks[1..]);
      }
    }
  }

  /** What the loaded configuration holds at a path of plain keys that both files have,
    * outside the import rules: the personal value where a rule of the default file stands
    * for the path or one on the way to it, and else the two values merged; both with
    * their texts substituted. */
  lemma {:induction false} LoadedAt(defaults: seq<Field>, personal: Json, env: string -> string, show: Json -> string,
                                   ks: seq<string>) returns (rules: seq<string>)
    requires personal.Obj? && Valid(Obj(defaults)) && Valid(personal)
    requires ks != [] && ks[0] != "ImportRules" && PlainKeys(ks)
    requires Get(Obj(defaults), ks).Some? && Get(personal, ks).Some?
    ensures RulesOf(SubstitutedFields(defaults, env), show, rules)
    ensures var m := Get(Loaded(defaults, personal, env, show), ks);
            var x, y := Substituted(Get(Obj(defaults), ks).value, env), Substituted(Get(personal, ks).value, env);
            && m.Some?
            && (UnderRule(rules, ks) ==> m.value == y)
            && (!UnderRule(rules, ks) ==> MergedHere(x, y, m.value))
  {
    hide Keys, Distinct, Without, MergeFields, Merge, Lookup, ReplaceRules, Valid, MergedHere, UnderRule, PlainKeys,
      RulesOf;
    var base, over := SubstitutedFields(defaults, env), Substituted(personal, env);
    var bare := Without(base, IMPORT_RULES);
    rules := ReplaceRules(base, show);
    ReplaceRulesMean(base, show);
    SubstitutedAt(Obj(defaults), env, ks);
    SubstitutedAt(personal, env, ks);
    WithoutKeeps(base, IMPORT_RULES, ks[0]);
    BareValid(defaults, env);
    SubstitutedValid(personal, env);
    MergedAt(Obj(bare), over, rules, ks);
  }

  lemma {:induction false} BareValid(defaults: seq<Field>, env: string -> string)
    requires Valid(Obj(defaults))
    ensures Valid(Obj(Without(SubstitutedFields(defaults, env), IMPORT_RULES)))
  {
    hide Keys, Distinct, Without, Lookup;
    SubstitutedLookup(defaults, env, "");
    FieldsValid(defaults, env);
    WithoutMeans(SubstitutedFields(defaults, env), IMPORT_RULES);
  }

  // ------------------------------------------------------------------ loading again

  /** Substituting once more changes nothing. */
  predicate Once(env: string -> string, s: string) {
    env(env(s)) == env(s)
  }

  ghost predicate Idempotent(env: string -> string) {
    forall s: string :: Once(env, s)
  }

  predicate ItemsSettled(items: seq<Json>, env: string -> string) {
    forall x :: x in items ==> Substituted(x, env) == x
  }

  predicate FieldsSettled(fs: seq<Field>, env: string -> string) {
    forall f :: f in fs ==> Substituted(f.value, env) == f.value
  }

  lemma {:induction false} SettledItemsIff(items: seq<Json>, env: string -> string)
    ensures SubstitutedItems(items, env) == items <==> ItemsSettled(items, env)
  {
    hide Substituted;
    if items != [] {
      var init, x := items[..|items| - 1], items[|items| - 1];
      SettledItemsIff(init, env);
      ItemsCount(init, env);
      assert items == init + [x];
      assert x in items;
      assert (SubstitutedItems(init, env) + [Substituted(x, env)])[..|init|] == SubstitutedItems(init, env);
      assert (init + [x])[..|init|] == init;
    }
  }

  lemma {:induction false} ItemsCount(items: seq<Json>, env: string -> string)
    ensures |SubstitutedItems(items, env)| == |items|
  {
    hide Substituted;
    if items != [] {
      ItemsCount(items[..|items| - 1], env);
    }
  }

  lemma {:induction false} SettledFieldsIff(fs: seq<Field>, env: string -> string)
    ensures SubstitutedFields(fs, env) == fs <==> FieldsSettled(fs, env)
  {
    hide Substituted;
    if fs != [] {
      var init, f := fs[..|fs| - 1], fs[|fs| - 1];
      SettledFieldsIff(init, env);
      FieldsCount(init, env);
      assert fs == init + [f];
      assert f in fs;
      var g := Field(f.key, Substituted(f.value, env));
      assert (SubstitutedFields(init, env) + [g])[..|init|] == SubstitutedFields(init, env);
      assert (init + [f])[..|init|] == init;
      assert (SubstitutedFields(init, env) + [g])[|init|] == g && (init + [f])[|init|] == f;
    }
  }

  lemma {:induction false} FieldsCount(fs: seq<Field>, env: string -> string)
    ensures |SubstitutedFields(fs, env)| == |fs|
  {
    hide Substituted;
    if fs != [] {
      FieldsCount(fs[..|fs| - 1], env);
    }
  }

  lemma {:induction false} SubstitutedTwice(j: Json, env: string -> string)
    requires Idempotent(env)
    ensures Substituted(Substituted(j, env), env) == Substituted(j, env)
    decreases j, 1
  {
    match j
    case Str(s) => assert Once(env, s);
    case Arr(items) =>
      ItemsTwice(items, env);
      SettledItemsIff(SubstitutedItems(items, env), env);
    case Obj(fields) =>
      FieldsTwice(fields, env);
      SettledFieldsIff(SubstitutedFields(fields, env), env);
    case _ =>
  }

  lemma {:induction false} ItemsTwice(items: seq<Json>, env: string -> string)
    requires Idempotent(env)
    ensures ItemsSettled(SubstitutedItems(items, env), env)
    decreases items, 0
  {
    hide Substituted;
    if items != [] {
      ItemsTwice(items[..|items| - 1], env);
      SubstitutedTwice(items[|items| - 1], env);
    }
  }

  lemma {:induction false} FieldsTwice(fs: seq<Field>, env: string -> string)
    requires Idempotent(env)
    ensures FieldsSettled(SubstitutedFields(fs, env), env)
    decreases fs, 0
  {
    hide Substituted;
    if fs != [] {
      FieldsTwice(fs[..|fs| - 1], env);
      SubstitutedTwice(fs[|fs| - 1].value, env);
    }
  }

  lemma {:induction false} PutKeeps(fs: seq<Field>, k: string, v: Json, env: string -> string)
    requires FieldsSettled(fs, env) && Substituted(v, env) == v
    ensures FieldsSettled(Put(fs, k, v), env)
  {
    hide Substituted, Keys;
    if fs != [] && k in Keys(fs) && fs[|fs| - 1].key != k {
      var init, last := fs[..|fs| - 1], fs[|fs| - 1];
      assert last in fs && forall f :: f in init ==> f in fs;
      SplitKeys(fs);
      InSnoc(Keys(init), last.key, k);
      PutKeeps(init, k, v, env);
    }
  }

  /** What two settled documents merge to is settled. */
  lemma {:induction false} MergeSettled(b: Json, o: Json, rules: seq<string>, path: string, env: string -> string)
    requires Substituted(b, env) == b && Substituted(o, env) == o
    ensures Substituted(Merge(b, o, rules, path), env) == Merge(b, o, rules, path)
    decreases o
  {
    hide Replaced, AppendUnique, MergeFields, SubstitutedItems, SubstitutedFields;
    if !Replaced(rules, path) {
      if b.Obj? && o.Obj? {
        SettledFieldsIff(b.fields, env);
        SettledFieldsIff(o.fields, env);
        FieldsMergeSettled(b.fields, o.fields, rules, path, env);
        SettledFieldsIff(MergeFields(b.fields, o.fields, rules, path), env);
      } else if b.Arr? && o.Arr? {
        SettledItemsIff(b.items, env);
        SettledItemsIff(o.items, env);
        UniqueKeepsAll(b.items, o.items);
        SettledItemsIff(AppendUnique(b.items, o.items), env);
      }
    }
  }

  lemma {:induction false} FieldsMergeSettled(bs: seq<Field>, os: seq<Field>, rules: seq<string>, path: string,
                                             env: string -> string)
    requires FieldsSettled(bs, env) && FieldsSettled(os, env)
    ensures FieldsSettled(MergeFields(bs, os, rules, path), env)
    decreases os
  {
    hide Substituted, Put, Merge, Keys;
    if os != [] {
      var init, f := os[..|os| - 1], os[|os| - 1];
      assert f in os && forall g :: g in init ==> g in os;
      FieldsMergeSettled(bs, init, rules, path, env);
      var out := MergeFields(bs, init, rules, path);
      var had := Lookup(out, f.key);
      if had.Some? {
        assert Field(f.key, had.value) in out;
        MergeSettled(had.value, f.value, rules, Child(path, f.key), env);
        PutKeeps(out, f.key, Merge(had.value, f.value, rules, Child(path, f.key)), env);
      } else {
        PutKeeps(out, f.key, f.value, env);
      }
    }
  }

  /** Loading the loaded document in place of the personal one. */
  ghost predicate LoadsAgain(defaults: seq<Field>, personal: Json, env: string -> string, show: Json -> string) {
    var once := Loaded(defaults, personal, env, show);
    Loaded(defaults, once, env, show) == once
  }

  lemma {:induction false} SettledLoadsAgain(defaults: seq<Field>, personal: Json, env: string -> string,
                                            show: Json -> string)
    requires Idempotent(env) && personal.Obj? && Valid(Obj(defaults)) && Valid(personal)
    ensures LoadsAgain(defaults, personal, env, show)
  {
    hide Idempotent, Keys, Distinct, Without, MergeFields, Lookup, Merge, ReplaceRules, Valid;
    var base, over := SubstitutedFields(defaults, env), Substituted(personal, env);
    var bare, rules := Without(base, IMPORT_RULES), ReplaceRules(base, show);
    SubstitutedTwice(personal, env);
    FieldsTwice(defaults, env);
    BareIsSettled(defaults, env);
    SettledFieldsIff(bare, env);
    SubstitutedValid(personal, env);
    MergeSettled(Obj(bare), over, rules, "", env);
    MergedIsStable(Obj(bare), over, rules, "");
  }

  lemma {:induction false} BareIsSettled(defaults: seq<Field>, env: string -> string)
    requires FieldsSettled(SubstitutedFields(defaults, env), env) && Valid(Obj(defaults))
    ensures var bare := Without(SubstitutedFields(defaults, env), IMPORT_RULES);
            FieldsSettled(bare, env) && Valid(Obj(bare))
  {
    hide Keys, Distinct, Without, Lookup;
    BareValid(defaults, env);
    SubstitutedLookup(defaults, env, "");
    WithoutMeans(SubstitutedFields(defaults, env), IMPORT_RULES);
  }

  /** A personal document of one text. */
  function OneText(s: string): Json {
    Obj([Field("k", Str(s))])
  }

  lemma {:induction false} NoDefaults(env: string -> string, show: Json -> string)
    ensures SubstitutedFields([], env) == [] && Without([], IMPORT_RULES) == [] && ReplaceRules([], show) == []
  {
  }

  lemma {:induction false} OneFieldMerges(g: Field)
    ensures MergeFields([], [g], [], "") == [g]
  {
    hide Merge;
    assert [g][..0] == [];
    EmptyKeys();
  }

  lemma {:induction false} OneFieldValid(g: Field, s: string, env: string -> string)
    requires g.value == Str(s)
    ensures Valid(Obj([g])) && SubstitutedFields([g], env) == [Field(g.key, Str(env(s)))]
  {
    assert [g][..0] == [];
    FieldsSnoc([], g, g.key);
    EmptyKeys();
    DistinctSnoc([], g.key);
    assert [] + [g] == [g] && [] + [g.key] == [g.key];
  }

  lemma {:induction false} OneTextLoads(s: string, env: string -> string, show: Json -> string)
    ensures Valid(Obj([])) && Valid(OneText(s))
    ensures Loaded([], OneText(s), env, show) == OneText(env(s))
  {
    hide MergeFields, SubstitutedFields, Without, ReplaceRules, Keys, Distinct;
    EmptyKeys();
    NoDefaults(env, show);
    OneFieldValid(Field("k", Str(s)), s, env);
    OneFieldMerges(Field("k", Str(env(s))));
  }

  /** Saving the loaded configuration as the personal one and loading again changes
    * nothing, for all documents, if and only if substituting a second time changes no
    * text: the texts of the saved document are substituted again. */
  lemma {:induction false} LoadAgainIff(env: string -> string, show: Json -> string)
    ensures (forall defaults: seq<Field>, personal: Json ::
               personal.Obj? && Valid(Obj(defaults)) && Valid(personal) ==> LoadsAgain(defaults, personal, env, show)) <==>
            Idempotent(env)
  {
    hide Loaded, Substituted, Valid, LoadsAgain;
    if Idempotent(env) {
      forall defaults: seq<Field>, personal: Json | personal.Obj? && Valid(Obj(defaults)) && Valid(personal)
        ensures LoadsAgain(defaults, personal, env, show)
      {
        SettledLoadsAgain(defaults, personal, env, show);
      }
    } else {
      var s :| !Once(env, s);
      OneTextLoads(s, env, show);
      OneTextLoads(env(s), env, show);
      TwiceDiffers(s, env, show);
    }
  }

  lemma {:induction false} TwiceDiffers(s: string, env: string -> string, show: Json -> string)
    requires !Once(env, s)
    ensures OneText(s).Obj? && !LoadsAgain([], OneText(s), env, show)
  {
    hide Loaded;
    OneTextLoads(s, env, show);
    OneTextLoads(env(s), env, show);
    assert OneText(env(env(s))).fields[0].value == Str(env(env(s)));
    assert OneText(env(s)).fields[0].value == Str(env(s));
  }
}
