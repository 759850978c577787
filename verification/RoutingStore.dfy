/** The routing rule file: several owners, one file, each replacing its own rules. */
module RoutingStore {
  import opened Wrappers
  import opened Seqs
  import opened StableSort

  datatype Rule = Rule(id: string, event: string, to: string, fromPattern: string, description: string,
                       comment: string, priority: int, disabled: bool, owner: string)

  /** A priority entry of the file: absent, a number, or something else. */
  datatype Priority = Default | Number(n: int) | Unreadable

  /** A rule as the file holds it; None is an absent key. */
  datatype Raw = Raw(id: Option<string>, description: Option<string>, event: Option<string>, from: Option<string>,
                     to: Option<string>, priority: Priority, comment: Option<string>, disable: Option<bool>,
                     owner: Option<string>)

  /** The file: its rule list, absent or not, and its other top-level keys. */
  datatype Doc = Doc(rules: Option<seq<Raw>>, others: map<string, string>)

  datatype Disk = Missing | Corrupt | Stored(doc: Doc)

  datatype Failure = ReservedOwner | CorruptFile

  const DESIGNER: string := "rule"

  // --------------------------------------------------------- reading and writing

  function Or<T>(x: Option<T>, default: T): T {
    if x.Some? then x.value else default
  }

  function Digits(n: nat): string {
    if n < 10 then ["0123456789"[n]] else Digits(n / 10) + ["0123456789"[n % 10]]
  }

  /** The index, zero-padded to four digits. */
  function DefaultId(idx: nat): string {
    var d := Digits(idx);
    "rule_" + (if |d| < 4 then "0000"[|d|..] else "") + d
  }

  /** The rule a file entry stands for; None when it has no readable priority or no target. */
  function ParseRule(raw: Raw, idx: nat): Option<Rule> {
    if raw.priority.Unreadable? || Or(raw.to, "") == "" then None
    else
      Some(Rule(Or(raw.id, DefaultId(idx)), Or(raw.event, "*"), Or(raw.to, ""), Or(raw.from, "*"),
                Or(raw.description, ""), Or(raw.comment, ""), if raw.priority.Number? then raw.priority.n else 100,
                Or(raw.disable, false), if Or(raw.owner, DESIGNER) == "" then DESIGNER else Or(raw.owner, DESIGNER)))
  }

  /** `rule_to_dict`. */
  function ToRaw(r: Rule): Raw {
    Raw(Some(r.id), Some(r.description), Some(r.event), Some(r.fromPattern), Some(r.to), Number(r.priority),
        if r.comment == "" then None else Some(r.comment),
        if r.disabled then Some(true) else None,
        if r.owner == "" || r.owner == DESIGNER then None else Some(r.owner))
  }

  function ByPriority(r: Rule): int { r.priority }

  predicate HasTarget(r: Rule) { r.to != "" }

  predicate Named(r: Rule) { r.owner != "" }

  function Owns(o: string): Rule -> bool { (r: Rule) => r.owner == o }

  function Foreign(o: string): Rule -> bool { (r: Rule) => r.owner != o }

  /** The readable rules of the file, in file order. */
  function Parsed(raws: seq<Raw>): seq<Rule> {
    if raws == [] then []
    else
      var r := ParseRule(raws[|raws| - 1], |raws| - 1);
      Parsed(raws[..|raws| - 1]) + if r.Some? then [r.value] else []
  }

  /** `_rules_from_dict`. */
  function Rules(raws: seq<Raw>): seq<Rule> {
    Sort(ByPriority, Parsed(raws))
  }

  function Raws(rs: seq<Rule>): seq<Raw> {
    if rs == [] then [] else Raws(rs[..|rs| - 1]) + [ToRaw(rs[|rs| - 1])]
  }

  /** What `_write` puts into the file. */
  function Written(rs: seq<Rule>): seq<Raw> {
    Raws(Sort(ByPriority, rs))
  }

  function Owned(rs: seq<Rule>, o: string): seq<Rule> {
    Filter(Owns(o), rs)
  }

  function WithOwner(rs: seq<Rule>, o: string): seq<Rule> {
    if rs == [] then [] else WithOwner(rs[..|rs| - 1], o) + [rs[|rs| - 1].(owner := o)]
  }

  // ------------------------------------------------------------------ the updates

  /** `replace_owner`, as a change of the rule list. */
  function Replaced(raws: seq<Raw>, o: string, rules: seq<Rule>): seq<Raw> {
    var wanted := WithOwner(rules, o);
    if Raws(Owned(Rules(raws), o)) == Raws(wanted) then raws
    else Written(Filter(Foreign(o), Rules(raws)) + wanted)
  }

  /** `save_designer_rules`, as a change of the rule list. */
  function Saved(raws: seq<Raw>, rules: seq<Rule>): seq<Raw> {
    Written(WithOwner(rules, DESIGNER) + Filter(Foreign(DESIGNER), Rules(raws)))
  }

  /** What a set of rules becomes once it is owned by `o` and has been through the
    * file: rules without a target are gone, the rest is in priority order. */
  function Installed(rules: seq<Rule>, o: string): seq<Rule> {
    Sort(ByPriority, Filter(HasTarget, WithOwner(rules, o)))
  }

  // -------------------------------------------------------------- basic properties

  lemma {:induction false} OneMoreRule(raws: seq<Raw>, x: Raw, rs: seq<Rule>, r: Rule, o: string)
    ensures Parsed(raws + [x]) ==
            Parsed(raws) + if ParseRule(x, |raws|).Some? then [ParseRule(x, |raws|).value] else []
    ensures Raws(rs + [r]) == Raws(rs) + [ToRaw(r)]
    ensures WithOwner(rs + [r], o) == WithOwner(rs, o) + [r.(owner := o)]
  {
    assert (raws + [x])[..|raws + [x]| - 1] == raws;
    assert (rs + [r])[..|rs + [r]| - 1] == rs;
  }

  lemma {:induction false} RuleRoundTrip(r: Rule, idx: nat)
    ensures ParseRule(ToRaw(r), idx) ==
            if r.to == "" then None else Some(if r.owner == "" then r.(owner := DESIGNER) else r)
  {
  }

  lemma {:induction false} AllAppend<T>(p: T -> bool, xs: seq<T>, ys: seq<T>)
    requires All(p, xs) && All(p, ys)
    ensures All(p, xs + ys)
  {
    if ys == [] {
      assert xs + ys == xs;
    } else {
      DropLastConcat(xs, ys);
      AllAppend(p, xs, ys[..|ys| - 1]);
    }
  }

  lemma {:induction false} AllFilter<T>(p: T -> bool, q: T -> bool, xs: seq<T>)
    requires All(p, xs)
    ensures All(p, Filter(q, xs))
  {
    if xs != [] {
      AllFilter(p, q, xs[..|xs| - 1]);
      OneMore(p, _ => 0, Filter(q, xs[..|xs| - 1]), xs[|xs| - 1], 0);
    }
  }

  lemma {:induction false} AllSort<T>(p: T -> bool, key: T -> int, xs: seq<T>)
    requires All(p, xs)
    ensures All(p, Sort(key, xs))
  {
    FilterAll(p, xs);
    FilterSort(p, key, xs);
    FilterHolds(p, Sort(key, xs));
  }

  lemma {:induction false} FilterSwap<T>(p: T -> bool, q: T -> bool, xs: seq<T>)
    ensures Filter(p, Filter(q, xs)) == Filter(q, Filter(p, xs))
  {
    if xs != [] {
      FilterSwap(p, q, xs[..|xs| - 1]);
      OneMore(p, _ => 0, Filter(q, xs[..|xs| - 1]), xs[|xs| - 1], 0);
      OneMore(q, _ => 0, Filter(p, xs[..|xs| - 1]), xs[|xs| - 1], 0);
    }
  }

  lemma {:induction false} ParsedRules(raws: seq<Raw>)
    ensures All(HasTarget, Parsed(raws)) && All(Named, Parsed(raws))
  {
    if raws != [] {
      ParsedRules(raws[..|raws| - 1]);
      var r := ParseRule(raws[|raws| - 1], |raws| - 1);
      var ps := Parsed(raws[..|raws| - 1]);
      if r.Some? {
        OneMore(HasTarget, ByPriority, ps, r.value, 0);
        OneMore(Named, ByPriority, ps, r.value, 0);
      } else {
        assert ps + [] == ps;
      }
    }
  }

  /** What a reader of the file gets: rules with a target and an owner, in priority order. */
  lemma {:induction false} RulesAreClean(raws: seq<Raw>)
    ensures Sorted(ByPriority, Rules(raws)) && All(HasTarget, Rules(raws)) && All(Named, Rules(raws))
  {
    hide Sort, Sorted, All, Parsed;
    ParsedRules(raws);
    SortSorted(ByPriority, Parsed(raws));
    AllSort(HasTarget, ByPriority, Parsed(raws));
    AllSort(Named, ByPriority, Parsed(raws));
  }

  // ------------------------------------------------------- through the file and back

  lemma {:induction false} ReadBack(rs: seq<Rule>)
    requires All(Named, rs)
    ensures Parsed(Raws(rs)) == Filter(HasTarget, rs)
  {
    if rs != [] {
      var init, r := rs[..|rs| - 1], rs[|rs| - 1];
      ReadBack(init);
      OneMoreRule(Raws(init), ToRaw(r), init, r, "");
      RuleRoundTrip(r, |Raws(init)|);
      assert Parsed(Raws(init)) + [] == Parsed(Raws(init));
    }
  }

  /** Writing named rules and reading them back loses those without a target and
    * puts the rest into priority order. */
  lemma {:induction false} WriteThenRead(rs: seq<Rule>)
    requires All(Named, rs)
    ensures Rules(Written(rs)) == Sort(ByPriority, Filter(HasTarget, rs))
  {
    hide Sort, Sorted, All, Parsed, Filter;
    var sorted := Sort(ByPriority, rs);
    AllSort(Named, ByPriority, rs);
    ReadBack(sorted);
    FilterSort(HasTarget, ByPriority, rs);
    SortSorted(ByPriority, Filter(HasTarget, rs));
    SortOfSorted(ByPriority, Sort(ByPriority, Filter(HasTarget, rs)));
  }

  lemma {:induction false} OwnedAfterWrite(rs: seq<Rule>, o: string)
    requires All(Named, rs)
    ensures Owned(Rules(Written(rs)), o) == Sort(ByPriority, Filter(HasTarget, Owned(rs, o)))
  {
    hide Sort, Sorted, All, Parsed, Filter, Rules, Written;
    WriteThenRead(rs);
    FilterSort(Owns(o), ByPriority, Filter(HasTarget, rs));
    FilterSwap(Owns(o), HasTarget, rs);
  }

  /** Rules that were read from a file survive another trip unchanged. */
  lemma {:induction false} ReadIsStable(raws: seq<Raw>, p: Rule -> bool)
    ensures Sort(ByPriority, Filter(HasTarget, Filter(p, Rules(raws)))) == Filter(p, Rules(raws))
  {
    hide Sort, Sorted, All, Parsed, Filter, Rules, Written;
    var cur := Rules(raws);
    RulesAreClean(raws);
    AllFilter(HasTarget, p, cur);
    FilterAll(HasTarget, Filter(p, cur));
    FilterSort(p, ByPriority, cur);
    SortOfSorted(ByPriority, cur);
  }

  lemma {:induction false} OwnerSet(rs: seq<Rule>, o: string, p: string)
    ensures Filter(Owns(p), WithOwner(rs, o)) == if p == o then WithOwner(rs, o) else []
    ensures Filter(Foreign(p), WithOwner(rs, o)) == if p == o then [] else WithOwner(rs, o)
    ensures All(Owns(o), WithOwner(rs, o)) && (o != "" ==> All(Named, WithOwner(rs, o)))
  {
    if rs != [] {
      var init, r := rs[..|rs| - 1], rs[|rs| - 1].(owner := o);
      OwnerSet(init, o, p);
      var ws := WithOwner(init, o);
      OneMore(Owns(p), ByPriority, ws, r, 0);
      OneMore(Foreign(p), ByPriority, ws, r, 0);
      OneMore(Owns(o), ByPriority, ws, r, 0);
      OneMore(Named, ByPriority, ws, r, 0);
    }
  }

  lemma {:induction false} OwnersExclude(rs: seq<Rule>, o: string, p: string)
    ensures Filter(Owns(p), Filter(Foreign(o), rs)) == if p == o then [] else Filter(Owns(p), rs)
    ensures Filter(Foreign(o), Filter(Foreign(o), rs)) == Filter(Foreign(o), rs)
  {
    if rs != [] {
      var init, r := rs[..|rs| - 1], rs[|rs| - 1];
      OwnersExclude(init, o, p);
      OneMore(Owns(p), ByPriority, Filter(Foreign(o), init), r, 0);
      OneMore(Foreign(o), ByPriority, Filter(Foreign(o), init), r, 0);
    }
  }

  lemma {:induction false} RawsInjective(xs: seq<Rule>, ys: seq<Rule>, o: string)
    requires All(Owns(o), xs) && All(Owns(o), ys) && Raws(xs) == Raws(ys)
    ensures xs == ys
  {
    RawsLength(xs);
    RawsLength(ys);
    if xs != [] {
      var x, y := xs[..|xs| - 1], ys[..|ys| - 1];
      DropLastConcat(Raws(x), [ToRaw(xs[|xs| - 1])]);
      DropLastConcat(Raws(y), [ToRaw(ys[|ys| - 1])]);
      assert Raws(x) + [] == Raws(x) && Raws(y) + [] == Raws(y);
      RawsInjective(x, y, o);
    }
  }

  lemma {:induction false} RawsLength(xs: seq<Rule>)
    ensures |Raws(xs)| == |xs|
  {
    if xs != [] {
      RawsLength(xs[..|xs| - 1]);
    }
  }

  // ----------------------------------------------------------------- one update

  /** Rewriting keeps every other owner's rules and installs the new set. */
  lemma {:induction false} WriteInstalls(raws: seq<Raw>, o: string, rules: seq<Rule>, p: string, before: bool)
    requires o != ""
    ensures var others, wanted := Filter(Foreign(o), Rules(raws)), WithOwner(rules, o);
            Owned(Rules(Written(if before then wanted + others else others + wanted)), p) ==
            if p == o then Installed(rules, o) else Owned(Rules(raws), p)
  {
    hide Sort, Sorted, All, Parsed, Filter, Rules, Written;
    var others, wanted := Filter(Foreign(o), Rules(raws)), WithOwner(rules, o);
    RulesAreClean(raws);
    AllFilter(Named, Foreign(o), Rules(raws));
    OwnerSet(rules, o, p);
    AllAppend(Named, others, wanted);
    AllAppend(Named, wanted, others);
    OwnersExclude(Rules(raws), o, p);
    FilterConcat(Owns(p), others, wanted);
    FilterConcat(Owns(p), wanted, others);
    OwnedAfterWrite(others + wanted, p);
    OwnedAfterWrite(wanted + others, p);
    ReadIsStable(raws, Owns(p));
    Sides(Filter(Owns(p), others));
    Sides(Filter(Owns(p), wanted));
  }

  lemma {:induction false} Sides<T>(xs: seq<T>)
    ensures xs + [] == xs && [] + xs == xs
  {
  }

  /** `replace_owner`: the owner now has exactly the given set, everybody else
    * what they had; also when the file is left alone because nothing changed. */
  lemma {:induction false} ReplaceInstalls(raws: seq<Raw>, o: string, rules: seq<Rule>, p: string)
    requires o != ""
    ensures Owned(Rules(Replaced(raws, o, rules)), p) == if p == o then Installed(rules, o) else Owned(Rules(raws), p)
  {
    hide Sort, Sorted, All, Parsed, Filter, Rules, Written;
    var wanted := WithOwner(rules, o);
    if Raws(Owned(Rules(raws), o)) == Raws(wanted) {
      FilterHolds(Owns(o), Rules(raws));
      OwnerSet(rules, o, o);
      RawsInjective(Owned(Rules(raws), o), wanted, o);
      ReadIsStable(raws, Owns(o));
    } else {
      WriteInstalls(raws, o, rules, p, false);
    }
  }

  /** `save_designer_rules`, likewise. */
  lemma {:induction false} SaveInstalls(raws: seq<Raw>, rules: seq<Rule>, p: string)
    ensures Owned(Rules(Saved(raws, rules)), p) ==
            if p == DESIGNER then Installed(rules, DESIGNER) else Owned(Rules(raws), p)
  {
    hide Sort, Sorted, All, Parsed, Filter, Rules, Written;
    WriteInstalls(raws, DESIGNER, rules, p, true);
  }

  /** Installing the same set a second time leaves the file as it is. */
  lemma {:induction false} ReinstallChangesNothing(raws: seq<Raw>, o: string, rules: seq<Rule>)
    requires o != ""
    ensures Replaced(Replaced(raws, o, rules), o, rules) == Replaced(raws, o, rules)
  {
    hide Sort, Sorted, All, Parsed, Filter, Rules, Written;
    var wanted := WithOwner(rules, o);
    if Raws(Owned(Rules(raws), o)) != Raws(wanted) {
      var others := Filter(Foreign(o), Rules(raws));
      RulesAreClean(raws);
      AllFilter(Named, Foreign(o), Rules(raws));
      OwnerSet(rules, o, o);
      AllAppend(Named, others, wanted);
      WriteThenRead(others + wanted);
      FilterSort(Foreign(o), ByPriority, Filter(HasTarget, others + wanted));
      FilterSwap(Foreign(o), HasTarget, others + wanted);
      FilterConcat(Foreign(o), others, wanted);
      OwnersExclude(Rules(raws), o, o);
      ReadIsStable(raws, Foreign(o));
      Sides(others);
    }
  }

  /** Whether installing the same set again leaves the file alone: exactly when the
    * set comes in priority order and every rule of it has a target. Any other set
    * is written, and the live table reloaded, at every start, although nothing
    * changes. (Rules without an owner are never recognised again.) */
  lemma {:induction false} ReinstallSkipsIff(raws: seq<Raw>, o: string, rules: seq<Rule>)
    ensures var wanted := WithOwner(rules, o);
            Raws(Owned(Rules(Replaced(raws, o, rules)), o)) == Raws(wanted) <==>
            if o == "" then rules == []
            else Sorted(ByPriority, wanted) && Filter(HasTarget, wanted) == wanted
  {
    hide Sort, Sorted, All, Parsed, Filter, Rules, Written, Replaced;
    var wanted, after := WithOwner(rules, o), Replaced(raws, o, rules);
    WithOwnerLength(rules, o);
    RawsLength(wanted);
    if o == "" {
      RulesAreClean(after);
      OwnedByNobody(Rules(after));
      RawsLength(Owned(Rules(after), o));
    } else {
      ReplaceInstalls(raws, o, rules, o);
      FilterHolds(Owns(o), Rules(after));
      OwnerSet(rules, o, o);
      if Raws(Owned(Rules(after), o)) == Raws(wanted) {
        RawsInjective(Owned(Rules(after), o), wanted, o);
      }
      InstalledIsGivenIff(wanted);
    }
  }

  lemma {:induction false} InstalledIsGivenIff(rs: seq<Rule>)
    ensures Sort(ByPriority, Filter(HasTarget, rs)) == rs <==>
            Sorted(ByPriority, rs) && Filter(HasTarget, rs) == rs
  {
    hide Sort, Sorted, All, Filter;
    var kept := Filter(HasTarget, rs);
    FilterHolds(HasTarget, rs);
    AllSort(HasTarget, ByPriority, kept);
    SortSorted(ByPriority, kept);
    if Sort(ByPriority, kept) == rs {
      FilterAll(HasTarget, rs);
    }
    if Sorted(ByPriority, rs) {
      SortOfSorted(ByPriority, rs);
    }
  }

  // ------------------------------------------------------------------ whole runs

  datatype Op = Install(owner: string, rules: seq<Rule>) | Save(rules: seq<Rule>)

  function Apply(raws: seq<Raw>, op: Op): seq<Raw> {
    match op
    case Install(o, rules) => if o == DESIGNER then raws else Replaced(raws, o, rules)
    case Save(rules) => Saved(raws, rules)
  }

  function Run(raws: seq<Raw>, ops: seq<Op>): seq<Raw> {
    if ops == [] then raws else Apply(Run(raws, ops[..|ops| - 1]), ops[|ops| - 1])
  }

  /** The operation sets the rules of `p`. */
  predicate Sets(op: Op, p: string) {
    if op.Save? then p == DESIGNER else op.owner == p && p != DESIGNER
  }

  /** The last set `p` installed, or what it had at the start. */
  function LastSet(start: seq<Raw>, ops: seq<Op>, p: string): seq<Rule> {
    if ops == [] then Owned(Rules(start), p)
    else if Sets(ops[|ops| - 1], p) then Installed(ops[|ops| - 1].rules, p)
    else LastSet(start, ops[..|ops| - 1], p)
  }

  predicate OwnersNamed(ops: seq<Op>) {
    ops == [] || (OwnersNamed(ops[..|ops| - 1]) && (ops[|ops| - 1].Install? ==> ops[|ops| - 1].owner != ""))
  }

  /** Whatever the interleaving, each owner has exactly the last set it installed:
    * no orphans, and nobody disturbs anybody. */
  lemma {:induction false} OwnersAreIsolated(start: seq<Raw>, ops: seq<Op>, p: string)
    requires OwnersNamed(ops)
    ensures Owned(Rules(Run(start, ops)), p) == LastSet(start, ops, p)
  {
    hide Sort, Filter, Rules, Replaced, Saved, Owned, Installed;
    if ops != [] {
      var init, op := ops[..|ops| - 1], ops[|ops| - 1];
      OwnersAreIsolated(start, init, p);
      var raws := Run(start, init);
      match op
      case Install(o, rules) => if o != DESIGNER { ReplaceInstalls(raws, o, rules, p); }
      case Save(rules) => SaveInstalls(raws, rules, p);
    }
  }

  function RawPriority(raw: Raw): int {
    if raw.priority.Number? then raw.priority.n else 100
  }

  lemma {:induction false} RawsKeepOrder(rs: seq<Rule>, k: int)
    ensures AtMost(ByPriority, rs, k) ==> AtMost(RawPriority, Raws(rs), k)
    ensures Sorted(ByPriority, rs) ==> Sorted(RawPriority, Raws(rs))
  {
    if rs != [] {
      var init, r := rs[..|rs| - 1], rs[|rs| - 1];
      RawsKeepOrder(init, k);
      RawsKeepOrder(init, r.priority);
      OneMore(_ => true, RawPriority, Raws(init), ToRaw(r), k);
    }
  }

  /** The entries of the file stay in priority order. */
  lemma {:induction false} FileStaysSorted(start: seq<Raw>, ops: seq<Op>)
    requires Sorted(RawPriority, start)
    ensures Sorted(RawPriority, Run(start, ops))
  {
    hide Sort, Filter, Rules, Raws, Sorted;
    if ops != [] {
      var init, op := ops[..|ops| - 1], ops[|ops| - 1];
      FileStaysSorted(start, init);
      var raws := Run(start, init);
      var rs := if op.Save? then WithOwner(op.rules, DESIGNER) + Filter(Foreign(DESIGNER), Rules(raws))
                else Filter(Foreign(op.owner), Rules(raws)) + WithOwner(op.rules, op.owner);
      SortSorted(ByPriority, rs);
      RawsKeepOrder(Sort(ByPriority, rs), 0);
    }
  }

  // --------------------------------------------------------------- the empty owner

  predicate SameRaw(xs: seq<Rule>, ys: seq<Rule>) {
    |xs| == |ys| &&
    (xs == [] || (SameRaw(xs[..|xs| - 1], ys[..|ys| - 1]) && ToRaw(xs[|xs| - 1]) == ToRaw(ys[|ys| - 1])))
  }

  lemma {:induction false} SameRawSnoc(xs: seq<Rule>, ys: seq<Rule>, x: Rule, y: Rule)
    requires SameRaw(xs, ys) && ToRaw(x) == ToRaw(y)
    ensures SameRaw(xs + [x], ys + [y])
  {
    assert (xs + [x])[..|xs + [x]| - 1] == xs && (ys + [y])[..|ys + [y]| - 1] == ys;
  }

  lemma {:induction false} SameRawInsert(xs: seq<Rule>, ys: seq<Rule>, x: Rule, y: Rule)
    requires SameRaw(xs, ys) && ToRaw(x) == ToRaw(y)
    ensures SameRaw(Insert(ByPriority, xs, x), Insert(ByPriority, ys, y))
  {
    SameRawSnoc(xs, ys, x, y);
    if xs != [] && xs[|xs| - 1].priority > x.priority {
      SameRawInsert(xs[..|xs| - 1], ys[..|ys| - 1], x, y);
      SameRawSnoc(Insert(ByPriority, xs[..|xs| - 1], x), Insert(ByPriority, ys[..|ys| - 1], y),
                  xs[|xs| - 1], ys[|ys| - 1]);
    } else if xs == [] {
      Sides([x]);
      Sides([y]);
    }
  }

  lemma {:induction false} SameRawWritten(xs: seq<Rule>, ys: seq<Rule>)
    requires SameRaw(xs, ys)
    ensures SameRaw(Sort(ByPriority, xs), Sort(ByPriority, ys)) && Raws(xs) == Raws(ys)
  {
    if xs != [] {
      SameRawWritten(xs[..|xs| - 1], ys[..|ys| - 1]);
      SameRawInsert(Sort(ByPriority, xs[..|xs| - 1]), Sort(ByPriority, ys[..|ys| - 1]), xs[|xs| - 1], ys[|ys| - 1]);
    }
  }

  lemma {:induction false} SameRawOwners(cur: seq<Rule>, rules: seq<Rule>)
    ensures SameRaw(cur + WithOwner(rules, ""), cur + WithOwner(rules, DESIGNER))
    ensures |Filter(HasTarget, WithOwner(rules, DESIGNER))| == |Filter(HasTarget, rules)|
  {
    if rules == [] {
      Sides(cur);
      SameRawSelf(cur);
    } else {
      var init, r := rules[..|rules| - 1], rules[|rules| - 1];
      SameRawOwners(cur, init);
      SameRawSnoc(cur + WithOwner(init, ""), cur + WithOwner(init, DESIGNER), r.(owner := ""), r.(owner := DESIGNER));
      assert cur + WithOwner(rules, "") == cur + WithOwner(init, "") + [r.(owner := "")];
      assert cur + WithOwner(rules, DESIGNER) == cur + WithOwner(init, DESIGNER) + [r.(owner := DESIGNER)];
      OneMore(HasTarget, ByPriority, WithOwner(init, DESIGNER), r.(owner := DESIGNER), 0);
    }
  }

  lemma {:induction false} SameRawSelf(xs: seq<Rule>)
    ensures SameRaw(xs, xs)
  {
    if xs != [] {
      SameRawSelf(xs[..|xs| - 1]);
    }
  }

  /** An empty owner name is written like the designer's: the rules end up among
    * the hand-authored ones exactly when any of them has a target. */
  lemma {:induction false} EmptyOwnerLeaks(raws: seq<Raw>, rules: seq<Rule>)
    ensures Owned(Rules(Replaced(raws, "", rules)), DESIGNER) == Owned(Rules(raws), DESIGNER) <==>
            Filter(HasTarget, rules) == []
  {
    hide Sort, All, Parsed, Filter, Rules, SameRaw;
    var cur := Rules(raws);
    RulesAreClean(raws);
    OwnedByNobody(cur);
    Sides(cur);
    RawsLength(WithOwner(rules, ""));
    WithOwnerLength(rules, "");
    WithOwnerLength(rules, DESIGNER);
    var theirs := WithOwner(rules, DESIGNER);
    SameRawOwners(cur, rules);
    SameRawWritten(cur + WithOwner(rules, ""), cur + theirs);
    SameRawWritten(Sort(ByPriority, cur + WithOwner(rules, "")), Sort(ByPriority, cur + theirs));
    OwnerSet(rules, DESIGNER, DESIGNER);
    AllAppend(Named, cur, theirs);
    OwnedAfterWrite(cur + theirs, DESIGNER);
    FilterConcat(Owns(DESIGNER), cur, theirs);
    FilterConcat(HasTarget, Owned(cur, DESIGNER), theirs);
    ReadIsStable(raws, Owns(DESIGNER));
    SortLength(ByPriority, Filter(HasTarget, Owned(cur, DESIGNER)) + Filter(HasTarget, theirs));
    SortLength(ByPriority, Filter(HasTarget, Owned(cur, DESIGNER)));
    Sides(Filter(HasTarget, Owned(cur, DESIGNER)));
    if rules == [] {
      FilterEmpty(HasTarget, rules);
    }
  }

  lemma {:induction false} FilterEmpty(p: Rule -> bool, rules: seq<Rule>)
    requires rules == []
    ensures Filter(p, rules) == []
  {
  }

  lemma {:induction false} WithOwnerLength(rules: seq<Rule>, o: string)
    ensures |WithOwner(rules, o)| == |rules|
  {
    if rules != [] {
      WithOwnerLength(rules[..|rules| - 1], o);
    }
  }

  lemma {:induction false} OwnedByNobody(rs: seq<Rule>)
    requires All(Named, rs)
    ensures Filter(Owns(""), rs) == [] && Filter(Foreign(""), rs) == rs
  {
    if rs != [] {
      OwnedByNobody(rs[..|rs| - 1]);
    }
  }

  // -------------------------------------------------------- what the file means

  /** The number a text of digits stands for. */
  function NumberOf(s: string): int {
    if s == "" then 0 else 10 * NumberOf(s[..|s| - 1]) + (s[|s| - 1] as int - '0' as int)
  }

  /** "rule_" and the index in decimal, with zeros in front up to four digits. */
  ghost predicate IsDefaultId(id: string, idx: nat) {
    && |id| >= 9 && id[..5] == "rule_"
    && (forall i :: 5 <= i < |id| ==> '0' <= id[i] <= '9') && NumberOf(id[5..]) == idx
    && (|id| > 9 ==> id[5] != '0')
  }

  /** The rule an entry stands for: what the entry says, and the usual value for what it
    * does not; nobody's rules are the designer's. */
  ghost predicate StandsFor(raw: Raw, idx: nat, r: Rule) {
    && (if raw.id.Some? then r.id == raw.id.value else IsDefaultId(r.id, idx))
    && r.event == (if raw.event.Some? then raw.event.value else "*")
    && raw.to == Some(r.to) && r.to != ""
    && r.fromPattern == (if raw.from.Some? then raw.from.value else "*")
    && r.description == (if raw.description.Some? then raw.description.value else "")
    && r.comment == (if raw.comment.Some? then raw.comment.value else "")
    && (raw.priority == Number(r.priority) || (raw.priority.Default? && r.priority == 100))
    && r.disabled == (raw.disable == Some(true))
    && r.owner == if raw.owner.Some? && raw.owner.value != "" then raw.owner.value else "rule"
  }

  /** The entry has a priority that can be read, or none, and a target. */
  predicate Readable(raw: Raw) {
    !raw.priority.Unreadable? && raw.to.Some? && raw.to.value != ""
  }

  /** The rules come from the entries at `places`, the readable ones; smaller priorities
    * first, and in file order where the priority is the same. */
  ghost predicate ReadAt(raws: seq<Raw>, rules: seq<Rule>, places: seq<nat>) {
    && |places| == |rules|
    && (forall i :: 0 <= i < |places| ==> places[i] < |raws| && StandsFor(raws[places[i]], places[i], rules[i]))
    && (forall n: nat :: n in places <==> n < |raws| && Readable(raws[n]))
    && (forall i, j :: 0 <= i < j < |places| ==>
          || rules[i].priority < rules[j].priority
          || (rules[i].priority == rules[j].priority && places[i] < places[j]))
  }

  ghost predicate ReadFrom(raws: seq<Raw>, rules: seq<Rule>) {
    exists places: seq<nat> :: ReadAt(raws, rules, places)
  }

  /** The file entry of a rule: an empty comment, "not disabled" and the designer as owner
    * are left out. */
  ghost predicate EntryOf(raw: Raw, r: Rule) {
    && raw.id == Some(r.id) && raw.description == Some(r.description) && raw.event == Some(r.event)
    && raw.from == Some(r.fromPattern) && raw.to == Some(r.to) && raw.priority == Number(r.priority)
    && (if r.comment == "" then raw.comment == None else raw.comment == Some(r.comment))
    && (if r.disabled then raw.disable == Some(true) else raw.disable == None)
    && (if r.owner == "" || r.owner == "rule" then raw.owner == None else raw.owner == Some(r.owner))
  }

  /** The file holds one entry for each rule, smaller priorities first, and in the order
    * given where the priority is the same. */
  ghost predicate HeldAt(raws: seq<Raw>, rules: seq<Rule>, places: seq<nat>) {
    && |places| == |raws| == |rules|
    && (forall i :: 0 <= i < |places| ==> places[i] < |rules| && EntryOf(raws[i], rules[places[i]]))
    && (forall n: nat :: n < |rules| ==> n in places)
    && (forall i, j :: 0 <= i < j < |places| ==>
          || rules[places[i]].priority < rules[places[j]].priority
          || (rules[places[i]].priority == rules[places[j]].priority && places[i] < places[j]))
  }

  ghost predicate HoldsRules(raws: seq<Raw>, rules: seq<Rule>) {
    exists places: seq<nat> :: HeldAt(raws, rules, places)
  }

  /** The same rules, owned by `o`. */
  ghost predicate HandedTo(rules: seq<Rule>, o: string, wanted: seq<Rule>) {
    |wanted| == |rules| && forall i :: 0 <= i < |rules| ==> wanted[i] == rules[i].(owner := o)
  }

  ghost predicate SameEntry(x: Rule, y: Rule) {
    exists raw :: EntryOf(raw, x) && EntryOf(raw, y)
  }

  /** The rules have the same file entries, one by one. */
  ghost predicate SameEntries(xs: seq<Rule>, ys: seq<Rule>) {
    |xs| == |ys| && forall i :: 0 <= i < |xs| ==> SameEntry(xs[i], ys[i])
  }

  /** `replace_owner`: nothing happens when the owner has these rules already; otherwise
    * the file holds everybody else's rules and then the new ones. */
  ghost predicate Replaces(before: seq<Raw>, o: string, rules: seq<Rule>, after: seq<Raw>) {
    exists current, own, kept, wanted ::
      && ReadFrom(before, current) && HandedTo(rules, o, wanted)
      && Keeps((r: Rule) => r.owner == o, current, own) && Keeps((r: Rule) => r.owner != o, current, kept)
      && if SameEntries(own, wanted) then after == before else HoldsRules(after, kept + wanted)
  }

  /** `save_designer_rules`: the new rules, and then everybody else's. */
  ghost predicate Saves(before: seq<Raw>, rules: seq<Rule>, after: seq<Raw>) {
    exists current, kept, wanted ::
      && ReadFrom(before, current) && HandedTo(rules, "rule", wanted)
      && Keeps((r: Rule) => r.owner != "rule", current, kept) && HoldsRules(after, wanted + kept)
  }

  lemma {:induction false} DigitsMean(n: nat)
    ensures Digits(n) != "" && NumberOf(Digits(n)) == n
    ensures forall i :: 0 <= i < |Digits(n)| ==> '0' <= Digits(n)[i] <= '9'
    ensures n > 0 ==> Digits(n)[0] != '0'
    ensures |Digits(n)| > 1 ==> n >= 10
  {
    if n < 10 {
      OneDigit(n);
    } else {
      DigitsMean(n / 10);
      OneDigit(n % 10);
      var d, c := Digits(n / 10), "0123456789"[n % 10];
      NumberSnoc(d, c);
    }
  }

  lemma {:induction false} OneDigit(n: nat)
    requires n < 10
    ensures var c := "0123456789"[n];
            '0' <= c <= '9' && NumberOf([c]) == n && (n > 0 ==> c != '0') && c as int - '0' as int == n
  {
    var c := "0123456789"[n];
    NumberSnoc("", c);
    assert "" + [c] == [c];
  }

  lemma {:induction false} NumberSnoc(s: string, c: char)
    ensures NumberOf(s + [c]) == 10 * NumberOf(s) + (c as int - '0' as int)
  {
    assert (s + [c])[..|s|] == s;
  }

  lemma {:induction false} ZerosInFront(k: nat, d: string)
    requires k <= 4
    ensures NumberOf("0000"[4 - k..] + d) == NumberOf(d)
  {
    if d == "" {
      assert "0000"[4 - k..] + d == "0000"[4 - k..];
      NoNumber(k);
    } else {
      var z := "0000"[4 - k..];
      ZerosInFront(k, d[..|d| - 1]);
      NumberSnoc(z + d[..|d| - 1], d[|d| - 1]);
      assert z + d == z + d[..|d| - 1] + [d[|d| - 1]];
      NumberSnoc(d[..|d| - 1], d[|d| - 1]);
      assert d == d[..|d| - 1] + [d[|d| - 1]];
    }
  }

  lemma {:induction false} NoNumber(k: nat)
    requires k <= 4
    ensures NumberOf("0000"[4 - k..]) == 0
  {
    hide NumberOf;
    Nothing();
    NumberSnoc("", '0');
    NumberSnoc("0", '0');
    NumberSnoc("00", '0');
    NumberSnoc("000", '0');
    assert "" + ['0'] == "0" && "0" + ['0'] == "00" && "00" + ['0'] == "000" && "000" + ['0'] == "0000";
    assert "0000"[4..] == "" && "0000"[3..] == "0" && "0000"[2..] == "00" && "0000"[1..] == "000" && "0000"[0..] == "0000";
  }

  lemma {:induction false} Nothing()
    ensures NumberOf("") == 0
  {
  }

  lemma {:induction false} PaddedDigits(d: string)
    requires forall i :: 0 <= i < |d| ==> '0' <= d[i] <= '9'
    ensures var t := (if |d| < 4 then "0000"[|d|..] else "") + d;
            && |t| >= 4 && NumberOf(t) == NumberOf(d) && (|t| > 4 ==> t == d)
            && forall i :: 0 <= i < |t| ==> '0' <= t[i] <= '9'
  {
    hide NumberOf;
    if |d| < 4 {
      ZerosInFront(4 - |d|, d);
    } else {
      assert "" + d == d;
    }
  }

  lemma {:induction false} DefaultIdIs(idx: nat)
    ensures IsDefaultId(DefaultId(idx), idx)
  {
    hide Digits, NumberOf;
    var d := Digits(idx);
    DigitsMean(idx);
    PaddedDigits(d);
    var t := (if |d| < 4 then "0000"[|d|..] else "") + d;
    var id := DefaultId(idx);
    assert id == "rule_" + t;
    assert id[..5] == "rule_" && id[5..] == t;
  }

  lemma {:induction false} ParseStandsFor(raw: Raw, idx: nat)
    ensures ParseRule(raw, idx).Some? <==> Readable(raw)
    ensures ParseRule(raw, idx).Some? ==> StandsFor(raw, idx, ParseRule(raw, idx).value)
  {
    hide DefaultId, IsDefaultId;
    DefaultIdIs(idx);
  }

  /** Which entries the rules in file order come from. */
  ghost predicate ParsedAt(raws: seq<Raw>, rules: seq<Rule>, from: seq<nat>) {
    && |from| == |rules|
    && (forall i :: 0 <= i < |from| ==> from[i] < |raws| && StandsFor(raws[from[i]], from[i], rules[i]))
    && (forall i, j :: 0 <= i < j < |from| ==> from[i] < from[j])
    && (forall n: nat :: n < |raws| && Readable(raws[n]) ==> n in from)
    && forall n :: n in from ==> n < |raws| && Readable(raws[n])
  }

  lemma {:induction false} ParsedNext(raws: seq<Raw>, rules: seq<Rule>, from: seq<nat>, x: Raw, r: Rule)
    requires ParsedAt(raws, rules, from) && Readable(x) && StandsFor(x, |raws|, r)
    ensures ParsedAt(raws + [x], rules + [r], from + [|raws|])
  {
    hide StandsFor, Readable;
    forall n: nat | n < |raws| ensures (raws + [x])[n] == raws[n] {
    }
  }

  lemma {:induction false} ParsedSkip(raws: seq<Raw>, rules: seq<Rule>, from: seq<nat>, x: Raw)
    requires ParsedAt(raws, rules, from) && !Readable(x)
    ensures ParsedAt(raws + [x], rules, from)
  {
    hide StandsFor, Readable;
    forall n: nat | n < |raws| ensures (raws + [x])[n] == raws[n] {
    }
  }

  lemma {:induction false} NothingParsed()
    ensures ParsedAt([], Parsed([]), [])
  {
  }

  lemma {:induction false} ParsedFrom(raws: seq<Raw>) returns (from: seq<nat>)
    ensures ParsedAt(raws, Parsed(raws), from)
  {
    hide *;
    if raws == [] {
      from := [];
      NothingParsed();
    } else {
      var init, x := raws[..|raws| - 1], raws[|raws| - 1];
      from := ParsedFrom(init);
      ParsedOneMore(init, x);
      ParseStandsFor(x, |init|);
      assert init + [x] == raws;
      assert Parsed(init) + [] == Parsed(init);
      if Readable(x) {
        ParsedNext(init, Parsed(init), from, x, ParseRule(x, |init|).value);
        from := from + [|init|];
      } else {
        ParsedSkip(init, Parsed(init), from, x);
      }
    }
  }

  lemma {:induction false} ParsedOneMore(raws: seq<Raw>, x: Raw)
    ensures Parsed(raws + [x]) ==
            Parsed(raws) + if ParseRule(x, |raws|).Some? then [ParseRule(x, |raws|).value] else []
  {
    assert (raws + [x])[..|raws + [x]| - 1] == raws;
  }

  lemma {:induction false} SortedReadAt(raws: seq<Raw>, parsed: seq<Rule>, from: seq<nat>, rules: seq<Rule>, at: seq<nat>)
    returns (places: seq<nat>)
    requires ParsedAt(raws, parsed, from) && Places(ByPriority, parsed, rules, at)
    ensures ReadAt(raws, rules, places)
  {
    hide StandsFor, Readable;
    places := Onward(from, at);
    forall i | 0 <= i < |places| ensures places[i] < |raws| && StandsFor(raws[places[i]], places[i], rules[i]) {
      assert places[i] == from[at[i]] && rules[i] == parsed[at[i]];
    }
    forall i, j | 0 <= i < j < |places|
      ensures || rules[i].priority < rules[j].priority
              || (rules[i].priority == rules[j].priority && places[i] < places[j])
    {
      assert at[i] < at[j] ==> from[at[i]] < from[at[j]];
    }
  }

  lemma {:induction false} RulesReadFrom(raws: seq<Raw>)
    ensures ReadFrom(raws, Rules(raws))
  {
    hide ReadAt, ParsedAt, Places, Parsed, Sort;
    var from := ParsedFrom(raws);
    var at := SortPlaces(ByPriority, Parsed(raws));
    var places := SortedReadAt(raws, Parsed(raws), from, Rules(raws), at);
  }

  lemma {:induction false} ToRawIsEntry(r: Rule, raw: Raw)
    ensures EntryOf(raw, r) <==> raw == ToRaw(r)
  {
  }

  lemma {:induction false} RawsAt(rs: seq<Rule>)
    ensures |Raws(rs)| == |rs| && forall i :: 0 <= i < |rs| ==> Raws(rs)[i] == ToRaw(rs[i])
  {
    hide ToRaw;
    if rs != [] {
      var init := rs[..|rs| - 1];
      RawsAt(init);
      assert forall i :: 0 <= i < |init| ==> init[i] == rs[i];
    }
  }

  lemma {:induction false} WrittenHolds(rs: seq<Rule>)
    ensures HoldsRules(Written(rs), rs)
  {
    hide EntryOf, ToRaw, Raws, Sort;
    var sorted := Sort(ByPriority, rs);
    var places := SortPlaces(ByPriority, rs);
    RawsAt(sorted);
    forall i | 0 <= i < |places| ensures EntryOf(Written(rs)[i], rs[places[i]]) {
      ToRawIsEntry(rs[places[i]], Written(rs)[i]);
    }
    forall i, j | 0 <= i < j < |places|
      ensures || rs[places[i]].priority < rs[places[j]].priority
              || (rs[places[i]].priority == rs[places[j]].priority && places[i] < places[j])
    {
      assert ByPriority(sorted[i]) < ByPriority(sorted[j]) || places[i] < places[j];
    }
    assert HeldAt(Written(rs), rs, places);
  }

  lemma {:induction false} WithOwnerHands(rules: seq<Rule>, o: string)
    ensures HandedTo(rules, o, WithOwner(rules, o))
  {
    if rules != [] {
      var init := rules[..|rules| - 1];
      WithOwnerHands(init, o);
      assert forall i :: 0 <= i < |init| ==> init[i] == rules[i];
    }
  }

  lemma {:induction false} SameEntryIff(x: Rule, y: Rule)
    ensures SameEntry(x, y) <==> ToRaw(x) == ToRaw(y)
  {
    hide EntryOf, ToRaw;
    forall raw ensures (EntryOf(raw, x) <==> raw == ToRaw(x)) && (EntryOf(raw, y) <==> raw == ToRaw(y)) {
      ToRawIsEntry(x, raw);
      ToRawIsEntry(y, raw);
    }
    assert EntryOf(ToRaw(x), x);
  }

  lemma {:induction false} SameRawsIff(xs: seq<Rule>, ys: seq<Rule>)
    ensures Raws(xs) == Raws(ys) <==> SameEntries(xs, ys)
  {
    hide SameEntry, ToRaw, Raws;
    RawsAt(xs);
    RawsAt(ys);
    if |xs| == |ys| {
      forall i | 0 <= i < |xs| ensures SameEntry(xs[i], ys[i]) <==> Raws(xs)[i] == Raws(ys)[i] {
        SameEntryIff(xs[i], ys[i]);
      }
    }
  }

  lemma {:induction false} OwnersKept(rs: seq<Rule>, o: string)
    ensures Keeps((r: Rule) => r.owner == o, rs, Filter(Owns(o), rs))
    ensures Keeps((r: Rule) => r.owner != o, rs, Filter(Foreign(o), rs))
  {
    FilterMeans(Owns(o), rs);
    FilterMeans(Foreign(o), rs);
    KeepsSame(Owns(o), (r: Rule) => r.owner == o, rs, Filter(Owns(o), rs));
    KeepsSame(Foreign(o), (r: Rule) => r.owner != o, rs, Filter(Foreign(o), rs));
  }

  lemma {:induction false} ReplacedReplaces(raws: seq<Raw>, o: string, rules: seq<Rule>)
    ensures Replaces(raws, o, rules, Replaced(raws, o, rules))
  {
    hide ReadFrom, HandedTo, SameEntries, HoldsRules, Keeps, Filter, Rules, Raws, WithOwner, Written;
    var current, wanted := Rules(raws), WithOwner(rules, o);
    RulesReadFrom(raws);
    WithOwnerHands(rules, o);
    OwnersKept(current, o);
    SameRawsIff(Owned(current, o), wanted);
    WrittenHolds(Filter(Foreign(o), current) + wanted);
  }

  lemma {:induction false} SavedSaves(raws: seq<Raw>, rules: seq<Rule>)
    ensures Saves(raws, rules, Saved(raws, rules))
  {
    hide ReadFrom, HandedTo, HoldsRules, Keeps, Filter, Rules, WithOwner, Written;
    var current, wanted := Rules(raws), WithOwner(rules, DESIGNER);
    RulesReadFrom(raws);
    WithOwnerHands(rules, DESIGNER);
    OwnersKept(current, DESIGNER);
    WrittenHolds(wanted + Filter(Foreign(DESIGNER), current));
  }

  // -------------------------------------------------------------------- the store

  /** `_rules_from_dict`: entries that cannot be read or have no target are skipped,
    * the rest is sorted by priority. */
  method RulesFromDict(raws: seq<Raw>) returns (rules: seq<Rule>)
    ensures rules == Rules(raws)
    ensures ReadFrom(raws, rules)
  {
    hide ReadFrom;
    RulesReadFrom(raws);
    rules := [];
    var i := 0;
    while i < |raws|
      invariant i <= |raws|
      invariant rules == Parsed(raws[..i])
    {
      TakeNext(raws, i);
      OneMoreRule(raws[..i], raws[i], [], Rule("", "", "", "", "", "", 0, false, ""), "");
      var r := ParseRule(raws[i], i);
      i := i + 1;
      if r.None? {
        continue;
      }
      rules := rules + [r.value];
    }
    TakeAll(raws);
    rules := Sort(ByPriority, rules);
  }

  function Content(d: Disk): Doc {
    match d
    case Stored(doc) => doc
    case _ => Doc(Some([]), map[])
  }

  function RuleList(d: Disk): seq<Raw> {
    Or(Content(d).rules, [])
  }

  class RoutingRuleStore {
    var disk: Disk
    var reloads: nat

    constructor (disk: Disk)
      ensures this.disk == disk && reloads == 0
    {
      this.disk, reloads := disk, 0;
    }

    /** `_write`: the other top-level keys stay. */
    method Write(rules: seq<Rule>)
      requires !disk.Corrupt?
      modifies this`disk
      ensures disk == Stored(Doc(Some(Written(rules)), Content(old(disk)).others))
      ensures HoldsRules(RuleList(disk), rules)
    {
      hide HoldsRules;
      WrittenHolds(rules);
      disk := Stored(Doc(Some(Raws(Sort(ByPriority, rules))), Content(disk).others));
    }

    /** The rules `owner` has now; a corrupt file is an error. */
    method RulesByOwner(owner: string) returns (r: Result<seq<Rule>, Failure>)
      ensures r == if disk.Corrupt? then Err(CorruptFile) else Ok(Owned(Rules(RuleList(disk)), owner))
      ensures r.Ok? ==> exists current ::
                ReadFrom(RuleList(disk), current) && Keeps((x: Rule) => x.owner == owner, current, r.value)
    {
      hide ReadFrom, Keeps;
      if disk.Corrupt? {
        return Err(CorruptFile);
      }
      var rules := RulesFromDict(RuleList(disk));
      OwnersKept(rules, owner);
      return Ok(Filter(Owns(owner), rules));
    }

    /** `replace_owner`: the file is written, and the live table reloaded, unless the
      * owner's rules as they are read are the given list. */
    method ReplaceOwner(owner: string, rules: seq<Rule>) returns (r: Result<nat, Failure>)
      modifies this
      ensures r == if owner == DESIGNER then Err(ReservedOwner)
                   else if old(disk).Corrupt? then Err(CorruptFile) else Ok(|rules|)
      ensures r.Err? ==> disk == old(disk) && reloads == old(reloads)
      ensures r.Ok? ==> Replaces(RuleList(old(disk)), owner, rules, RuleList(disk))
      ensures r.Ok? ==>
                && RuleList(disk) == Apply(RuleList(old(disk)), Install(owner, rules))
                && Content(disk).others == Content(old(disk)).others
                && if Raws(Owned(Rules(RuleList(old(disk))), owner)) == Raws(WithOwner(rules, owner))
                   then disk == old(disk) && reloads == old(reloads)
                   else disk.Stored? && reloads == old(reloads) + 1
    {
      hide Replaces, HoldsRules, ReadFrom;
      ReplacedReplaces(RuleList(disk), owner, rules);
      if owner == DESIGNER {
        return Err(ReservedOwner);
      }
      if disk.Corrupt? {
        return Err(CorruptFile);
      }
      var current := RulesFromDict(RuleList(disk));
      var wanted := WithOwner(rules, owner);
      if Raws(Filter(Owns(owner), current)) == Raws(wanted) {
        return Ok(|rules|);
      }
      Write(Filter(Foreign(owner), current) + wanted);
      reloads := reloads + 1;
      return Ok(|rules|);
    }

    method SaveDesignerRules(rules: seq<Rule>) returns (r: Result<(), Failure>)
      modifies this
      ensures r == if old(disk).Corrupt? then Err(CorruptFile) else Ok(())
      ensures r.Err? ==> disk == old(disk) && reloads == old(reloads)
      ensures r.Ok? ==> Saves(RuleList(old(disk)), rules, RuleList(disk))
      ensures r.Ok? ==>
                && RuleList(disk) == Apply(RuleList(old(disk)), Save(rules))
                && Content(disk).others == Content(old(disk)).others
                && disk.Stored? && reloads == old(reloads) + 1
    {
      hide Saves, HoldsRules, ReadFrom;
      SavedSaves(RuleList(disk), rules);
      if disk.Corrupt? {
        return Err(CorruptFile);
      }
      var current := RulesFromDict(RuleList(disk));
      Write(WithOwner(rules, DESIGNER) + Filter(Foreign(DESIGNER), current));
      reloads := reloads + 1;
      return Ok(());
    }
  }
}
