/** Draining the bus message by message: which rules a message meets, and whom it
  * reaches with them. */
module BusRuns {
  import opened Wrappers
  import opened EventBus

  /** The bus after the first `k` inbound messages have been dispatched. */
  ghost function Stepped(b: Bus, disks: nat -> Option<seq<Rule>>, i: nat, k: nat): Bus
    requires Inv(b) && k <= |b.inbound|
    decreases k
  {
    if k == 0 then b
    else
      DispatchKeepsInv(b, disks(i));
      DispatchLogs(b, disks(i));
      Stepped(Dispatched(b, disks(i)), disks, i + 1, k - 1)
  }

  /** The rules in force after these messages: those of the last reload that could read
    * the file. */
  function RulesAfter(rules: seq<Rule>, msgs: seq<Message>, disks: nat -> Option<seq<Rule>>, i: nat): seq<Rule>
    decreases |msgs|
  {
    if msgs == [] then rules
    else
      RulesAfter(if msgs[0].event == "routing_reload_requested" && disks(i).Some? then disks(i).value else rules,
                 msgs[1..], disks, i + 1)
  }

  lemma {:induction false} OneStep(b: Bus, disk: Option<seq<Rule>>)
    requires Inv(b) && b.inbound != []
    ensures (forall c :: c in b.pending ==> b.pending[c] in b.futures)
    ensures var a := Dispatched(b, disk); Inv(a) && DispatchedAs(b, a, disk)
  {
    hide Dispatched, DispatchedAs, QueueOk, FutureOk, FateOk, ChainOk, InOrderOnce;
    DispatchKeepsInv(b, disk);
    DispatchSays(b, disk);
  }

  lemma {:induction false} StepFields(b: Bus, a: Bus, disk: Option<seq<Rule>>)
    requires DispatchedAs(b, a, disk)
    ensures b.inbound != [] && a.inbound == b.inbound[1..] && |a.log| == |b.log| + 1 && a.accepted == b.accepted
    ensures b.log <= a.log && a.log[|b.log|].msg == b.inbound[0]
    ensures a.rules == if b.inbound[0].event == "routing_reload_requested" && disk.Some? then disk.value else b.rules
    ensures forall id :: id in a.log[|b.log|].recipients <==> Reaches(b, b.inbound[0], id)
  {
  }

  lemma {:induction false} SteppedInv(b: Bus, disks: nat -> Option<seq<Rule>>, i: nat, k: nat)
    requires Inv(b) && k <= |b.inbound|
    ensures var s := Stepped(b, disks, i, k);
            && Inv(s) && s.inbound == b.inbound[k..] && |s.log| == |b.log| + k
            && s.rules == RulesAfter(b.rules, b.inbound[..k], disks, i)
            && Drained(s, disks, i + k) == Drained(b, disks, i)
    decreases k
  {
    hide Inv, Dispatched, DispatchedAs;
    if k == 0 {
      assert b.inbound[..0] == [] && b.inbound[0..] == b.inbound;
    } else {
      OneStep(b, disks(i));
      var a := Dispatched(b, disks(i));
      StepFields(b, a, disks(i));
      SteppedInv(a, disks, i + 1, k - 1);
      assert b.inbound[1..][k - 1..] == b.inbound[k..];
      assert b.inbound[..k][1..] == b.inbound[1..][..k - 1] && b.inbound[..k][0] == b.inbound[0];
    }
  }

  lemma {:induction false} DrainedKeepsLog(b: Bus, disks: nat -> Option<seq<Rule>>, i: nat)
    requires Inv(b)
    ensures b.log <= Drained(b, disks, i).log
    decreases |b.inbound|
  {
    hide Inv, Dispatched, DispatchedAs;
    if b.inbound != [] {
      OneStep(b, disks(i));
      var a := Dispatched(b, disks(i));
      StepFields(b, a, disks(i));
      DrainedKeepsLog(a, disks, i + 1);
    }
  }

  /** When the bus is drained, the `k`-th message reaches exactly the members that are
    * addressed and have room when its turn comes, under the rules in force by then. */
  lemma {:induction false} DrainReaches(b: Bus, disks: nat -> Option<seq<Rule>>, i: nat, k: nat)
    requires Inv(b) && k < |b.inbound|
    ensures var s, log := Stepped(b, disks, i, k), Drained(b, disks, i).log;
            && s.rules == RulesAfter(b.rules, b.inbound[..k], disks, i)
            && |b.log| + k < |log| && log[|b.log| + k].msg == b.inbound[k]
            && forall id :: id in log[|b.log| + k].recipients <==> Reaches(s, b.inbound[k], id)
  {
    hide Inv, Dispatched, DispatchedAs, Reaches, Stepped, RulesAfter;
    SteppedInv(b, disks, i, k);
    var s := Stepped(b, disks, i, k);
    assert s.inbound[0] == b.inbound[k];
    OneStep(s, disks(i + k));
    var a := Dispatched(s, disks(i + k));
    StepFields(s, a, disks(i + k));
    DrainedKeepsLog(a, disks, i + k + 1);
    DrainedStep(s, disks, i + k);
  }

  lemma {:induction false} DrainedStep(b: Bus, disks: nat -> Option<seq<Rule>>, i: nat)
    requires Inv(b) && b.inbound != []
    ensures (forall c :: c in b.pending ==> b.pending[c] in b.futures) && Inv(Dispatched(b, disks(i)))
    ensures Drained(b, disks, i) == Drained(Dispatched(b, disks(i)), disks, i + 1)
  {
    hide Inv, Dispatched, DispatchedAs;
    OneStep(b, disks(i));
  }

  lemma {:induction false} LastReloadCounts(rules: seq<Rule>, msgs: seq<Message>, disks: nat -> Option<seq<Rule>>, i: nat,
                                            j: nat)
    requires j < |msgs| && msgs[j].event == "routing_reload_requested" && disks(i + j).Some?
    requires forall x :: j < x < |msgs| ==> msgs[x].event != "routing_reload_requested" || disks(i + x).None?
    ensures RulesAfter(rules, msgs, disks, i) == disks(i + j).value
    decreases |msgs|
  {
    var next := if msgs[0].event == "routing_reload_requested" && disks(i).Some? then disks(i).value else rules;
    if j > 0 {
      forall x | j - 1 < x < |msgs[1..]|
        ensures msgs[1..][x].event != "routing_reload_requested" || disks(i + 1 + x).None?
      {
        assert msgs[1..][x] == msgs[x + 1];
      }
      LastReloadCounts(next, msgs[1..], disks, i + 1, j - 1);
    } else {
      NoReload(next, msgs[1..], disks, i + 1);
    }
  }

  lemma {:induction false} NoReload(rules: seq<Rule>, msgs: seq<Message>, disks: nat -> Option<seq<Rule>>, i: nat)
    requires forall x :: 0 <= x < |msgs| ==> msgs[x].event != "routing_reload_requested" || disks(i + x).None?
    ensures RulesAfter(rules, msgs, disks, i) == rules
    decreases |msgs|
  {
    if msgs != [] {
      forall x | 0 <= x < |msgs[1..]|
        ensures msgs[1..][x].event != "routing_reload_requested" || disks(i + 1 + x).None?
      {
        assert msgs[1..][x] == msgs[x + 1];
      }
      NoReload(rules, msgs[1..], disks, i + 1);
    }
  }

  /** A message behind a reload that could read the file meets the reloaded rules: it
    * reaches exactly the members these name that are registered and have room. */
  lemma {:induction false} BehindReload(b: Bus, disks: nat -> Option<seq<Rule>>, i: nat, j: nat, k: nat)
    requires Inv(b) && j < k < |b.inbound|
    requires b.inbound[j].event == "routing_reload_requested" && disks(i + j).Some?
    requires forall x :: j < x < k ==> b.inbound[x].event != "routing_reload_requested" || disks(i + x).None?
    ensures var s, log, m := Stepped(b, disks, i, k), Drained(b, disks, i).log, b.inbound[k];
            && s.rules == disks(i + j).value
            && |b.log| + k < |log| && log[|b.log| + k].msg == m
            && (m.event != "routing_reload_requested" && !Awaited(s, m) && m.target.None? ==>
                  forall id :: id in log[|b.log| + k].recipients <==>
                    && id in s.members && (s.members[id].capacity <= 0 || |s.members[id].items| < s.members[id].capacity)
                    && exists r :: r in disks(i + j).value && r.matches(m.event, m.source) &&
                                   id in r.targets(m.source, s.members.Keys))
  {
    hide Inv, Stepped, Drained, RulesAfter, Reaches;
    DrainReaches(b, disks, i, k);
    var msgs := b.inbound[..k];
    forall x | j < x < |msgs| ensures msgs[x].event != "routing_reload_requested" || disks(i + x).None? {
      assert msgs[x] == b.inbound[x];
    }
    assert msgs[j] == b.inbound[j];
    LastReloadCounts(b.rules, msgs, disks, i, j);
    var s := Stepped(b, disks, i, k);
    forall id {
      ReachesBy(s, b.inbound[k], id);
    }
  }

  lemma {:induction false} ReachesBy(s: Bus, m: Message, id: string)
    ensures m.event != "routing_reload_requested" && !Awaited(s, m) && m.target.None? ==>
              (Reaches(s, m, id) <==>
                 && id in s.members && (s.members[id].capacity <= 0 || |s.members[id].items| < s.members[id].capacity)
                 && exists r :: r in s.rules && r.matches(m.event, m.source) && id in r.targets(m.source, s.members.Keys))
  {
  }
}
