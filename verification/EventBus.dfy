/** The event bus: named members with bounded queues, futures waiting for an
  * answer, and three ways to deliver a message. */
module EventBus {
  import opened Wrappers
  import opened Seqs

  datatype Message = Message(id: nat, event: string, source: string, target: Option<string>,
                             payload: map<string, string>, correlation: Option<string>, chain: seq<nat>)

  const RELOAD: string := "routing_reload_requested"

  datatype Member = Member(capacity: int, items: seq<Message>)

  /** A response future, as its owner sees it. */
  datatype Future = Waiting | Done(payload: map<string, string>) | Abandoned

  /** A routing rule, by what it matches and whom it reaches. */
  datatype Rule = Rule(matches: (string, string) -> bool, targets: (string, set<string>) -> seq<string>)

  /** What became of a dispatched message. */
  datatype Fate =
    | Reloaded
    | Answered(future: nat, settled: bool)
    | Direct(target: string)
    | Routed(targets: seq<string>)
    | Unmatched

  datatype Entry = Entry(msg: Message, fate: Fate, recipients: seq<string>)

  /** What a published message was triggered by: nothing, an accepted message (by its
    * number), or a message the bus never accepted. */
  datatype Cause = Root | From(index: nat) | Outside(trigger: Message)

  datatype Accepted = Accepted(msg: Message, cause: Cause)

  /** The bus, together with its history: everything accepted, and everything dispatched. */
  datatype Bus = Bus(
    members: map<string, Member>,
    pending: map<string, nat>,
    since: map<string, int>,
    futures: map<nat, Future>,
    inbound: seq<Message>,
    rules: seq<Rule>,
    accepted: seq<Accepted>,
    log: seq<Entry>)

  // -------------------------------------------------------------- resolution

  /** `xs` followed by the elements of `ys` that are not there yet. */
  function Merged(xs: seq<string>, ys: seq<string>): seq<string> {
    if ys == [] then xs
    else
      var m := Merged(xs, ys[..|ys| - 1]);
      if ys[|ys| - 1] in m then m else m + [ys[|ys| - 1]]
  }

  /** Targets of all matching rules, each once, in rule order; and whether any rule matched. */
  function Resolve(rules: seq<Rule>, event: string, sender: string, members: set<string>): (seq<string>, bool) {
    if rules == [] then ([], false)
    else
      var r, found := rules[|rules| - 1], Resolve(rules[..|rules| - 1], event, sender, members);
      if r.matches(event, sender) then (Merged(found.0, r.targets(sender, members)), true) else found
  }

  predicate Distinct(xs: seq<string>) {
    forall i, j :: 0 <= i < j < |xs| ==> xs[i] != xs[j]
  }

  lemma {:induction false} MergedDistinct(xs: seq<string>, ys: seq<string>)
    requires Distinct(xs)
    ensures Distinct(Merged(xs, ys))
    ensures forall x :: x in Merged(xs, ys) <==> x in xs || x in ys
  {
    if ys != [] {
      MergedDistinct(xs, ys[..|ys| - 1]);
      assert forall x :: x in ys <==> x in ys[..|ys| - 1] || x == ys[|ys| - 1];
    }
  }

  lemma {:induction false} ResolveDistinct(rules: seq<Rule>, event: string, sender: string, members: set<string>)
    ensures Distinct(Resolve(rules, event, sender, members).0)
    ensures Resolve(rules, event, sender, members).1 <==> exists r :: r in rules && r.matches(event, sender)
    ensures forall id :: id in Resolve(rules, event, sender, members).0 <==>
                         exists r :: r in rules && r.matches(event, sender) && id in r.targets(sender, members)
  {
    if rules != [] {
      var init, last := rules[..|rules| - 1], rules[|rules| - 1];
      ResolveDistinct(init, event, sender, members);
      MergedDistinct(Resolve(init, event, sender, members).0, last.targets(sender, members));
      assert forall r :: r in rules <==> r in init || r == last;
    }
  }

  // ---------------------------------------------------------------- delivery

  predicate HasRoom(m: Member) {
    m.capacity <= 0 || |m.items| < m.capacity
  }

  predicate Accepts(members: map<string, Member>, id: string) {
    id in members && HasRoom(members[id])
  }

  function Put(members: map<string, Member>, id: string, msg: Message): map<string, Member>
    requires id in members
  {
    members[id := members[id].(items := members[id].items + [msg])]
  }

  /** The message put into the queue of every target that is registered and not
    * full, and the targets that got it. */
  function Deliver(members: map<string, Member>, ids: seq<string>, msg: Message): (map<string, Member>, seq<string>) {
    if ids == [] then (members, [])
    else
      var id, d := ids[|ids| - 1], Deliver(members, ids[..|ids| - 1], msg);
      if Accepts(d.0, id) then (Put(d.0, id, msg), d.1 + [id]) else d
  }

  // ------------------------------------------------------------- transitions

  function Registered(b: Bus, id: string, maxsize: int): Bus {
    if id in b.members then b else b.(members := b.members[id := Member(maxsize, [])])
  }

  function Unregistered(b: Bus, id: string): Bus {
    b.(members := b.members - {id})
  }

  /** A response future registered under a correlation id. */
  function Awaiting(b: Bus, cid: string, f: nat, now: int): Bus {
    b.(pending := b.pending[cid := f], since := b.since[cid := now],
       futures := if f in b.futures then b.futures else b.futures[f := Waiting])
  }

  function WaitCancelled(b: Bus, cid: string): Bus {
    b.(pending := b.pending - {cid}, since := b.since - {cid})
  }

  /** The owner gives the future up, as a timed-out wait does. */
  function FutureAbandoned(b: Bus, f: nat): Bus {
    if f in b.futures && b.futures[f].Waiting? then b.(futures := b.futures[f := Abandoned]) else b
  }

  function Chained(msg: Message, trigger: Message): Message {
    msg.(chain := trigger.chain + [trigger.id])
  }

  /** `publish`: the chain is the trigger's chain extended by the trigger. */
  function Published(b: Bus, msg: Message, cause: Cause): Bus
    requires cause.From? ==> cause.index < |b.accepted|
  {
    var m :=
      match cause
      case Root => msg
      case From(i) => Chained(msg, b.accepted[i].msg)
      case Outside(t) => Chained(msg, t);
    b.(inbound := b.inbound + [m], accepted := b.accepted + [Accepted(m, cause)])
  }

  /** A member takes the oldest message of its queue. */
  function Taken(b: Bus, id: string): Bus {
    if id in b.members && b.members[id].items != []
    then b.(members := b.members[id := b.members[id].(items := b.members[id].items[1..])])
    else b
  }

  predicate IsAnswer(b: Bus, m: Message) {
    m.correlation.Some? && m.correlation.value != "" && m.correlation.value in b.pending
  }

  function Logged(b: Bus, fate: Fate, recipients: seq<string>): Bus
    requires b.inbound != []
  {
    b.(inbound := b.inbound[1..], log := b.log + [Entry(b.inbound[0], fate, recipients)])
  }

  function Settled(f: Future, payload: map<string, string>): Future {
    if f.Waiting? then Done(payload) else f
  }

  /** The oldest inbound message put into the queues of `ids`. */
  function Sent(b: Bus, fate: Fate, ids: seq<string>): Bus
    requires b.inbound != []
  {
    var d := Deliver(b.members, ids, b.inbound[0]);
    Logged(b, fate, d.1).(members := d.0)
  }

  /** `_dispatch` of the oldest inbound message; `disk` holds the rules a reload
    * finds at that moment, None when it fails. */
  function Dispatched(b: Bus, disk: Option<seq<Rule>>): Bus
    requires b.inbound != []
    requires forall c :: c in b.pending ==> b.pending[c] in b.futures
  {
    var m := b.inbound[0];
    if m.event == RELOAD then
      Logged(b, Reloaded, []).(rules := if disk.Some? then disk.value else b.rules)
    else if IsAnswer(b, m) then
      var cid := m.correlation.value;
      var f := b.pending[cid];
      Logged(b, Answered(f, b.futures[f].Waiting?), []).(
        pending := b.pending - {cid}, since := b.since - {cid},
        futures := b.futures[f := Settled(b.futures[f], m.payload)])
    else if m.target.Some? then Sent(b, Direct(m.target.value), [m.target.value])
    else
      var found := Resolve(b.rules, m.event, m.source, b.members.Keys);
      if found.1 then Sent(b, Routed(found.0), found.0) else Logged(b, Unmatched, [])
  }

  // --------------------------------------------------------------- invariant

  /** The messages the log says `id` received, in the order it received them. */
  function DeliveredTo(log: seq<Entry>, id: string): seq<Message> {
    if log == [] then []
    else
      DeliveredTo(log[..|log| - 1], id) +
      if id in log[|log| - 1].recipients then [log[|log| - 1].msg] else []
  }

  /** The payloads the log says future `f` was given. */
  function SettledWith(log: seq<Entry>, f: nat): seq<map<string, string>> {
    if log == [] then []
    else
      SettledWith(log[..|log| - 1], f) +
      if log[|log| - 1].fate == Answered(f, true) then [log[|log| - 1].msg.payload] else []
  }

  predicate IsSuffix(x: seq<Message>, y: seq<Message>) {
    |x| <= |y| && x == y[|y| - |x|..]
  }

  /** A member's queue is the unread end of what it was given, within capacity. */
  predicate QueueOk(m: Member, id: string, log: seq<Entry>) {
    (m.capacity > 0 ==> |m.items| <= m.capacity) && IsSuffix(m.items, DeliveredTo(log, id))
  }

  /** A message reaches only those its fate names, each once; an answered,
    * reloading or unmatched message reaches nobody. */
  predicate FateOk(e: Entry) {
    && Distinct(e.recipients)
    && match e.fate
       case Reloaded => e.recipients == []
       case Answered(_, _) => e.recipients == []
       case Unmatched => e.recipients == []
       case Direct(t) => forall r :: r in e.recipients ==> r == t
       case Routed(ts) => forall r :: r in e.recipients ==> r in ts
  }

  /** A future holds exactly what it was given, and was given at most one payload. */
  predicate FutureOk(futures: map<nat, Future>, f: nat, log: seq<Entry>) {
    SettledWith(log, f) == if f in futures && futures[f].Done? then [futures[f].payload] else []
  }

  /** The ids of the messages that led to message `i`, oldest first: through the
    * accepted ones back to the first, and before that whatever chain it came with. */
  function Ancestors(accepted: seq<Accepted>, i: nat): seq<nat>
    requires i < |accepted|
    decreases i
  {
    match accepted[i].cause
    case Root => accepted[i].msg.chain
    case Outside(t) => t.chain + [t.id]
    case From(c) =>
      if c >= i then accepted[i].msg.chain else Ancestors(accepted, c) + [accepted[c].msg.id]
  }

  predicate ChainOk(accepted: seq<Accepted>, i: nat)
    requires i < |accepted|
  {
    && (accepted[i].cause.From? ==> accepted[i].cause.index < i)
    && accepted[i].msg.chain == Ancestors(accepted, i)
  }

  /** The `i`-th accepted message: the logged ones first, then the inbound ones. */
  predicate InOrderOnce(b: Bus) {
    && |b.log| + |b.inbound| == |b.accepted|
    && (forall i :: 0 <= i < |b.log| ==> b.log[i].msg == b.accepted[i].msg)
    && (forall i :: 0 <= i < |b.inbound| ==> b.inbound[i] == b.accepted[|b.log| + i].msg)
  }

  ghost predicate Inv(b: Bus) {
    && InOrderOnce(b)
    && b.pending.Keys == b.since.Keys
    && (forall c :: c in b.pending ==> b.pending[c] in b.futures)
    && (forall id :: id in b.members ==> QueueOk(b.members[id], id, b.log))
    && (forall i :: 0 <= i < |b.log| ==> FateOk(b.log[i]))
    && (forall f :: FutureOk(b.futures, f, b.log))
    && (forall i :: 0 <= i < |b.accepted| ==> ChainOk(b.accepted, i))
  }

  // -------------------------------------------------- what delivery preserves

  lemma {:induction false} DeliverOnce(members: map<string, Member>, ids: seq<string>, msg: Message)
    requires Distinct(ids)
    ensures var d := Deliver(members, ids, msg);
            && d.0.Keys == members.Keys && Distinct(d.1)
            && (forall r :: r in d.1 ==> r in ids && r in members)
            && forall id :: id in members ==>
                 d.0[id] == if id in d.1 then members[id].(items := members[id].items + [msg]) else members[id]
    ensures forall id :: id in Deliver(members, ids, msg).1 <==> id in ids && Accepts(members, id)
  {
    if ids != [] {
      var init, id := ids[..|ids| - 1], ids[|ids| - 1];
      DeliverOnce(members, init, msg);
      assert id !in init;
      assert forall x :: x in ids <==> x in init || x == id;
    }
  }

  /** The message is meant for `id`: it is neither a reload request nor an answer
    * someone waits for, and it names `id` or a matching rule does. */
  ghost predicate Addressed(b: Bus, m: Message, id: string) {
    && m.event != RELOAD
    && !IsAnswer(b, m)
    && if m.target.Some? then id == m.target.value
       else exists r :: r in b.rules && r.matches(m.event, m.source) && id in r.targets(m.source, b.members.Keys)
  }

  /** Dispatch puts the message, once, at the end of the queue of exactly those
    * members that are addressed and have room; and only an awaited answer
    * touches a future. */
  lemma {:induction false} DispatchDelivers(b: Bus, disk: Option<seq<Rule>>)
    requires b.inbound != []
    requires forall c :: c in b.pending ==> b.pending[c] in b.futures
    ensures var m, a := b.inbound[0], Dispatched(b, disk);
            && a.members.Keys == b.members.Keys
            && (forall id :: id in b.members ==>
                  a.members[id] == if Addressed(b, m, id) && HasRoom(b.members[id])
                                   then b.members[id].(items := b.members[id].items + [m]) else b.members[id])
            && (m.event == RELOAD || !IsAnswer(b, m) ==> a.futures == b.futures)
  {
    hide Sent, Resolve, Distinct;
    var m := b.inbound[0];
    if m.event != RELOAD && !IsAnswer(b, m) {
      if m.target.Some? {
        OneIsDistinct(m.target.value);
        SentReaches(b, Direct(m.target.value), [m.target.value]);
      } else {
        var found := Resolve(b.rules, m.event, m.source, b.members.Keys);
        ResolveDistinct(b.rules, m.event, m.source, b.members.Keys);
        SentReaches(b, Routed(found.0), found.0);
      }
    }
  }

  /** Sending reaches the named members that are registered and have room. */
  lemma {:induction false} SentReaches(b: Bus, fate: Fate, ids: seq<string>)
    requires b.inbound != [] && Distinct(ids)
    ensures var m, a := b.inbound[0], Sent(b, fate, ids);
            && a.members.Keys == b.members.Keys
            && (forall id :: id in b.members ==>
                  a.members[id] == if id in ids && HasRoom(b.members[id])
                                   then b.members[id].(items := b.members[id].items + [m]) else b.members[id])
            && |a.log| == |b.log| + 1 && a.log[..|b.log|] == b.log && a.log[|b.log|].msg == m
            && (forall id :: id in a.log[|b.log|].recipients <==> id in ids && id in b.members && HasRoom(b.members[id]))
            && a == b.(inbound := b.inbound[1..], log := a.log, members := a.members)
  {
    hide Deliver, Distinct;
    DeliverOnce(b.members, ids, b.inbound[0]);
  }

  // ----------------------------------------------- a dispatch, field by field

  /** Somebody waits for the message: it is no reload request, and its correlation id
    * is pending. */
  predicate Awaited(b: Bus, m: Message) {
    m.event != "routing_reload_requested" && m.correlation.Some? && m.correlation.value != "" &&
    m.correlation.value in b.pending
  }

  /** The message reaches `id`: it is neither a reload request nor awaited, `id` is
    * registered and its queue not full, and the target is `id`, or without a target
    * some rule in force matches and names `id`. */
  ghost predicate Reaches(b: Bus, m: Message, id: string) {
    && m.event != "routing_reload_requested" && !Awaited(b, m)
    && id in b.members && (b.members[id].capacity <= 0 || |b.members[id].items| < b.members[id].capacity)
    && if m.target.Some? then id == m.target.value
       else exists r :: r in b.rules && r.matches(m.event, m.source) && id in r.targets(m.source, b.members.Keys)
  }

  /** What a dispatch does to every field of the bus. */
  ghost predicate DispatchedAs(b: Bus, a: Bus, disk: Option<seq<Rule>>) {
    && b.inbound != [] && a.inbound == b.inbound[1..] && a.accepted == b.accepted
    && var m := b.inbound[0];
    && |a.log| == |b.log| + 1 && a.log[..|b.log|] == b.log && a.log[|b.log|].msg == m
    && (forall id :: id in a.log[|b.log|].recipients <==> Reaches(b, m, id))
    && a.rules == (if m.event == "routing_reload_requested" && disk.Some? then disk.value else b.rules)
    && a.members.Keys == b.members.Keys
    && (forall id :: id in b.members ==>
          && a.members[id].capacity == b.members[id].capacity
          && a.members[id].items == b.members[id].items + if Reaches(b, m, id) then [m] else [])
    && if Awaited(b, m)
       then var cid := m.correlation.value;
            && a.pending == b.pending - {cid} && a.since == b.since - {cid}
            && b.pending[cid] in b.futures
            && a.futures == if b.futures[b.pending[cid]].Waiting? then b.futures[b.pending[cid] := Done(m.payload)]
                            else b.futures
       else a.pending == b.pending && a.since == b.since && a.futures == b.futures
  }

  lemma {:induction false} AddressedReaches(b: Bus, m: Message, id: string)
    ensures Awaited(b, m) <==> m.event != RELOAD && IsAnswer(b, m)
    ensures Reaches(b, m, id) <==> Addressed(b, m, id) && id in b.members && HasRoom(b.members[id])
  {
  }

  lemma {:induction false} DispatchSays(b: Bus, disk: Option<seq<Rule>>)
    requires b.inbound != [] && forall c :: c in b.pending ==> b.pending[c] in b.futures
    ensures DispatchedAs(b, Dispatched(b, disk), disk)
  {
    hide Deliver, Resolve, Merged, Distinct, Reaches, Addressed, Dispatched;
    var m, a := b.inbound[0], Dispatched(b, disk);
    DispatchDelivers(b, disk);
    FieldsSay(b, disk);
    forall id ensures id in a.log[|b.log|].recipients <==> Reaches(b, m, id) {
      RecipientsSay(b, disk, id);
    }
    forall id | id in b.members
      ensures a.members[id].items == b.members[id].items + if Reaches(b, m, id) then [m] else []
    {
      AddressedReaches(b, m, id);
      assert b.members[id].items + [] == b.members[id].items;
    }
    AddressedReaches(b, m, "");
  }

  lemma {:induction false} RecipientsSay(b: Bus, disk: Option<seq<Rule>>, id: string)
    requires b.inbound != [] && forall c :: c in b.pending ==> b.pending[c] in b.futures
    ensures var a := Dispatched(b, disk);
            |a.log| == |b.log| + 1 && (id in a.log[|b.log|].recipients <==> Reaches(b, b.inbound[0], id))
  {
    hide Deliver, Resolve, Merged, Distinct, Dispatched, Addressed, Reaches;
    var m := b.inbound[0];
    AddressedReaches(b, m, id);
    if m.event == RELOAD || IsAnswer(b, m) {
      NobodyReached(b, disk, id);
    } else if m.target.Some? {
      DirectReached(b, disk, id);
    } else {
      RoutedReached(b, disk, id);
    }
  }

  lemma {:induction false} NobodyReached(b: Bus, disk: Option<seq<Rule>>, id: string)
    requires b.inbound != [] && forall c :: c in b.pending ==> b.pending[c] in b.futures
    requires b.inbound[0].event == RELOAD || IsAnswer(b, b.inbound[0])
    ensures var a := Dispatched(b, disk); |a.log| == |b.log| + 1 && a.log[|b.log|].recipients == []
    ensures !Addressed(b, b.inbound[0], id)
  {
    hide Deliver, Resolve;
  }

  lemma {:induction false} DirectReached(b: Bus, disk: Option<seq<Rule>>, id: string)
    requires b.inbound != [] && forall c :: c in b.pending ==> b.pending[c] in b.futures
    requires b.inbound[0].event != RELOAD && !IsAnswer(b, b.inbound[0]) && b.inbound[0].target.Some?
    ensures var m, a := b.inbound[0], Dispatched(b, disk);
            && |a.log| == |b.log| + 1
            && (id in a.log[|b.log|].recipients <==> Addressed(b, m, id) && id in b.members && HasRoom(b.members[id]))
  {
    hide Sent, Resolve, Distinct;
    var m := b.inbound[0];
    OneIsDistinct(m.target.value);
    SentReaches(b, Direct(m.target.value), [m.target.value]);
  }

  lemma {:induction false} RoutedReached(b: Bus, disk: Option<seq<Rule>>, id: string)
    requires b.inbound != [] && forall c :: c in b.pending ==> b.pending[c] in b.futures
    requires b.inbound[0].event != RELOAD && !IsAnswer(b, b.inbound[0]) && b.inbound[0].target.None?
    ensures var m, a := b.inbound[0], Dispatched(b, disk);
            && |a.log| == |b.log| + 1
            && (id in a.log[|b.log|].recipients <==> Addressed(b, m, id) && id in b.members && HasRoom(b.members[id]))
  {
    hide Sent, Resolve, Distinct;
    var m := b.inbound[0];
    var found := Resolve(b.rules, m.event, m.source, b.members.Keys);
    ResolveDistinct(b.rules, m.event, m.source, b.members.Keys);
    SentReaches(b, Routed(found.0), found.0);
  }

  lemma {:induction false} FieldsSay(b: Bus, disk: Option<seq<Rule>>)
    requires b.inbound != [] && forall c :: c in b.pending ==> b.pending[c] in b.futures
    ensures var m, a := b.inbound[0], Dispatched(b, disk);
            && a.inbound == b.inbound[1..] && a.accepted == b.accepted
            && |a.log| == |b.log| + 1 && a.log[..|b.log|] == b.log && a.log[|b.log|].msg == m
            && a.rules == (if m.event == "routing_reload_requested" && disk.Some? then disk.value else b.rules)
            && if Awaited(b, m)
               then var cid := m.correlation.value;
                    && a.pending == b.pending - {cid} && a.since == b.since - {cid}
                    && a.futures == if b.futures[b.pending[cid]].Waiting? then b.futures[b.pending[cid] := Done(m.payload)]
                                    else b.futures
               else a.pending == b.pending && a.since == b.since && a.futures == b.futures
  {
    hide Dispatched;
    if Awaited(b, b.inbound[0]) {
      AwaitedFields(b, disk);
    } else {
      OtherFields(b, disk);
    }
  }

  lemma {:induction false} AwaitedFields(b: Bus, disk: Option<seq<Rule>>)
    requires b.inbound != [] && Awaited(b, b.inbound[0]) && forall c :: c in b.pending ==> b.pending[c] in b.futures
    ensures var m, a := b.inbound[0], Dispatched(b, disk);
            var cid := m.correlation.value;
            && a.inbound == b.inbound[1..] && a.accepted == b.accepted && a.rules == b.rules
            && |a.log| == |b.log| + 1 && a.log[..|b.log|] == b.log && a.log[|b.log|].msg == m
            && a.pending == b.pending - {cid} && a.since == b.since - {cid}
            && a.futures == if b.futures[b.pending[cid]].Waiting? then b.futures[b.pending[cid] := Done(m.payload)]
                            else b.futures
  {
    hide Deliver, Resolve;
    var f := b.pending[b.inbound[0].correlation.value];
    assert b.futures[f := b.futures[f]] == b.futures;
  }

  lemma {:induction false} OtherFields(b: Bus, disk: Option<seq<Rule>>)
    requires b.inbound != [] && !Awaited(b, b.inbound[0]) && forall c :: c in b.pending ==> b.pending[c] in b.futures
    ensures var m, a := b.inbound[0], Dispatched(b, disk);
            && a.inbound == b.inbound[1..] && a.accepted == b.accepted
            && |a.log| == |b.log| + 1 && a.log[..|b.log|] == b.log && a.log[|b.log|].msg == m
            && a.rules == (if m.event == "routing_reload_requested" && disk.Some? then disk.value else b.rules)
            && a.pending == b.pending && a.since == b.since && a.futures == b.futures
  {
    hide Sent, Resolve, Logged, Dispatched;
    var m := b.inbound[0];
    DispatchedIs(b, disk);
    LoggedFields(b, Reloaded, []);
    LoggedFields(b, Unmatched, []);
    if m.target.Some? {
      SentFields(b, Direct(m.target.value), [m.target.value]);
    } else {
      var found := Resolve(b.rules, m.event, m.source, b.members.Keys);
      SentFields(b, Routed(found.0), found.0);
    }
  }

  lemma {:induction false} DispatchedIs(b: Bus, disk: Option<seq<Rule>>)
    requires b.inbound != [] && !Awaited(b, b.inbound[0]) && forall c :: c in b.pending ==> b.pending[c] in b.futures
    ensures var m := b.inbound[0];
            Dispatched(b, disk) ==
            if m.event == RELOAD then Logged(b, Reloaded, []).(rules := if disk.Some? then disk.value else b.rules)
            else if m.target.Some? then Sent(b, Direct(m.target.value), [m.target.value])
            else
              var found := Resolve(b.rules, m.event, m.source, b.members.Keys);
              if found.1 then Sent(b, Routed(found.0), found.0) else Logged(b, Unmatched, [])
  {
    hide Sent, Resolve, Logged;
  }

  lemma {:induction false} LoggedFields(b: Bus, fate: Fate, ids: seq<string>)
    requires b.inbound != []
    ensures var a := Logged(b, fate, ids);
            && |a.log| == |b.log| + 1 && a.log[..|b.log|] == b.log && a.log[|b.log|].msg == b.inbound[0]
            && a == b.(inbound := b.inbound[1..], log := a.log)
  {
  }

  lemma {:induction false} SentFields(b: Bus, fate: Fate, ids: seq<string>)
    requires b.inbound != []
    ensures var a := Sent(b, fate, ids);
            && |a.log| == |b.log| + 1 && a.log[..|b.log|] == b.log && a.log[|b.log|].msg == b.inbound[0]
            && a == b.(inbound := b.inbound[1..], log := a.log, members := a.members)
  {
    hide Deliver;
  }

  // ------------------------------------------------------------ runs of a bus

  datatype Op =
    | Register(id: string, maxsize: int)
    | Unregister(id: string)
    | Await(cid: string, future: nat, now: int)
    | CancelWait(cid: string)
    | Abandon(future: nat)
    | Publish(msg: Message, cause: Cause)
    | Dispatch(disk: Option<seq<Rule>>)
    | Take(id: string)
    | SetRouting(rules: seq<Rule>)

  predicate Enabled(b: Bus, op: Op) {
    match op
    case Publish(_, cause) => cause.From? ==> cause.index < |b.accepted|
    case Dispatch(_) => b.inbound != [] && forall c :: c in b.pending ==> b.pending[c] in b.futures
    case _ => true
  }

  function Next(b: Bus, op: Op): Bus
    requires Enabled(b, op)
  {
    match op
    case Register(id, maxsize) => Registered(b, id, maxsize)
    case Unregister(id) => Unregistered(b, id)
    case Await(cid, f, now) => Awaiting(b, cid, f, now)
    case CancelWait(cid) => WaitCancelled(b, cid)
    case Abandon(f) => FutureAbandoned(b, f)
    case Publish(msg, cause) => Published(b, msg, cause)
    case Dispatch(disk) => Dispatched(b, disk)
    case Take(id) => Taken(b, id)
    case SetRouting(rules) => b.(rules := rules)
  }

  function Empty(rules: seq<Rule>): Bus {
    Bus(map[], map[], map[], map[], [], rules, [], [])
  }

  lemma {:induction false} EmptyInv(rules: seq<Rule>)
    ensures Inv(Empty(rules))
  {
  }

  // ---------------------------------------------- each step keeps the invariant

  lemma {:induction false} OneMoreLogged(log: seq<Entry>, e: Entry, id: string, f: nat)
    ensures DeliveredTo(log + [e], id) == DeliveredTo(log, id) + if id in e.recipients then [e.msg] else []
    ensures SettledWith(log + [e], f) ==
            SettledWith(log, f) + if e.fate == Answered(f, true) then [e.msg.payload] else []
  {
    assert (log + [e])[..|log + [e]| - 1] == log;
  }

  lemma {:induction false} QueueGrows(m: Member, id: string, log: seq<Entry>, e: Entry)
    requires QueueOk(m, id, log)
    requires id in e.recipients ==> HasRoom(m)
    ensures QueueOk(if id in e.recipients then m.(items := m.items + [e.msg]) else m, id, log + [e])
  {
    OneMoreLogged(log, e, id, 0);
    var d := DeliveredTo(log, id);
    if id in e.recipients {
      assert (d + [e.msg])[|d| - |m.items|..] == d[|d| - |m.items|..] + [e.msg];
    } else {
      assert d + [] == d;
    }
  }

  lemma {:induction false} QueueShrinks(m: Member, id: string, log: seq<Entry>)
    requires QueueOk(m, id, log) && m.items != []
    ensures QueueOk(m.(items := m.items[1..]), id, log)
  {
    var d := DeliveredTo(log, id);
    assert d[|d| - |m.items|..][1..] == d[|d| - |m.items| + 1..];
  }

  lemma {:induction false} FutureGrows(before: map<nat, Future>, after: map<nat, Future>, f: nat, log: seq<Entry>,
                                       e: Entry)
    requires FutureOk(before, f, log)
    requires if e.fate == Answered(f, true)
             then f in before && before[f].Waiting? && f in after && after[f] == Done(e.msg.payload)
             else (f in after <==> f in before) && (f in before ==> after[f] == before[f])
    ensures FutureOk(after, f, log + [e])
  {
    OneMoreLogged(log, e, "", f);
    assert SettledWith(log, f) + [] == SettledWith(log, f);
  }

  /** What holds when `a` is `b` with its oldest inbound message dispatched as `e`. */
  ghost predicate LoggedAs(b: Bus, a: Bus, e: Entry) {
    && b.inbound != []
    && a.inbound == b.inbound[1..] && a.log == b.log + [e] && a.accepted == b.accepted
    && e.msg == b.inbound[0] && FateOk(e)
    && a.members.Keys == b.members.Keys
    && (forall id :: id in b.members ==>
          && (id in e.recipients ==> HasRoom(b.members[id]))
          && a.members[id] == if id in e.recipients
                              then b.members[id].(items := b.members[id].items + [e.msg]) else b.members[id])
    && a.pending.Keys == a.since.Keys
    && (forall c :: c in a.pending ==> c in b.pending && a.pending[c] == b.pending[c])
    && a.futures.Keys == b.futures.Keys
    && (forall f :: f in b.futures ==>
          if e.fate == Answered(f, true)
          then b.futures[f].Waiting? && a.futures[f] == Done(e.msg.payload)
          else a.futures[f] == b.futures[f])
    && (e.fate.Answered? ==> e.fate.future in b.futures)
  }

  lemma {:induction false} LoggedKeepsInv(b: Bus, a: Bus, e: Entry)
    requires Inv(b) && LoggedAs(b, a, e)
    ensures Inv(a)
  {
    hide FateOk, QueueOk, FutureOk, ChainOk;
    forall id | id in a.members ensures QueueOk(a.members[id], id, a.log) {
      QueueGrows(b.members[id], id, b.log, e);
    }
    forall f ensures FutureOk(a.futures, f, a.log) {
      FutureGrows(b.futures, a.futures, f, b.log, e);
    }
  }

  lemma {:induction false} DeliveryLogs(b: Bus, fate: Fate, ids: seq<string>)
    requires Inv(b) && b.inbound != [] && Distinct(ids)
    requires fate == Routed(ids) || exists t :: fate == Direct(t) && ids == [t]
    ensures var d := Deliver(b.members, ids, b.inbound[0]);
            LoggedAs(b, Logged(b, fate, d.1).(members := d.0), Entry(b.inbound[0], fate, d.1))
  {
    hide Deliver, Resolve, Merged, QueueOk, FutureOk, ChainOk, InOrderOnce, DeliveredTo, SettledWith, Distinct;
    DeliverOnce(b.members, ids, b.inbound[0]);
  }

  lemma {:induction false} DispatchLogs(b: Bus, disk: Option<seq<Rule>>)
    requires Inv(b) && b.inbound != []
    ensures var a := Dispatched(b, disk); a.log != [] && LoggedAs(b, a, a.log[|a.log| - 1])
  {
    hide Deliver, Resolve, Merged, Inv, LoggedAs, Distinct;
    var m := b.inbound[0];
    if m.event == RELOAD || IsAnswer(b, m) {
      AnswerLogs(b, disk);
    } else if m.target.Some? {
      OneIsDistinct(m.target.value);
      DeliveryLogs(b, Direct(m.target.value), [m.target.value]);
    } else {
      var found := Resolve(b.rules, m.event, m.source, b.members.Keys);
      ResolveDistinct(b.rules, m.event, m.source, b.members.Keys);
      DeliveryLogs(b, Routed(found.0), found.0);
      NobodyLogs(b, Unmatched);
    }
  }

  lemma {:induction false} AnswerLogs(b: Bus, disk: Option<seq<Rule>>)
    requires Inv(b) && b.inbound != [] && (b.inbound[0].event == RELOAD || IsAnswer(b, b.inbound[0]))
    ensures var a := Dispatched(b, disk); a.log != [] && LoggedAs(b, a, a.log[|a.log| - 1])
  {
    hide Deliver, Resolve, Merged, QueueOk, FutureOk, ChainOk, InOrderOnce, DeliveredTo, SettledWith;
  }

  lemma {:induction false} OneIsDistinct(x: string)
    ensures Distinct([x])
  {
  }

  lemma {:induction false} NobodyLogs(b: Bus, fate: Fate)
    requires Inv(b) && b.inbound != [] && fate == Unmatched
    ensures LoggedAs(b, Logged(b, fate, []), Entry(b.inbound[0], fate, []))
  {
    hide QueueOk, FutureOk, ChainOk, InOrderOnce, DeliveredTo, SettledWith;
  }

  lemma {:induction false} AncestorsKept(x: seq<Accepted>, e: Accepted, i: nat)
    requires i < |x|
    ensures Ancestors(x + [e], i) == Ancestors(x, i)
    decreases i
  {
    var c := x[i].cause;
    if c.From? && c.index < i {
      AncestorsKept(x, e, c.index);
    }
  }

  lemma {:induction false} PublishKeepsInv(b: Bus, msg: Message, cause: Cause)
    requires Inv(b) && Enabled(b, Publish(msg, cause))
    ensures Inv(Published(b, msg, cause))
  {
    hide QueueOk, FutureOk, FateOk;
    var a := Published(b, msg, cause);
    var e := a.accepted[|b.accepted|];
    forall i | 0 <= i < |a.accepted| ensures ChainOk(a.accepted, i) {
      if i < |b.accepted| {
        assert ChainOk(b.accepted, i);
        AncestorsKept(b.accepted, e, i);
      } else if cause.From? {
        assert ChainOk(b.accepted, cause.index);
        AncestorsKept(b.accepted, e, cause.index);
      }
    }
  }

  lemma {:induction false} RegisterKeepsQueues(b: Bus, id: string, maxsize: int)
    requires forall i :: i in b.members ==> QueueOk(b.members[i], i, b.log)
    ensures forall i :: i in Registered(b, id, maxsize).members ==> QueueOk(Registered(b, id, maxsize).members[i], i, b.log)
  {
    var d := DeliveredTo(b.log, id);
    assert d[|d|..] == [];
  }

  lemma {:induction false} TakeKeepsQueues(b: Bus, id: string)
    requires forall i :: i in b.members ==> QueueOk(b.members[i], i, b.log)
    ensures forall i :: i in Taken(b, id).members ==> QueueOk(Taken(b, id).members[i], i, b.log)
  {
    if id in b.members && b.members[id].items != [] {
      QueueShrinks(b.members[id], id, b.log);
    }
  }

  lemma {:induction false} FuturesKept(before: map<nat, Future>, after: map<nat, Future>, log: seq<Entry>)
    requires forall f :: FutureOk(before, f, log)
    requires forall f :: f in before ==> f in after && (before[f].Done? ==> after[f] == before[f])
    requires forall f :: f in after && after[f].Done? ==> f in before && before[f].Done?
    ensures forall f :: FutureOk(after, f, log)
  {
    forall f ensures FutureOk(after, f, log) {
      assert FutureOk(before, f, log);
    }
  }

  /** The steps that neither publish nor dispatch. */
  lemma {:induction false} QuietKeepsInv(b: Bus, op: Op)
    requires Inv(b) && Enabled(b, op) && !op.Publish? && !op.Dispatch?
    ensures Inv(Next(b, op))
  {
    hide Inv, Enabled, Published, Dispatched;
    if op.Await? || op.CancelWait? || op.Abandon? {
      WaitingKeepsInv(b, op);
    } else {
      MembersKeepInv(b, op);
    }
  }

  lemma {:induction false} WaitingKeepsInv(b: Bus, op: Op)
    requires Inv(b) && Enabled(b, op) && (op.Await? || op.CancelWait? || op.Abandon?)
    ensures Inv(Next(b, op))
  {
    hide QueueOk, FutureOk, FateOk, ChainOk, DeliveredTo, SettledWith, Published, Dispatched;
    match op
    case Await(cid, f, now) => FuturesKept(b.futures, Awaiting(b, cid, f, now).futures, b.log);
    case Abandon(f) => FuturesKept(b.futures, FutureAbandoned(b, f).futures, b.log);
    case CancelWait(cid) =>
  }

  lemma {:induction false} MembersKeepInv(b: Bus, op: Op)
    requires Inv(b) && Enabled(b, op) && (op.Register? || op.Unregister? || op.Take? || op.SetRouting?)
    ensures Inv(Next(b, op))
  {
    hide QueueOk, FutureOk, FateOk, ChainOk, DeliveredTo, SettledWith, Published, Dispatched;
    match op
    case Register(id, maxsize) => RegisterKeepsQueues(b, id, maxsize);
    case Take(id) => TakeKeepsQueues(b, id);
    case _ =>
  }

  lemma {:induction false} NextKeepsInv(b: Bus, op: Op)
    requires Inv(b) && Enabled(b, op)
    ensures Inv(Next(b, op))
  {
    hide QueueOk, FutureOk, FateOk, ChainOk, Published, Dispatched, LoggedAs;
    var a := Next(b, op);
    match op
    case Publish(msg, cause) => PublishKeepsInv(b, msg, cause);
    case Dispatch(disk) =>
      DispatchLogs(b, disk);
      LoggedKeepsInv(b, a, a.log[|a.log| - 1]);
    case _ => QuietKeepsInv(b, op);
  }

  lemma {:induction false} DispatchKeepsInv(b: Bus, disk: Option<seq<Rule>>)
    requires Inv(b) && b.inbound != []
    ensures (forall c :: c in b.pending ==> b.pending[c] in b.futures) && Inv(Dispatched(b, disk))
  {
    hide Dispatched, QueueOk, FutureOk, FateOk, ChainOk, InOrderOnce;
    NextKeepsInv(b, Dispatch(disk));
  }

  ghost predicate IsRun(run: seq<Bus>, ops: seq<Op>) {
    && |run| == |ops| + 1
    && forall i :: 0 <= i < |ops| ==> Enabled(run[i], ops[i]) && run[i + 1] == Next(run[i], ops[i])
  }

  /** Every state of every run from an empty bus satisfies the invariant. */
  lemma {:induction false} RunsAreSafe(rules: seq<Rule>, run: seq<Bus>, ops: seq<Op>, i: nat)
    requires IsRun(run, ops) && run[0] == Empty(rules) && i < |run|
    ensures Inv(run[i])
    decreases i
  {
    hide Inv, Next, Enabled;
    if i == 0 {
      EmptyInv(rules);
    } else {
      RunsAreSafe(rules, run, ops, i - 1);
      NextKeepsInv(run[i - 1], ops[i - 1]);
    }
  }

  /** What is written stays written: acceptances, dispatches and settled futures. */
  ghost predicate Grows(b: Bus, a: Bus) {
    && b.log <= a.log
    && b.accepted <= a.accepted
    && forall f :: f in b.futures && !b.futures[f].Waiting? ==> f in a.futures && a.futures[f] == b.futures[f]
  }

  lemma {:induction false} NextGrows(b: Bus, op: Op)
    requires Enabled(b, op)
    ensures Grows(b, Next(b, op))
  {
    hide Dispatched;
    if op.Dispatch? {
      DispatchGrows(b, op.disk);
    }
  }

  lemma {:induction false} DispatchGrows(b: Bus, disk: Option<seq<Rule>>)
    requires Enabled(b, Dispatch(disk))
    ensures Grows(b, Dispatched(b, disk))
  {
    hide Dispatched;
    FieldsSay(b, disk);
  }

  /** Over a run no acceptance, no fate and no settled future ever changes, so a
    * message is dispatched once and a future is set once. */
  lemma {:induction false} RunsOnlyGrow(run: seq<Bus>, ops: seq<Op>, i: nat, j: nat)
    requires IsRun(run, ops) && i <= j < |run|
    ensures Grows(run[i], run[j])
    decreases j
  {
    hide Next, Enabled;
    if i < j {
      RunsOnlyGrow(run, ops, i, j - 1);
      NextGrows(run[j - 1], ops[j - 1]);
    }
  }

  /** An undelivered message leaves a queue only when its member reads it, oldest
    * first, or is unregistered; nothing else removes or reorders messages. */
  lemma {:induction false} UnreadStays(b: Bus, op: Op, id: string)
    requires Enabled(b, op) && id in b.members && op != Unregister(id)
    ensures var a := Next(b, op);
            id in a.members && a.members[id].capacity == b.members[id].capacity &&
            if op == Take(id) && b.members[id].items != [] then a.members[id].items == b.members[id].items[1..]
            else b.members[id].items <= a.members[id].items <= b.members[id].items + b.inbound
  {
    hide Dispatched;
    if op.Dispatch? {
      hide Resolve, Merged, Deliver;
      DispatchDelivers(b, op.disk);
    }
  }

  // ------------------------------------------------------------- the bus object

  datatype PublishError = EmptySource | MissingFields(fields: seq<string>)

  /** The required fields the payload lacks, in schema order. */
  function Missing(required: seq<string>, payload: map<string, string>): (fields: seq<string>)
    ensures forall f :: f in fields <==> f in required && f !in payload
  {
    if required == [] then []
    else if required[0] in payload then Missing(required[1..], payload)
    else [required[0]] + Missing(required[1..], payload)
  }

  /** All inbound messages dispatched, oldest first; `disks(i)` is what a reload
    * finds when the `i`-th of them is dispatched. */
  ghost function Drained(b: Bus, disks: nat -> Option<seq<Rule>>, i: nat): Bus
    requires Inv(b)
    decreases |b.inbound|
  {
    if b.inbound == [] then b
    else
      DispatchKeepsInv(b, disks(i));
      DispatchLogs(b, disks(i));
      Drained(Dispatched(b, disks(i)), disks, i + 1)
  }

  lemma {:induction false} DrainedDispatchesAll(b: Bus, disks: nat -> Option<seq<Rule>>, i: nat)
    requires Inv(b)
    ensures var a := Drained(b, disks, i);
            && Inv(a) && a.inbound == [] && a.accepted == b.accepted
            && |a.log| == |b.accepted|
    decreases |b.inbound|
  {
    hide Dispatched;
    if b.inbound != [] {
      DispatchKeepsInv(b, disks(i));
      DispatchLogs(b, disks(i));
      DrainedDispatchesAll(Dispatched(b, disks(i)), disks, i + 1);
    }
  }

  /** `RoutingTable.resolve`: the targets of every matching rule, collected once each. */
  method ResolveTargets(rules: seq<Rule>, event: string, sender: string, members: set<string>)
    returns (targets: seq<string>, matched: bool)
    ensures (targets, matched) == Resolve(rules, event, sender, members)
  {
    targets, matched := [], false;
    var i := 0;
    while i < |rules|
      invariant i <= |rules|
      invariant (targets, matched) == Resolve(rules[..i], event, sender, members)
    {
      var r := rules[i];
      TakeNext(rules, i);
      i := i + 1;
      if !r.matches(event, sender) {
        continue;
      }
      matched := true;
      var ts := r.targets(sender, members);
      ghost var before := targets;
      var j := 0;
      while j < |ts|
        invariant j <= |ts|
        invariant targets == Merged(before, ts[..j])
      {
        TakeNext(ts, j);
        if ts[j] !in targets {
          targets := targets + [ts[j]];
        }
        j := j + 1;
      }
      TakeAll(ts);
    }
    TakeAll(rules);
  }

  class EventBus {
    var members: map<string, Member>
    var pending: map<string, nat>
    var since: map<string, int>
    var futures: map<nat, Future>
    var inbound: seq<Message>
    var rules: seq<Rule>
    const schemas: map<string, seq<string>>
    ghost var accepted: seq<Accepted>
    ghost var log: seq<Entry>

    ghost function View(): Bus
      reads this
    {
      Bus(members, pending, since, futures, inbound, rules, accepted, log)
    }

    constructor (rules: seq<Rule>, schemas: map<string, seq<string>>)
      ensures View() == Empty(rules) && Inv(View())
      ensures this.schemas == schemas
    {
      members, pending, since, futures, inbound := map[], map[], map[], map[], [];
      this.rules, this.schemas := rules, schemas;
      accepted, log := [], [];
      new;
      EmptyInv(rules);
    }

    /** `register_member`: an existing queue stays as it is. */
    method RegisterMember(id: string, maxsize: int)
      modifies this
      ensures View() == Registered(old(View()), id, maxsize)
      ensures members == if id in old(members) then old(members) else old(members)[id := Member(maxsize, [])]
      ensures pending == old(pending) && since == old(since) && futures == old(futures) && rules == old(rules)
    {
      if id !in members {
        members := members[id := Member(maxsize, [])];
      }
    }

    method UnregisterMember(id: string)
      modifies this
      ensures View() == Unregistered(old(View()), id)
      ensures members == old(members) - {id} && inbound == old(inbound) && pending == old(pending) && rules == old(rules)
    {
      if id in members {
        members := members - {id};
      } else {
        assert members - {id} == members;
      }
    }

    /** A new future may be registered under any correlation id; an older one
      * under the same id is forgotten. */
    method RegisterResponseFuture(cid: string, f: nat, now: int)
      modifies this
      ensures View() == Awaiting(old(View()), cid, f, now)
      ensures pending == old(pending)[cid := f] && since == old(since)[cid := now] && members == old(members)
      ensures futures == if f in old(futures) then old(futures) else old(futures)[f := Waiting]
    {
      pending, since := pending[cid := f], since[cid := now];
      if f !in futures {
        futures := futures[f := Waiting];
      }
    }

    method CancelResponseFuture(cid: string)
      modifies this
      ensures View() == WaitCancelled(old(View()), cid)
      ensures pending == old(pending) - {cid} && since == old(since) - {cid} && futures == old(futures)
    {
      pending, since := pending - {cid}, since - {cid};
    }

    /** `publish`: refused with an error, or accepted at the end of the inbound queue. */
    method Publish(msg: Message, trigger: Option<Message>, ghost cause: Cause) returns (r: Result<(), PublishError>)
      requires cause.From? ==> cause.index < |accepted|
      requires trigger == match cause
                          case Root => None
                          case From(i) => Some(accepted[i].msg)
                          case Outside(t) => Some(t)
      modifies this
      ensures r.Ok? <==> && msg.source != ""
                         && (msg.event in schemas ==> forall f :: f in schemas[msg.event] ==> f in msg.payload)
      ensures View() == if r.Ok? then Published(old(View()), msg, cause) else old(View())
      ensures r.Ok? ==>
                inbound == old(inbound) +
                           [if trigger.None? then msg else msg.(chain := trigger.value.chain + [trigger.value.id])]
      ensures r == Err(EmptySource) <==> msg.source == ""
      ensures r.Err? && r.error.MissingFields? ==> forall f :: f in r.error.fields <==>
                msg.event in schemas && f in schemas[msg.event] && f !in msg.payload
    {
      var m := msg;
      if trigger.Some? {
        m := Chained(msg, trigger.value);
      }
      if m.source == "" {
        return Err(EmptySource);
      }
      if m.event in schemas {
        var missing := Missing(schemas[m.event], m.payload);
        if missing != [] {
          assert missing[0] in missing;
          return Err(MissingFields(missing));
        }
      }
      inbound := inbound + [m];
      accepted := accepted + [Accepted(m, cause)];
      return Ok(());
    }

    /** `put_nowait` into each target's queue; a missing or full queue is skipped. */
    method PutAll(ids: seq<string>, m: Message) returns (ghost got: seq<string>)
      modifies this`members
      ensures (members, got) == Deliver(old(members), ids, m)
    {
      got := [];
      var i := 0;
      while i < |ids|
        invariant i <= |ids|
        invariant (members, got) == Deliver(old(members), ids[..i], m)
      {
        var id := ids[i];
        TakeNext(ids, i);
        if id in members {
          if members[id].capacity <= 0 || |members[id].items| < members[id].capacity {
            members := members[id := members[id].(items := members[id].items + [m])];
            got := got + [id];
          }
        }
        i := i + 1;
      }
      TakeAll(ids);
    }

    /** `_dispatch` of the oldest inbound message. */
    method DispatchNext(disk: Option<seq<Rule>>)
      requires Inv(View()) && inbound != []
      modifies this
      ensures View() == Dispatched(old(View()), disk) && Inv(View())
      ensures DispatchedAs(old(View()), View(), disk)
    {
      hide Deliver, Resolve, Merged, Inv, DispatchedAs;
      DispatchKeepsInv(View(), disk);
      DispatchSays(View(), disk);
      var m := inbound[0];
      inbound := inbound[1..];
      if m.event == RELOAD {
        if disk.Some? {
          rules := disk.value;
        }
        log := log + [Entry(m, Reloaded, [])];
        return;
      }
      if m.correlation.Some? && m.correlation.value != "" && m.correlation.value in pending {
        var cid := m.correlation.value;
        var f := pending[cid];
        log := log + [Entry(m, Answered(f, futures[f].Waiting?), [])];
        pending, since := pending - {cid}, since - {cid};
        if futures[f].Waiting? {
          futures := futures[f := Done(m.payload)];
        }
        assert futures == old(futures)[f := Settled(old(futures)[f], m.payload)];
        return;
      }
      if m.target.Some? {
        ghost var got := PutAll([m.target.value], m);
        log := log + [Entry(m, Direct(m.target.value), got)];
        return;
      }
      var targets, matched := ResolveTargets(rules, m.event, m.source, members.Keys);
      if !matched {
        log := log + [Entry(m, Unmatched, [])];
        return;
      }
      ghost var got := PutAll(targets, m);
      log := log + [Entry(m, Routed(targets), got)];
    }

    /** `flush`: dispatch until nothing is inbound; the routing file may change
      * between one dispatch and the next. */
    method Flush(disks: nat -> Option<seq<Rule>>)
      requires Inv(View())
      modifies this
      ensures View() == Drained(old(View()), disks, 0)
      ensures Inv(View()) && inbound == []
    {
      hide QueueOk, FutureOk, FateOk, ChainOk, Dispatched, InOrderOnce;
      var i := 0;
      while inbound != []
        invariant Inv(View()) && Drained(View(), disks, i) == Drained(old(View()), disks, 0)
        decreases |inbound|
      {
        DispatchLogs(View(), disks(i));
        DispatchNext(disks(i));
        i := i + 1;
      }
    }

    /** A member reads its queue. */
    method Receive(id: string) returns (m: Option<Message>)
      modifies this
      ensures View() == Taken(old(View()), id)
      ensures m.None? ==> members == old(members)
      ensures m.Some? ==>
                && id in old(members) && old(members)[id].items != [] && old(members)[id].items[0] == m.value
                && members == old(members)[id := Member(old(members)[id].capacity, old(members)[id].items[1..])]
      ensures m == if id in old(members) && old(members)[id].items != [] then Some(old(members)[id].items[0]) else None
    {
      m := None;
      if id in members && members[id].items != [] {
        m := Some(members[id].items[0]);
        members := members[id := members[id].(items := members[id].items[1..])];
      }
    }
  }
}
