/** When an agent runs: the candle divider, its restores and its acceleration;
  * and the composer's second implementation of the same divider. */
module Triggers {
  import opened Wrappers
  import opened Seqs

  const M5: string := "m5_candle_trigger"

  /** A subscribed event as the message loop meets it: its own force flag, and what
    * the session filter, the runtime switch, the run lock and (should it come to a
    * run) the analysis answer say. */
  datatype Trigger = Trigger(event: string, force: bool, session: bool, paused: bool, busy: bool, asksNext: bool)

  /** The configured divider: missing, a whole number, a text (with the number it
    * reads as, if any), a number with a fraction, or something else. */
  datatype AnyCandle = Missing | Value(n: int) | Text(parsed: Option<int>) | Fraction(truncated: int) | Other

  datatype Msg = Config(anyCandle: AnyCandle, triggers: set<string>) | Query | Event(t: Trigger)

  datatype State = State(divider: int, count: nat, triggers: set<string>)

  datatype Reason = RuntimePaused | DividerNotReached | SessionFilter | LlmBusy

  datatype Outcome = Ran | Skipped(reason: Reason)

  /** The agent falls back to 1 for everything it does not understand. */
  function Divider(a: AnyCandle): (d: int)
    ensures d >= 1
  {
    match a
    case Value(n) => if n >= 1 then n else 1
    case Text(p) => if p.Some? && p.value >= 1 then p.value else 1
    case _ => 1
  }

  /** The composer converts to a whole number, and fails (None) where that fails. */
  function ComposerDivider(a: AnyCandle): (d: Option<int>)
    ensures d.Some? ==> d.value >= 1
  {
    match a
    case Missing => Some(1)
    case Value(n) => Some(if n >= 1 then n else 1)
    case Text(p) => if p.None? then None else Some(if p.value >= 1 then p.value else 1)
    case Fraction(n) => Some(if n >= 1 then n else 1)
    case Other => None
  }

  // ------------------------------------------------- what the configuration means

  /** The divider is the configured number, given as such or as a text, and 1 where
    * that is missing, is below 1, has a fraction or is no number. */
  ghost predicate Means(a: AnyCandle, d: int) {
    && (a.Value? ==> d == Max(1, a.n))
    && (a.Text? && a.parsed.Some? ==> d == Max(1, a.parsed.value))
    && (a.Missing? || a.Fraction? || a.Other? || (a.Text? && a.parsed.None?) ==> d == 1)
  }

  /** The composer cuts off a fraction, and cannot convert a text that is no number. */
  predicate Convertible(a: AnyCandle) {
    !a.Other? && (a.Text? ==> a.parsed.Some?)
  }

  ghost predicate Converts(a: AnyCandle, d: int) {
    Convertible(a) && if a.Fraction? then d == Max(1, a.truncated) else Means(a, d)
  }

  function Max(x: int, y: int): int {
    if x >= y then x else y
  }

  lemma {:induction false} DividerMeans(a: AnyCandle)
    ensures Means(a, Divider(a))
    ensures ComposerDivider(a).Some? <==> Convertible(a)
    ensures ComposerDivider(a).Some? ==> Converts(a, ComposerDivider(a).value)
  {
  }

  // ----------------------------------------------------------------- one message

  /** The run is due. */
  predicate Due(s: State, t: Trigger) {
    t.force || t.event != M5 || s.divider <= 1 || s.count + 1 >= s.divider
  }

  /** The counter once the trigger has been counted. */
  function Counted(s: State, t: Trigger): nat {
    if t.force then 0
    else if t.event != M5 then s.count
    else if s.divider > 1 && s.count + 1 >= s.divider then 0
    else s.count + 1
  }

  function OutcomeOf(s: State, t: Trigger): Outcome {
    if t.paused then Skipped(RuntimePaused)
    else if !Due(s, t) then Skipped(DividerNotReached)
    else if !t.session then Skipped(SessionFilter)
    else if t.busy then Skipped(LlmBusy)
    else Ran
  }

  /** The counter once the trigger has been dealt with. */
  function Settled(s: State, t: Trigger): nat {
    if s.divider > 1 && OutcomeOf(s, t) == Skipped(SessionFilter) then s.divider - 1
    else if s.divider > 1 && OutcomeOf(s, t) == Ran && t.event == M5 && t.asksNext then s.divider
    else Counted(s, t)
  }

  function After(s: State, m: Msg): State {
    match m
    case Config(a, ts) => State(Divider(a), 0, ts)
    case Query => s
    case Event(t) => if t.event in s.triggers then s.(count := Settled(s, t)) else s
  }

  function Reach(s: State, msgs: seq<Msg>): State
    decreases |msgs|
  {
    if msgs == [] then s else Reach(After(s, msgs[0]), msgs[1..])
  }

  /** The message is a candle trigger the agent listens to. */
  predicate IsCandle(s: State, m: Msg) {
    m.Event? && m.t.event == M5 && M5 in s.triggers
  }

  // -------------------------------------------------------------------- invariant

  predicate Inv(s: State) {
    s.divider >= 1 && (s.divider >= 2 ==> s.count <= s.divider)
  }

  lemma {:induction false} CounterInRange(s: State, msgs: seq<Msg>)
    requires Inv(s)
    ensures Inv(Reach(s, msgs))
    ensures var r := Reach(s, msgs); r.divider >= 1 && (r.divider >= 2 ==> r.count <= r.divider)
    decreases |msgs|
  {
    if msgs != [] {
      CounterInRange(After(s, msgs[0]), msgs[1..]);
    }
  }

  /** What follows a candle trigger: the next one is due exactly when this one was
    * the last but one of the cycle, was due and met only a closed session, or ran
    * and asked for it. A due trigger lost to a pause or a busy model is not retried. */
  lemma {:induction false} NextIsDueIff(s: State, t: Trigger, next: Trigger)
    requires Inv(s) && s.divider >= 2 && M5 in s.triggers
    requires t.event == M5 && next.event == M5 && !next.force
    ensures Due(After(s, Event(t)), next) <==>
            || (!Due(s, t) && s.count == s.divider - 2)
            || (Due(s, t) && !t.session && !t.paused)
            || (OutcomeOf(s, t) == Ran && t.asksNext)
  {
  }

  // ------------------------------------------------------- due within d triggers

  /** Nothing resets the counter from outside: no new configuration, and no forced
    * run on another event. */
  predicate Calm(msgs: seq<Msg>) {
    forall m :: m in msgs ==> !m.Config? && (m.Event? && m.t.force ==> m.t.event == M5)
  }

  function Candles(s: State, msgs: seq<Msg>): nat
    decreases |msgs|
  {
    if msgs == [] then 0
    else (if IsCandle(s, msgs[0]) then 1 else 0) + Candles(After(s, msgs[0]), msgs[1..])
  }

  /** Some candle trigger among the messages is due when it comes. */
  predicate HasDue(s: State, msgs: seq<Msg>)
    decreases |msgs|
  {
    msgs != [] &&
    ((IsCandle(s, msgs[0]) && Due(s, msgs[0].t)) || HasDue(After(s, msgs[0]), msgs[1..]))
  }

  /** The number of candle triggers up to and including the next due one. */
  function Remaining(s: State): nat
    requires s.divider >= 2
  {
    if s.count + 1 >= s.divider then 1 else s.divider - s.count
  }

  lemma {:induction false} DueInTime(s: State, msgs: seq<Msg>)
    requires s.divider >= 2 && Calm(msgs) && Candles(s, msgs) >= Remaining(s)
    ensures HasDue(s, msgs)
    decreases |msgs|
  {
    if msgs != [] && !(IsCandle(s, msgs[0]) && Due(s, msgs[0].t)) {
      assert msgs[0] in msgs && forall m :: m in msgs[1..] ==> m in msgs;
      DueInTime(After(s, msgs[0]), msgs[1..]);
    }
  }

  /** In calm times any `d` consecutive candle triggers contain a due one. */
  lemma {:induction false} DueWithinDivider(s: State, msgs: seq<Msg>)
    requires s.divider >= 2 && Calm(msgs) && Candles(s, msgs) >= s.divider
    ensures HasDue(s, msgs)
  {
    DueInTime(s, msgs);
  }

  // ------------------------------------------------- exactly when one is due

  /** Divider and subscriptions in force after the messages. */
  function Current(s: State, msgs: seq<Msg>): State {
    if msgs == [] then s
    else
      var m := msgs[|msgs| - 1];
      if m.Config? then State(Divider(m.anyCandle), 0, m.triggers) else Current(s, msgs[..|msgs| - 1])
  }

  /** Message `i` is a candle trigger the agent listens to by then. */
  predicate CandleAt(s: State, msgs: seq<Msg>, i: nat)
    requires i < |msgs|
  {
    IsCandle(Current(s, msgs[..i]), msgs[i])
  }

  /** Message `i` is another event the agent listens to by then. */
  predicate OtherAt(s: State, msgs: seq<Msg>, i: nat)
    requires i < |msgs|
  {
    msgs[i].Event? && msgs[i].t.event != M5 && msgs[i].t.event in Current(s, msgs[..i]).triggers
  }

  /** Another event that only the session filter turns down; the counter is then
    * set to one short of due. */
  predicate Primes(s: State, msgs: seq<Msg>, i: nat)
    requires i < |msgs|
  {
    OtherAt(s, msgs, i) && !msgs[i].t.paused && !msgs[i].t.session
  }

  /** A new configuration, a forced run on another event, or a rejected one: the
    * counter starts from a new value. */
  predicate Turns(s: State, msgs: seq<Msg>, i: nat)
    requires i < |msgs|
  {
    msgs[i].Config? || (OtherAt(s, msgs, i) && msgs[i].t.force) || Primes(s, msgs, i)
  }

  /** The candle triggers among messages `a..b`. */
  function CandlesIn(s: State, msgs: seq<Msg>, a: nat, b: nat): nat
    requires a <= b <= |msgs|
    decreases b - a
  {
    if a == b then 0 else CandlesIn(s, msgs, a, b - 1) + if CandleAt(s, msgs, b - 1) then 1 else 0
  }

  /** What the stretch beginning at `a` starts with. */
  function Credit(s: State, msgs: seq<Msg>, a: nat): int
    requires a <= |msgs|
  {
    if a == 0 then s.count
    else if Primes(s, msgs, a - 1) then Current(s, msgs[..a]).divider - 1
    else 0
  }

  /** Messages `a..b` are in one stretch, the one beginning at `a`. */
  predicate Stretch(s: State, msgs: seq<Msg>, a: nat, b: nat) {
    && a <= b <= |msgs|
    && (a == 0 || Turns(s, msgs, a - 1))
    && forall j :: a <= j < b ==> !Turns(s, msgs, j)
  }

  /** Candle trigger `i` is forced, or it is the one that fills its stretch. */
  predicate Fills(s: State, msgs: seq<Msg>, a: nat, i: nat) {
    && i < |msgs| && Stretch(s, msgs, a, i) && CandleAt(s, msgs, i)
    && (msgs[i].t.force || Credit(s, msgs, a) + CandlesIn(s, msgs, a, i + 1) >= Current(s, msgs[..i]).divider)
  }

  lemma {:induction false} ReachSnoc(s: State, msgs: seq<Msg>, m: Msg)
    ensures Reach(s, msgs + [m]) == After(Reach(s, msgs), m)
    ensures HasDue(s, msgs + [m]) <==>
            HasDue(s, msgs) || (IsCandle(Reach(s, msgs), m) && Due(Reach(s, msgs), m.t))
    decreases |msgs|
  {
    var all := msgs + [m];
    if msgs == [] {
      assert all == [m] && all[1..] == [];
      assert Reach(After(s, m), []) == After(s, m);
    } else {
      assert all[0] == msgs[0] && all[1..] == msgs[1..] + [m];
      ReachSnoc(After(s, msgs[0]), msgs[1..], m);
    }
  }

  /** Divider and subscriptions of the state are those in force. */
  lemma {:induction false} ReachCurrent(s: State, msgs: seq<Msg>)
    ensures var r, c := Reach(s, msgs), Current(s, msgs); r.divider == c.divider && r.triggers == c.triggers
  {
    if msgs != [] {
      var init, m := msgs[..|msgs| - 1], msgs[|msgs| - 1];
      ReachCurrent(s, init);
      ReachSnoc(s, init, m);
      assert msgs == init + [m];
    }
  }

  /** While nothing was due, the counter is what the current stretch makes it. */
  lemma {:induction false} CounterInStretch(s: State, msgs: seq<Msg>, k: nat) returns (a: nat)
    requires k <= |msgs| && !HasDue(s, msgs[..k])
    ensures Stretch(s, msgs, a, k)
    ensures Current(s, msgs[..k]).divider >= 2 ==> Reach(s, msgs[..k]).count == Credit(s, msgs, a) + CandlesIn(s, msgs, a, k)
    decreases k
  {
    if k == 0 {
      a := 0;
      assert msgs[..0] == [];
    } else {
      var m := msgs[k - 1];
      TakeNext(msgs, k - 1);
      ReachSnoc(s, msgs[..k - 1], m);
      ReachCurrent(s, msgs[..k - 1]);
      a := CounterInStretch(s, msgs, k - 1);
      CurrentSnoc(s, msgs, k);
      if Turns(s, msgs, k - 1) {
        a := k;
      }
    }
  }

  lemma {:induction false} CurrentSnoc(s: State, msgs: seq<Msg>, k: nat)
    requires 0 < k <= |msgs|
    ensures Current(s, msgs[..k]) ==
            if msgs[k - 1].Config? then State(Divider(msgs[k - 1].anyCandle), 0, msgs[k - 1].triggers)
            else Current(s, msgs[..k - 1])
  {
    TakeNext(msgs, k - 1);
  }

  lemma {:induction false} FirstDueFills(s: State, msgs: seq<Msg>, k: nat) returns (a: nat, i: nat)
    requires k <= |msgs| && HasDue(s, msgs[..k])
    ensures Fills(s, msgs, a, i)
    decreases k
  {
    TakeNext(msgs, k - 1);
    ReachSnoc(s, msgs[..k - 1], msgs[k - 1]);
    if HasDue(s, msgs[..k - 1]) {
      a, i := FirstDueFills(s, msgs, k - 1);
    } else {
      i := k - 1;
      a := CounterInStretch(s, msgs, i);
      ReachCurrent(s, msgs[..i]);
      CreditAtLeast(s, msgs, a, i);
    }
  }

  lemma {:induction false} CreditAtLeast(s: State, msgs: seq<Msg>, a: nat, i: nat)
    requires Stretch(s, msgs, a, i)
    ensures Current(s, msgs[..i]).divider == Current(s, msgs[..a]).divider
    ensures Current(s, msgs[..i]).divider <= 1 ==> Credit(s, msgs, a) >= Current(s, msgs[..i]).divider - 1
    decreases i
  {
    if a < i {
      assert !Turns(s, msgs, i - 1);
      CurrentSnoc(s, msgs, i);
      CreditAtLeast(s, msgs, a, i - 1);
    }
  }

  lemma {:induction false} StretchUnique(s: State, msgs: seq<Msg>, a: nat, b: nat, i: nat)
    requires Stretch(s, msgs, a, i) && Stretch(s, msgs, b, i)
    ensures a == b
  {
  }

  lemma {:induction false} FilledIsDue(s: State, msgs: seq<Msg>, a: nat, i: nat)
    requires Fills(s, msgs, a, i)
    ensures HasDue(s, msgs[..i + 1])
  {
    TakeNext(msgs, i);
    ReachSnoc(s, msgs[..i], msgs[i]);
    ReachCurrent(s, msgs[..i]);
    if !HasDue(s, msgs[..i]) {
      var b := CounterInStretch(s, msgs, i);
      StretchUnique(s, msgs, a, b, i);
    }
  }

  lemma {:induction false} DueStays(s: State, msgs: seq<Msg>, k: nat)
    requires k <= |msgs| && HasDue(s, msgs[..k])
    ensures HasDue(s, msgs)
    decreases |msgs| - k
  {
    if k == |msgs| {
      TakeAll(msgs);
    } else {
      TakeNext(msgs, k);
      ReachSnoc(s, msgs[..k], msgs[k]);
      DueStays(s, msgs, k + 1);
    }
  }

  /** Exactly when some candle trigger is due: between two points at which the
    * counter starts from a new value (the beginning, a new configuration, a forced
    * or a rejected other event) the candle triggers, with what the stretch starts
    * with, reach the divider; or one of them is forced. */
  lemma {:induction false} HasDueIff(s: State, msgs: seq<Msg>)
    ensures HasDue(s, msgs) <==> exists a: nat, i: nat :: Fills(s, msgs, a, i)
  {
    hide HasDue, Fills;
    TakeAll(msgs);
    if HasDue(s, msgs) {
      var a, i := FirstDueFills(s, msgs, |msgs|);
    }
    if a: nat, i: nat :| Fills(s, msgs, a, i) {
      FillsInside(s, msgs, a, i);
      FilledIsDue(s, msgs, a, i);
      DueStays(s, msgs, i + 1);
    }
  }

  lemma {:induction false} FillsInside(s: State, msgs: seq<Msg>, a: nat, i: nat)
    requires Fills(s, msgs, a, i)
    ensures i < |msgs|
  {
  }

  // -------------------------------------------------- the family that starves

  /** `n` unforced candle triggers. */
  function Quiet(n: nat): seq<Msg> {
    if n == 0 then [] else [Event(Trigger(M5, false, true, false, false, false))] + Quiet(n - 1)
  }

  /** `rounds` times: one candle trigger less than the divider, then a forced other event. */
  function Rounds(s: State, other: string, rounds: nat): seq<Msg>
    requires s.divider >= 2
  {
    if rounds == 0 then []
    else Quiet(s.divider - 1) + ([Event(Trigger(other, true, true, false, false, false))] + Rounds(s, other, rounds - 1))
  }

  lemma {:induction false} QuietPasses(s: State, n: nat, rest: seq<Msg>)
    requires s.divider >= 2 && M5 in s.triggers && s.count + n < s.divider
    ensures HasDue(s, Quiet(n) + rest) <==> HasDue(s.(count := s.count + n), rest)
    ensures Candles(s, Quiet(n) + rest) == n + Candles(s.(count := s.count + n), rest)
    decreases n
  {
    if n == 0 {
      assert Quiet(0) + rest == rest;
    } else {
      var m := Event(Trigger(M5, false, true, false, false, false));
      assert (Quiet(n) + rest)[0] == m && (Quiet(n) + rest)[1..] == Quiet(n - 1) + rest;
      QuietPasses(After(s, m), n - 1, rest);
    }
  }

  /** Calm is needed: a forced run on another event starts the cycle over, so with
    * one in every cycle no candle trigger is ever due, however many there are. */
  lemma {:induction false} ForcedRunsStarveCandles(s: State, other: string, rounds: nat)
    requires s.divider >= 2 && s.count == 0 && M5 in s.triggers && other in s.triggers && other != M5
    ensures !HasDue(s, Rounds(s, other, rounds))
    ensures Candles(s, Rounds(s, other, rounds)) >= rounds
  {
    if rounds > 0 {
      var rest := Rounds(s, other, rounds - 1);
      var forced := Event(Trigger(other, true, true, false, false, false));
      var tail := [forced] + rest;
      QuietPasses(s, s.divider - 1, tail);
      assert tail[0] == forced && tail[1..] == rest;
      assert After(s.(count := s.divider - 1), forced) == s;
      ForcedRunsStarveCandles(s, other, rounds - 1);
    }
  }

  // --------------------------------------------------- every d-th, like the composer

  /** Ordinary messages: no new configuration, nothing forced, nothing outside the
    * session, no answer asking for the next candle. */
  predicate Plain(msgs: seq<Msg>) {
    forall m :: m in msgs ==> !m.Config? && (m.Event? ==> !m.t.force && m.t.session && !m.t.asksNext)
  }

  /** The composer's counter: candle triggers seen since it was started. A
    * configuration it cannot convert ends its loop. */
  datatype Composer = Composer(anyCandle: int, counter: nat, triggers: set<string>, stopped: bool)

  function Counts(c: Composer, m: Msg): Composer {
    if c.stopped then c
    else
      match m
      case Config(a, ts) =>
        (match ComposerDivider(a)
         case None => c.(stopped := true)
         case Some(d) => c.(anyCandle := d, triggers := ts))
      case Query => c
      case Event(t) => if t.event == M5 && M5 in c.triggers then c.(counter := c.counter + 1) else c
  }

  predicate Runs(c: Composer, m: Msg)
    requires c.anyCandle >= 1
  {
    && !c.stopped && m.Event? && m.t.event in c.triggers
    && (m.t.event == M5 ==> (c.counter + 1) % c.anyCandle == 0)
  }

  /** The counters tell the same position in the cycle. */
  predicate Agree(s: State, c: Composer) {
    && !c.stopped && c.anyCandle == s.divider >= 1 && c.triggers == s.triggers
    && (s.divider >= 2 ==> s.count == c.counter % c.anyCandle)
  }

  lemma {:induction false} ModStep(n: nat, d: int)
    requires d >= 1
    ensures (n + 1) % d == if n % d + 1 == d then 0 else n % d + 1
  {
    var q, r := n / d, n % d;
    assert n + 1 == d * q + (r + 1);
    if r + 1 == d {
      assert n + 1 == d * (q + 1);
    } else {
      ModUnique(n + 1, d, q, r + 1);
    }
    if r + 1 == d {
      ModUnique(n + 1, d, q + 1, 0);
    }
  }

  lemma {:induction false} ModUnique(n: nat, d: int, q: nat, r: nat)
    requires 0 <= r < d && n == d * q + r
    ensures n % d == r
  {
    var k := q - n / d;
    assert d * k == n % d - r by {
      assert n == d * (n / d) + n % d;
      assert d * (q - n / d) == d * q - d * (n / d);
    }
    if k >= 1 {
      MulAtLeast(d, k);
    } else if k <= -1 {
      MulAtLeast(d, -k);
    }
  }

  lemma {:induction false} MulAtLeast(d: int, k: int)
    requires d >= 1 && k >= 1
    ensures d * k >= d
    ensures d * (0 - k) <= 0 - d
  {
  }

  /** On ordinary messages the agent's reset counter is the composer's counter
    * modulo the divider, and the two consider the same triggers due. */
  lemma {:induction false} AgentRefinesComposer(s: State, c: Composer, m: Msg)
    requires Agree(s, c) && Plain([m])
    ensures Agree(After(s, m), Counts(c, m))
    ensures m.Event? && m.t.event in s.triggers ==> (Due(s, m.t) <==> Runs(c, m))
  {
    assert m in [m];
    ModStep(c.counter, c.anyCandle);
  }

  /** A new configuration keeps the two in step exactly when both read the same
    * divider from it and the composer's count happens to be at the start of a
    * cycle: the agent starts over, the composer does not. A text that is no number
    * means 1 to the agent and the end of the loop to the composer. */
  lemma {:induction false} RefreshKeepsAgreementIff(s: State, c: Composer, a: AnyCandle, triggers: set<string>)
    requires Agree(s, c)
    ensures Agree(After(s, Config(a, triggers)), Counts(c, Config(a, triggers))) <==>
            ComposerDivider(a) == Some(Divider(a)) && (Divider(a) == 1 || c.counter % Divider(a) == 0)
  {
  }

  /** The candle triggers due are exactly every `d`-th one. */
  lemma {:induction false} EveryDth(s: State, msgs: seq<Msg>, t: Trigger)
    requires s.divider >= 1 && s.count == 0 && Plain(msgs + [Event(t)])
    requires t.event == M5 && M5 in s.triggers
    ensures Reach(s, msgs).triggers == s.triggers && Reach(s, msgs).divider == s.divider
    ensures Due(Reach(s, msgs), t) <==> (Candles(s, msgs) + 1) % s.divider == 0
  {
    var c := Composer(s.divider, 0, s.triggers, false);
    PlainRun(s, c, msgs, t);
    AgentRefinesComposer(Reach(s, msgs), Composer(s.divider, Candles(s, msgs), s.triggers, false), Event(t));
  }

  lemma {:induction false} PlainRun(s: State, c: Composer, msgs: seq<Msg>, t: Trigger)
    requires Agree(s, c) && Plain(msgs + [Event(t)])
    ensures Agree(Reach(s, msgs), c.(counter := c.counter + Candles(s, msgs))) && Plain([Event(t)])
    decreases |msgs|
  {
    assert Event(t) in msgs + [Event(t)];
    if msgs != [] {
      assert (msgs + [Event(t)])[0] == msgs[0] && msgs[0] in msgs + [Event(t)];
      assert (msgs + [Event(t)])[1..] == msgs[1..] + [Event(t)];
      AgentRefinesComposer(s, c, msgs[0]);
      PlainRun(After(s, msgs[0]), Counts(c, msgs[0]), msgs[1..], t);
    }
  }

  // ------------------------------------------------------------------- the objects

  /** What the counter display shows for a candle trigger. */
  datatype Shown = Shown(count: nat, every: int, due: bool, paused: bool, session: bool, run: bool)

  /** What becomes of a trigger: paused, or not due, or outside the session, or the model
    * is busy, or it runs, the first that applies. The counter goes up with every candle
    * trigger and starts over when one is due or a run is forced; a due trigger outside
    * the session leaves it one short of due, and a candle run that asks for the next
    * candle leaves it due. */
  ghost predicate Handled(divider: int, count: nat, t: Trigger, after: int, outcome: Outcome) {
    var candle := t.event == M5;
    var due := t.force || !candle || divider <= 1 || count + 1 >= divider;
    && (outcome == Skipped(RuntimePaused) <==> t.paused)
    && (outcome == Skipped(DividerNotReached) <==> !t.paused && !due)
    && (outcome == Skipped(SessionFilter) <==> !t.paused && due && !t.session)
    && (outcome == Skipped(LlmBusy) <==> !t.paused && due && t.session && t.busy)
    && (outcome == Ran <==> !t.paused && due && t.session && !t.busy)
    && var retried := divider > 1 && outcome == Skipped(SessionFilter);
    && var hurried := divider > 1 && candle && outcome == Ran && t.asksNext;
    && (retried ==> after == divider - 1) && (hurried ==> after == divider)
    && (!retried && !hurried ==>
          && (t.force || (candle && divider > 1 && due) ==> after == 0)
          && (!t.force && !candle ==> after == count)
          && (!t.force && candle && (divider <= 1 || !due) ==> after == count + 1))
  }

  /** What the display shows for a candle trigger. */
  ghost predicate Displays(divider: int, count: nat, t: Trigger, shown: Shown) {
    && shown.every == divider && shown.paused == t.paused && shown.session == t.session
    && (shown.due <==> t.force || divider <= 1 || count + 1 >= divider)
    && (shown.run <==> shown.due && !t.paused && t.session)
    && shown.count == if t.force then 0 else if divider <= 1 || count + 1 < divider then count + 1 else divider
  }

  class Agent {
    var divider: int
    var count: nat
    var triggers: set<string>
    ghost var outcomes: seq<Outcome>

    ghost function View(): State
      reads this
    {
      State(divider, count, triggers)
    }

    constructor (anyCandle: AnyCandle, triggers: set<string>)
      ensures View() == State(Divider(anyCandle), 0, triggers) && Inv(View()) && outcomes == []
      ensures Means(anyCandle, divider)
    {
      divider, count, this.triggers, outcomes := Divider(anyCandle), 0, triggers, [];
    }

    method ApplyConfig(anyCandle: AnyCandle, triggers: set<string>)
      modifies this
      ensures View() == After(old(View()), Config(anyCandle, triggers)) && outcomes == old(outcomes)
      ensures Means(anyCandle, divider) && count == 0 && this.triggers == triggers
    {
      this.triggers := triggers;
      divider := Divider(anyCandle);
      count := 0;
    }

    /** `_should_run_for_trigger`, for a trigger that is not forced. */
    method ShouldRunForTrigger(event: string) returns (due: bool, shown: Option<nat>)
      modifies this`count
      ensures due == Due(old(View()), Trigger(event, false, true, false, false, false))
      ensures count == Counted(old(View()), Trigger(event, false, true, false, false, false))
      ensures due <==> event != M5 || divider <= 1 || old(count) + 1 >= divider
      ensures count == if event != M5 then old(count) else if due && divider > 1 then 0 else old(count) + 1
      ensures shown == if event != M5 then None
                       else if old(divider) <= 1 || old(count) + 1 < old(divider) then Some(old(count) + 1)
                       else Some(old(divider))
    {
      if event != M5 {
        return true, None;
      }
      count := count + 1;
      var triggerCount := count;
      if divider <= 1 {
        return true, Some(triggerCount);
      }
      if triggerCount < divider {
        return false, Some(triggerCount);
      }
      count := 0;
      return true, Some(if triggerCount <= divider then triggerCount else divider);
    }

    method MaybeAccelerate(event: string, asksNext: bool)
      modifies this`count
      ensures count == if divider > 1 && event == M5 && asksNext then divider else old(count)
    {
      if divider <= 1 {
        return;
      }
      if event != M5 {
        return;
      }
      if asksNext {
        count := divider;
      }
    }

    /** The trigger branch of the message loop: one outcome for every subscribed
      * trigger. The display promises a run exactly when the model is not busy. */
    method HandleTrigger(t: Trigger) returns (shown: Option<Shown>)
      requires t.event in triggers
      modifies this
      ensures View() == After(old(View()), Event(t))
      ensures outcomes == old(outcomes) + [OutcomeOf(old(View()), t)]
      ensures divider == old(divider) && triggers == old(triggers)
      ensures Handled(divider, old(count), t, count, outcomes[|old(outcomes)|])
      ensures shown.Some? <==> t.event == M5
      ensures shown.Some? ==> Displays(divider, old(count), t, shown.value)
      ensures shown.Some? ==>
                && shown.value.every == divider && shown.value.due == Due(old(View()), t)
                && (divider >= 2 ==> shown.value.count <= divider)
                && (shown.value.run <==> outcomes[|old(outcomes)|] in {Ran, Skipped(LlmBusy)})
    {
      var due, triggerCount := true, None;
      if t.force {
        count := 0;
      } else {
        due, triggerCount := ShouldRunForTrigger(t.event);
      }
      shown := None;
      if t.event == M5 {
        shown := Some(Shown(if triggerCount.Some? then triggerCount.value else 0, divider, due, t.paused, t.session,
                            due && !t.paused && t.session));
      }
      if t.paused {
        outcomes := outcomes + [Skipped(RuntimePaused)];
        return;
      }
      if !due {
        outcomes := outcomes + [Skipped(DividerNotReached)];
        return;
      }
      if !t.session {
        if due && divider > 1 {
          count := divider - 1;
        }
        outcomes := outcomes + [Skipped(SessionFilter)];
        return;
      }
      if t.busy {
        outcomes := outcomes + [Skipped(LlmBusy)];
        return;
      }
      outcomes := outcomes + [Ran];
      MaybeAccelerate(t.event, t.asksNext);
    }
  }

  /** The state of a composer after some messages. */
  function ComposerAfter(c: Composer, msgs: seq<Msg>): (after: Composer)
    ensures c.anyCandle >= 1 ==> after.anyCandle >= 1
  {
    if msgs == [] then c else Counts(ComposerAfter(c, msgs[..|msgs| - 1]), msgs[|msgs| - 1])
  }

  /** For every message handled, whether it starts a run; nothing is handled from
    * the message on that stops the composer. */
  function ComposerRuns(c: Composer, msgs: seq<Msg>): seq<bool>
    requires c.anyCandle >= 1
  {
    if msgs == [] then []
    else
      var init, m := msgs[..|msgs| - 1], msgs[|msgs| - 1];
      ComposerRuns(c, init) +
      if ComposerAfter(c, msgs).stopped then [] else [Runs(ComposerAfter(c, init), m)]
  }

  lemma {:induction false} StoppedHandlesNothing(c: Composer, msgs: seq<Msg>, later: seq<Msg>)
    requires c.anyCandle >= 1 && ComposerAfter(c, msgs).stopped
    ensures ComposerAfter(c, msgs + later).stopped && ComposerRuns(c, msgs + later) == ComposerRuns(c, msgs)
  {
    if later == [] {
      assert msgs + later == msgs;
    } else {
      DropLastConcat(msgs, later);
      StoppedHandlesNothing(c, msgs, later[..|later| - 1]);
    }
  }

  /** The composer between two messages: a configuration it can convert changes divider
    * and subscriptions but not the counter, a candle trigger it listens to is counted,
    * and a run starts for another event, or for the candle that fills the divider. */
  ghost predicate Handles(c: Composer, m: Msg, d: Composer, run: bool) {
    && !c.stopped && !d.stopped
    && match m
       case Config(a, ts) => Converts(a, d.anyCandle) && d.triggers == ts && d.counter == c.counter && !run
       case Query => d == c && !run
       case Event(t) =>
         && d.anyCandle == c.anyCandle && d.triggers == c.triggers
         && d.counter == (if t.event == M5 && M5 in c.triggers then c.counter + 1 else c.counter)
         && (run <==> t.event in c.triggers && (t.event == M5 ==> d.anyCandle >= 1 && d.counter % d.anyCandle == 0))
  }

  /** The runs are those of the messages up to the first configuration that cannot be
    * converted, and of all where there is none. */
  ghost predicate Composed(divider: int, triggers: set<string>, msgs: seq<Msg>, runs: seq<bool>, failed: bool) {
    exists cs: seq<Composer> ::
      && |cs| == |runs| + 1 && |runs| <= |msgs| && cs[0] == Composer(divider, 0, triggers, false)
      && (forall i :: 0 <= i < |runs| ==> Handles(cs[i], msgs[i], cs[i + 1], runs[i]))
      && (failed <==> |runs| < |msgs|)
      && (failed ==> msgs[|runs|].Config? && !Convertible(msgs[|runs|].anyCandle))
  }

  lemma {:induction false} CountsHandles(c: Composer, m: Msg)
    requires c.anyCandle >= 1 && !c.stopped
    ensures Counts(c, m).stopped <==> m.Config? && !Convertible(m.anyCandle)
    ensures !Counts(c, m).stopped ==> Handles(c, m, Counts(c, m), Runs(c, m))
  {
    if m.Config? {
      DividerMeans(m.anyCandle);
    }
  }

  lemma {:induction false} ComposerHandles(c: Composer, msgs: seq<Msg>) returns (cs: seq<Composer>)
    requires c.anyCandle >= 1 && !c.stopped
    ensures var runs, last := ComposerRuns(c, msgs), ComposerAfter(c, msgs);
            && |cs| == |runs| + 1 && |runs| <= |msgs| && cs[0] == c
            && (forall i :: 0 <= i < |runs| ==> Handles(cs[i], msgs[i], cs[i + 1], runs[i]))
            && (last.stopped <==> |runs| < |msgs|)
            && (if last.stopped then msgs[|runs|].Config? && !Convertible(msgs[|runs|].anyCandle)
                else cs[|runs|] == last)
  {
    hide Handles, Counts, Runs, Convertible;
    if msgs == [] {
      cs := [c];
    } else {
      var init, m := msgs[..|msgs| - 1], msgs[|msgs| - 1];
      cs := ComposerHandles(c, init);
      var before := ComposerAfter(c, init);
      assert forall i :: 0 <= i < |init| ==> init[i] == msgs[i];
      StoppedStays(before, m);
      if !before.stopped {
        CountsHandles(before, m);
        if !Counts(before, m).stopped {
          cs := cs + [Counts(before, m)];
        }
      }
    }
  }

  lemma {:induction false} LoopComposes(divider: int, triggers: set<string>, msgs: seq<Msg>)
    requires divider >= 1
    ensures var c := Composer(divider, 0, triggers, false);
            Composed(divider, triggers, msgs, ComposerRuns(c, msgs), ComposerAfter(c, msgs).stopped)
  {
    hide Handles, ComposerRuns, ComposerAfter;
    var cs := ComposerHandles(Composer(divider, 0, triggers, false), msgs);
  }

  lemma {:induction false} StoppedStays(c: Composer, m: Msg)
    ensures c.stopped ==> Counts(c, m).stopped
  {
  }

  /** The composer's message loop; a new configuration does not reset its counter,
    * and one it cannot convert ends the loop. */
  method ComposerLoop(divider: int, triggers: set<string>, msgs: seq<Msg>) returns (runs: seq<bool>, failed: bool)
    requires divider >= 1
    ensures var c := Composer(divider, 0, triggers, false);
            runs == ComposerRuns(c, msgs) && failed == ComposerAfter(c, msgs).stopped
    ensures Composed(divider, triggers, msgs, runs, failed)
  {
    hide Composed;
    LoopComposes(divider, triggers, msgs);
    var every, listens, counter := divider, triggers, 0;
    ghost var start := Composer(divider, 0, triggers, false);
    runs, failed := [], false;
    var i := 0;
    while i < |msgs|
      invariant i <= |msgs| && every >= 1
      invariant ComposerAfter(start, msgs[..i]) == Composer(every, counter, listens, false)
      invariant runs == ComposerRuns(start, msgs[..i])
    {
      TakeNext(msgs, i);
      var m := msgs[i];
      i := i + 1;
      match m
      case Config(a, ts) =>
        var d := ComposerDivider(a);
        if d.None? {
          StoppedHandlesNothing(start, msgs[..i], msgs[i..]);
          SplitAt(msgs, i);
          assert runs + [] == runs;
          return runs, true;
        }
        every, listens := d.value, ts;
        runs := runs + [false];
      case Query =>
        runs := runs + [false];
      case Event(t) =>
        if t.event !in listens {
          runs := runs + [false];
          continue;
        }
        if t.event == M5 {
          counter := counter + 1;
          if counter % every != 0 {
            runs := runs + [false];
            continue;
          }
        }
        runs := runs + [true];
    }
    TakeAll(msgs);
  }
}
