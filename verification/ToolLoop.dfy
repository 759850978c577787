/** The agent's conversation with a model that may call tools: a bounded loop with
  * a reminder budget. */
module ToolLoop {
  import opened Wrappers
  import opened Seqs

  const MAX_REMINDERS: nat := 2

  datatype Value = Null | Text(text: string)

  /** A tool call; None stands for arguments that are not an object. */
  datatype ToolCall = ToolCall(id: string, name: string, arguments: Option<map<string, Value>>)

  datatype ToolResult = ToolResult(callId: string, name: string, content: string, isError: bool)

  /** A required call: the tool, and for some argument names the values allowed
    * (None where the configuration holds something that is not a list). */
  datatype Requirement = Requirement(tool: string, matching: seq<(string, Option<seq<Value>>)>, nudge: string)

  datatype Message =
    | Prior(role: string, content: string)
    | User(text: string)
    | Assistant(content: string, calls: seq<ToolCall>)
    | Results(results: seq<ToolResult>)

  datatype Response = Response(content: string, calls: seq<ToolCall>, stopReason: string, input: int, output: int)

  /** What the loop depends on: its configuration, the model (which may fail), the
    * tools, and the final schema-bound call, if one is configured. */
  datatype Setup = Setup(
    maxTurns: int,
    required: seq<Requirement>,
    llm: (nat, seq<Message>) -> Option<Response>,
    tools: Option<ToolCall -> (string, bool)>,
    structured: Option<seq<Message> -> Option<Response>>)

  datatype Status = Running | Stopped | Crashed

  datatype State = State(
    turn: nat,
    messages: seq<Message>,
    calls: seq<Response>,
    tokens: int,
    text: string,
    executed: seq<ToolCall>,
    names: seq<string>,
    executions: nat,
    reminded: seq<Response>,
    status: Status)

  datatype Report = Report(text: string, tokens: int, names: seq<string>, enforced: bool)

  // --------------------------------------------------------------- required calls

  predicate WantsTools(r: Response) {
    r.stopReason == "tool_use" && r.calls != []
  }

  function Argument(call: ToolCall, key: string): Value {
    if call.arguments.Some? && key in call.arguments.value then call.arguments.value[key] else Null
  }

  /** The call is to the required tool, and each restricted argument has an allowed value. */
  predicate Matches(call: ToolCall, q: Requirement) {
    && call.name == q.tool
    && forall i :: 0 <= i < |q.matching| && q.matching[i].1.Some? ==>
         Argument(call, q.matching[i].0) in q.matching[i].1.value
  }

  /** `_tool_call_matches_requirement`. */
  method ToolCallMatches(call: ToolCall, q: Requirement) returns (ok: bool)
    ensures ok == Matches(call, q)
    ensures ok <==>
              && call.name == q.tool
              && forall i :: 0 <= i < |q.matching| && q.matching[i].1.Some? ==>
                   var given, key, allowed := call.arguments, q.matching[i].0, q.matching[i].1.value;
                   if given.Some? && key in given.value then given.value[key] in allowed else Null in allowed
  {
    if call.name != q.tool {
      return false;
    }
    var i := 0;
    while i < |q.matching|
      invariant i <= |q.matching|
      invariant forall k :: 0 <= k < i && q.matching[k].1.Some? ==>
                  Argument(call, q.matching[k].0) in q.matching[k].1.value
    {
      if q.matching[i].1.Some? && Argument(call, q.matching[i].0) !in q.matching[i].1.value {
        return false;
      }
      i := i + 1;
    }
    return true;
  }

  predicate Met(q: Requirement, executed: seq<ToolCall>) {
    exists c :: c in executed && Matches(c, q)
  }

  /** The requirements no executed call meets, in order. */
  function Unmet(required: seq<Requirement>, executed: seq<ToolCall>): (unmet: seq<Requirement>)
    ensures forall q :: q in unmet <==> q in required && !Met(q, executed)
  {
    if required == [] then []
    else if Met(required[0], executed) then Unmet(required[1..], executed)
    else [required[0]] + Unmet(required[1..], executed)
  }

  /** One line per missing call. */
  function Nudge(unmet: seq<Requirement>): string {
    if unmet == [] then ""
    else
      (if unmet[0].nudge != "" then unmet[0].nudge
       else "Please call the tool '" + unmet[0].tool + "' correctly before you finish.") +
      (if |unmet| == 1 then "" else "\n" + Nudge(unmet[1..]))
  }

  // ------------------------------------------------------------------- one turn

  function ResultOf(tools: ToolCall -> (string, bool), c: ToolCall): ToolResult {
    ToolResult(c.id, c.name, tools(c).0, tools(c).1)
  }

  /** One result per call, in the order of the calls. */
  function ExecuteAll(tools: ToolCall -> (string, bool), calls: seq<ToolCall>): seq<ToolResult> {
    if calls == [] then [] else ExecuteAll(tools, calls[..|calls| - 1]) + [ResultOf(tools, calls[|calls| - 1])]
  }

  function Names(results: seq<ToolResult>): seq<string> {
    if results == [] then [] else Names(results[..|results| - 1]) + [results[|results| - 1].name]
  }

  function Heard(s: State, r: Response): State {
    s.(turn := s.turn + 1, calls := s.calls + [r], tokens := s.tokens + r.input + r.output, text := r.content)
  }

  function Turn(c: Setup, s: State): State {
    match c.llm(s.turn, s.messages)
    case None => s.(status := Crashed)
    case Some(r) =>
      var t := Heard(s, r);
      if !WantsTools(r) then
        var unmet := Unmet(c.required, s.executed);
        if unmet != [] && |s.reminded| < MAX_REMINDERS then
          t.(messages := s.messages + [Assistant(r.content, r.calls), User(Nudge(unmet))],
             reminded := s.reminded + [r])
        else t.(status := Stopped)
      else if s.turn >= c.maxTurns || c.tools.None? then t.(status := Stopped)
      else
        var results := ExecuteAll(c.tools.value, r.calls);
        t.(messages := s.messages + [Assistant(r.content, r.calls), Results(results)],
           executed := s.executed + r.calls, names := s.names + Names(results), executions := s.executions + 1)
  }

  function Run(c: Setup, s: State): State
    decreases c.maxTurns + 1 - s.turn, s.status.Running?
  {
    if s.status != Running || s.turn > c.maxTurns then s else Run(c, Turn(c, s))
  }

  /** The history entries that say something. */
  function Kept(history: seq<Message>): seq<Message> {
    if history == [] then []
    else
      var h := history[|history| - 1];
      Kept(history[..|history| - 1]) + if h.Prior? && h.content != "" then [h] else []
  }

  function Opening(history: seq<Message>, user: string): seq<Message> {
    Kept(history) + [User(user)]
  }

  function Start(history: seq<Message>, user: string): State {
    State(0, Opening(history, user), [], 0, "", [], [], 0, [], Running)
  }

  /** What is returned, and whether the cycle is reported incomplete; None when a
    * model call failed. */
  function Finish(c: Setup, s: State): Option<Report> {
    if s.status.Crashed? then None
    else
      match c.structured
      case None => Some(Report(s.text, s.tokens, s.names, false))
      case Some(call) =>
        var r := call(s.messages);
        if r.None? then None
        else Some(Report(r.value.content, s.tokens + r.value.input + r.value.output, s.names, true))
  }

  /** The required calls reported missing when the loop is done, before the
    * schema-bound call is made. */
  function Incomplete(c: Setup, s: State): seq<Requirement> {
    if s.status.Crashed? then [] else Unmet(c.required, s.executed)
  }

  // ------------------------------------------------------------------ properties

  function Tokens(calls: seq<Response>): int {
    if calls == [] then 0
    else Tokens(calls[..|calls| - 1]) + calls[|calls| - 1].input + calls[|calls| - 1].output
  }

  /** The results are those of the calls, one for each, in order. */
  predicate ResultsFor(calls: seq<ToolCall>, results: seq<ToolResult>) {
    |results| == |calls| &&
    forall i :: 0 <= i < |calls| ==> results[i].callId == calls[i].id && results[i].name == calls[i].name
  }

  /** The reply to an assistant turn: the results of its calls, or a reminder. */
  predicate Reply(a: Message, reply: Message) {
    a.Assistant? && (reply.User? || (reply.Results? && a.calls != [] && ResultsFor(a.calls, reply.results)))
  }

  /** Assistant turns and their replies, alternating. */
  predicate Exchanges(msgs: seq<Message>) {
    msgs == [] ||
    (|msgs| >= 2 && Exchanges(msgs[..|msgs| - 2]) && Reply(msgs[|msgs| - 2], msgs[|msgs| - 1]))
  }

  /** The calls that were answered with results, in order. */
  function AnsweredCalls(msgs: seq<Message>): seq<ToolCall> {
    if |msgs| < 2 then []
    else
      AnsweredCalls(msgs[..|msgs| - 2]) +
      if msgs[|msgs| - 1].Results? && msgs[|msgs| - 2].Assistant? then msgs[|msgs| - 2].calls else []
  }

  /** Every assistant turn that calls tools is followed by the results. */
  predicate AllAnswered(msgs: seq<Message>) {
    |msgs| < 2 ||
    (AllAnswered(msgs[..|msgs| - 2]) &&
     (msgs[|msgs| - 2].Assistant? && msgs[|msgs| - 2].calls != [] ==> msgs[|msgs| - 1].Results?))
  }

  predicate NoCalls(rs: seq<Response>) {
    rs == [] || (NoCalls(rs[..|rs| - 1]) && rs[|rs| - 1].calls == [])
  }

  function NamesOf(calls: seq<ToolCall>): seq<string> {
    if calls == [] then [] else NamesOf(calls[..|calls| - 1]) + [calls[|calls| - 1].name]
  }

  /** The loop stops when the model is done and nothing is missing or the reminders
    * are used up, or when it still wants tools but turns or tools have run out. */
  predicate StoppedFor(c: Setup, s: State) {
    s.calls != [] &&
    if WantsTools(s.calls[|s.calls| - 1]) then |s.calls| == c.maxTurns + 1 || c.tools.None?
    else Unmet(c.required, s.executed) == [] || |s.reminded| == MAX_REMINDERS
  }

  /** What every turn keeps; `opening` is the conversation up to the first user message. */
  predicate Inv(c: Setup, opening: seq<Message>, s: State) {
    && opening <= s.messages
    && var talk := s.messages[|opening|..];
    && Exchanges(talk)
    && s.executed == AnsweredCalls(talk)
    && (AllAnswered(talk) <==> NoCalls(s.reminded))
    && s.names == NamesOf(s.executed)
    && s.tokens == Tokens(s.calls)
    && s.text == (if s.calls == [] then "" else s.calls[|s.calls| - 1].content)
    && (!s.status.Crashed? ==> |s.calls| == s.turn) && |s.calls| <= s.turn && (s.turn > 0 ==> s.turn <= c.maxTurns + 1)
    && (s.executions > 0 ==> s.executions <= c.maxTurns) && s.executions + |s.reminded| <= s.turn
    && |s.reminded| <= MAX_REMINDERS
    && |talk| == 2 * (s.executions + |s.reminded|)
    && (s.status.Stopped? ==> StoppedFor(c, s))
  }

  lemma {:induction false} TwoMore(msgs: seq<Message>, a: Message, b: Message)
    ensures Exchanges(msgs + [a, b]) <==> Exchanges(msgs) && Reply(a, b)
    ensures AnsweredCalls(msgs + [a, b]) == AnsweredCalls(msgs) + if b.Results? && a.Assistant? then a.calls else []
    ensures AllAnswered(msgs + [a, b]) <==> AllAnswered(msgs) && (a.Assistant? && a.calls != [] ==> b.Results?)
  {
    assert (msgs + [a, b])[..|msgs + [a, b]| - 2] == msgs;
  }

  lemma {:induction false} OneMoreResponse(calls: seq<Response>, r: Response)
    ensures Tokens(calls + [r]) == Tokens(calls) + r.input + r.output
    ensures NoCalls(calls + [r]) <==> NoCalls(calls) && r.calls == []
  {
    assert (calls + [r])[..|calls + [r]| - 1] == calls;
  }

  lemma {:induction false} ResultsAppend(calls: seq<ToolCall>, results: seq<ToolResult>, c: ToolCall, r: ToolResult)
    requires ResultsFor(calls, results) && r.callId == c.id && r.name == c.name
    ensures ResultsFor(calls + [c], results + [r])
    ensures Names(results + [r]) == Names(results) + [r.name]
  {
    assert (results + [r])[..|results + [r]| - 1] == results;
  }

  lemma {:induction false} ExecutedInOrder(tools: ToolCall -> (string, bool), calls: seq<ToolCall>)
    ensures ResultsFor(calls, ExecuteAll(tools, calls))
    ensures Names(ExecuteAll(tools, calls)) == NamesOf(calls)
  {
    hide ResultsFor;
    if calls == [] {
      NothingExecuted();
    } else {
      var init, last := calls[..|calls| - 1], calls[|calls| - 1];
      ExecutedInOrder(tools, init);
      ResultsAppend(init, ExecuteAll(tools, init), last, ResultOf(tools, last));
      assert calls == init + [last];
    }
  }

  lemma {:induction false} NothingExecuted()
    ensures ResultsFor([], [])
  {
  }

  lemma {:induction false} NamesConcat(x: seq<ToolCall>, y: seq<ToolCall>)
    ensures NamesOf(x + y) == NamesOf(x) + NamesOf(y)
  {
    if y == [] {
      assert x + y == x;
    } else {
      DropLastConcat(x, y);
      NamesConcat(x, y[..|y| - 1]);
    }
  }

  lemma {:induction false} Extended(opening: seq<Message>, msgs: seq<Message>, a: Message, b: Message)
    requires opening <= msgs
    ensures opening <= msgs + [a, b] && (msgs + [a, b])[|opening|..] == msgs[|opening|..] + [a, b]
  {
  }

  lemma {:induction false} TurnKeepsInv(c: Setup, opening: seq<Message>, s: State)
    requires Inv(c, opening, s) && s.status.Running? && s.turn <= c.maxTurns
    ensures Inv(c, opening, Turn(c, s))
  {
    hide Exchanges, AnsweredCalls, AllAnswered, NoCalls, NamesOf, Tokens, ExecuteAll, Names, Unmet, Nudge, ResultsFor;
    var o := c.llm(s.turn, s.messages);
    if o.Some? {
      var r := o.value;
      OneMoreResponse(s.calls, r);
      OneMoreResponse(s.reminded, r);
      var talk := s.messages[|opening|..];
      var a := Assistant(r.content, r.calls);
      if !WantsTools(r) {
        var nudge := User(Nudge(Unmet(c.required, s.executed)));
        TwoMore(talk, a, nudge);
        Extended(opening, s.messages, a, nudge);
        assert s.executed + [] == s.executed;
      } else if s.turn < c.maxTurns && c.tools.Some? {
        var results := ExecuteAll(c.tools.value, r.calls);
        ExecutedInOrder(c.tools.value, r.calls);
        TwoMore(talk, a, Results(results));
        Extended(opening, s.messages, a, Results(results));
        NamesConcat(s.executed, r.calls);
      }
    }
  }

  lemma {:induction false} RunKeepsInv(c: Setup, opening: seq<Message>, s: State)
    requires Inv(c, opening, s)
    ensures Inv(c, opening, Run(c, s))
    decreases c.maxTurns + 1 - s.turn, s.status.Running?
  {
    hide Inv, Turn;
    if s.status == Running && s.turn <= c.maxTurns {
      TurnKeepsInv(c, opening, s);
      TurnCounts(c, s);
      RunKeepsInv(c, opening, Turn(c, s));
    }
  }

  lemma {:induction false} TurnCounts(c: Setup, s: State)
    requires s.status.Running?
    ensures var t := Turn(c, s); t.turn == s.turn + 1 || (t.turn == s.turn && t.status.Crashed?)
  {
  }

  lemma {:induction false} StartInv(c: Setup, history: seq<Message>, user: string)
    ensures Inv(c, Opening(history, user), Start(history, user))
  {
  }

  lemma {:induction false} LoopInv(c: Setup, history: seq<Message>, user: string)
    ensures Inv(c, Opening(history, user), Run(c, Start(history, user)))
  {
    hide *;
    StartInv(c, history, user);
    RunKeepsInv(c, Opening(history, user), Start(history, user));
  }

  /** At most `maxTurns + 1` model calls, `maxTurns` rounds of tools and two
    * reminders; and the tokens are those of all calls. */
  lemma {:induction false} LoopIsBounded(c: Setup, history: seq<Message>, user: string)
    ensures var s, n := Run(c, Start(history, user)), if c.maxTurns < 0 then 0 else c.maxTurns;
            && |s.calls| <= (if c.maxTurns < 0 then 0 else n + 1) && s.executions <= n && |s.reminded| <= MAX_REMINDERS
            && s.tokens == Tokens(s.calls) && s.names == NamesOf(s.executed)
            && (s.status.Stopped? ==> StoppedFor(c, s))
  {
    hide Run, Start, Opening, Exchanges, AnsweredCalls, AllAnswered, NoCalls, NamesOf, Tokens, StoppedFor;
    LoopInv(c, history, user);
  }

  /** After the first user message, assistant turns and replies alternate: a turn
    * that is executed is followed directly by the results of its calls. Every turn
    * with tool calls gets its results exactly when no reminder answered a response
    * that carried calls without stopping for them. */
  lemma {:induction false} HistoryShape(c: Setup, history: seq<Message>, user: string)
    ensures var s, o := Run(c, Start(history, user)), Opening(history, user);
            && o <= s.messages && Exchanges(s.messages[|o|..])
            && s.executed == AnsweredCalls(s.messages[|o|..])
            && (AllAnswered(s.messages[|o|..]) <==> NoCalls(s.reminded))
  {
    hide Run, Start, Opening, Exchanges, AnsweredCalls, AllAnswered, NoCalls, NamesOf, Tokens, StoppedFor;
    LoopInv(c, history, user);
  }

  /** In an exchange the roles alternate, position by position. */
  lemma {:induction false} ExchangesAlternate(msgs: seq<Message>, i: nat)
    requires Exchanges(msgs) && i < |msgs|
    ensures |msgs| % 2 == 0 && (msgs[i].Assistant? <==> i % 2 == 0) && (i % 2 == 1 ==> msgs[i].User? || msgs[i].Results?)
  {
    if i < |msgs| - 2 {
      ExchangesAlternate(msgs[..|msgs| - 2], i);
    } else if |msgs| > 2 {
      ExchangesAlternate(msgs[..|msgs| - 2], 0);
    }
  }

  /** The cycle is reported incomplete exactly when the model did not fail in the loop
    * and some required call matches none of the calls that were executed; also when
    * the schema-bound call that follows fails and there is no answer. */
  lemma {:induction false} IncompleteIff(c: Setup, history: seq<Message>, user: string)
    ensures var s, o := Run(c, Start(history, user)), Opening(history, user);
            && o <= s.messages
            && (Incomplete(c, s) != [] <==>
                  && !s.status.Crashed?
                  && exists q :: q in c.required &&
                                 forall call :: call in AnsweredCalls(s.messages[|o|..]) ==> !Matches(call, q))
            && (Finish(c, s).Some? <==>
                  !s.status.Crashed? && (c.structured.Some? ==> c.structured.value(s.messages).Some?))
  {
    hide Run, Start, Opening, Exchanges, AnsweredCalls, AllAnswered, NoCalls, NamesOf, Tokens, StoppedFor, Matches;
    LoopInv(c, history, user);
    var s := Run(c, Start(history, user));
    var missing := Unmet(c.required, s.executed);
    if missing != [] {
      assert missing[0] in missing;
    }
  }

  /** The report gives the last answer and the tokens of all calls, the
    * schema-bound one included where there is one. */
  lemma {:induction false} ReportAddsUp(c: Setup, history: seq<Message>, user: string)
    ensures var s := Run(c, Start(history, user));
            Finish(c, s).Some? ==>
              var r, extra := Finish(c, s).value, if c.structured.None? then None else c.structured.value(s.messages);
              var all := s.calls + if extra.Some? then [extra.value] else [];
              && r.tokens == Tokens(all)
              && r.text == (if all == [] then "" else all[|all| - 1].content)
              && r.names == NamesOf(s.executed)
              && (r.enforced <==> extra.Some?)
  {
    hide Run, Start, Opening, Exchanges, AnsweredCalls, AllAnswered, NoCalls, NamesOf, Tokens, StoppedFor, Unmet;
    LoopInv(c, history, user);
    var s := Run(c, Start(history, user));
    assert s.calls + [] == s.calls;
    if c.structured.Some? && c.structured.value(s.messages).Some? {
      OneMoreResponse(s.calls, c.structured.value(s.messages).value);
    }
  }

  /** An unanswered tool call: a model that reports a call but stops for another
    * reason is reminded, and the next request carries the call without a result. */
  lemma {:induction false} ReminderLeavesCallOpen(c: Setup, s: State, r: Response)
    requires c.llm(s.turn, s.messages) == Some(r) && r.calls != [] && r.stopReason != "tool_use"
    requires Unmet(c.required, s.executed) != [] && |s.reminded| < MAX_REMINDERS
    ensures exists nudge :: Turn(c, s).messages == s.messages + [Assistant(r.content, r.calls), User(nudge)]
    ensures !AllAnswered(Turn(c, s).messages)
  {
    TwoMore(s.messages, Assistant(r.content, r.calls), User(Nudge(Unmet(c.required, s.executed))));
  }

  // ------------------------------------------------------- the loop, told turn by turn

  predicate Says(m: Message) {
    m.Prior? && m.content != ""
  }

  /** No executed call matches the requirement. */
  function Lacking(executed: seq<ToolCall>): Requirement -> bool {
    (q: Requirement) => forall call :: call in executed ==> !Matches(call, q)
  }

  /** The conversation starts with the history entries that say something and the message. */
  ghost predicate Begins(s: State, history: seq<Message>, user: string) {
    && s.messages != [] && s.messages[|s.messages| - 1] == User(user)
    && Keeps(Says, history, s.messages[..|s.messages| - 1])
    && s.turn == 0 && s.calls == [] && s.tokens == 0 && s.text == "" && s.executed == [] && s.names == []
    && s.executions == 0 && s.reminded == [] && s.status.Running?
  }

  /** The calls are executed in order and answered, each with its own result. */
  ghost predicate Executes(tools: ToolCall -> (string, bool), r: Response, s: State, t: State) {
    && |t.messages| == |s.messages| + 2 && s.messages <= t.messages
    && var a, b := t.messages[|s.messages|], t.messages[|s.messages| + 1];
    && a == Assistant(r.content, r.calls)
    && b.Results? && |b.results| == |r.calls|
    && (forall i :: 0 <= i < |r.calls| ==>
          var answer := tools(r.calls[i]);
          b.results[i] == ToolResult(r.calls[i].id, r.calls[i].name, answer.0, answer.1))
    && t.executed == s.executed + r.calls && t.executions == s.executions + 1
    && s.names <= t.names && |t.names| == |s.names| + |r.calls|
    && (forall i :: 0 <= i < |r.calls| ==> t.names[|s.names|..][i] == r.calls[i].name)
    && t.reminded == s.reminded && t.status.Running?
  }

  /** The text is one line for each requirement, in order, with line breaks between. */
  ghost predicate Lines(text: string, unmet: seq<Requirement>) {
    if unmet == [] then text == ""
    else
      var q := unmet[0];
      var line := if q.nudge != "" then q.nudge
                  else "Please call the tool '" + q.tool + "' correctly before you finish.";
      if |unmet| == 1 then text == line
      else
        line + "\n" <= text && Lines(text[|line| + 1..], unmet[1..])
  }

  /** A reminder of exactly the required calls that are missing. */
  ghost predicate Reminds(c: Setup, r: Response, s: State, t: State) {
    && |t.messages| == |s.messages| + 2 && s.messages <= t.messages
    && t.messages[|s.messages|] == Assistant(r.content, r.calls)
    && t.messages[|s.messages| + 1].User?
    && (exists unmet :: Keeps(Lacking(s.executed), c.required, unmet) && Lines(t.messages[|s.messages| + 1].text, unmet))
    && t.executed == s.executed && t.executions == s.executions && t.names == s.names
    && t.reminded == s.reminded + [r] && t.status.Running?
  }

  ghost predicate Stops(s: State, t: State) {
    && t.status.Stopped? && t.messages == s.messages && t.executed == s.executed && t.executions == s.executions
    && t.names == s.names && t.reminded == s.reminded
  }

  /** One turn: the model's tool calls are executed while turns are left; an answer is
    * final unless a required call is missing and two reminders have not been sent. */
  ghost predicate Steps(c: Setup, s: State, t: State) {
    var answer := c.llm(s.turn, s.messages);
    if answer.None? then t == s.(status := Crashed)
    else
      var r := answer.value;
      var wants := r.stopReason == "tool_use" && r.calls != [];
      && t.turn == s.turn + 1 && t.calls == s.calls + [r]
      && t.tokens == s.tokens + r.input + r.output && t.text == r.content
      && if wants && s.turn < c.maxTurns && c.tools.Some? then Executes(c.tools.value, r, s, t)
         else if !wants && |s.reminded| < 2 && exists q :: q in c.required && Lacking(s.executed)(q)
         then Reminds(c, r, s, t)
         else Stops(s, t)
  }

  /** A run of the loop: turns follow each other while the model is not done and turns
    * are left. */
  ghost predicate Follows(c: Setup, states: seq<State>) {
    && states != []
    && (forall i :: 0 <= i < |states| - 1 ==>
          states[i].status.Running? && states[i].turn <= c.maxTurns && Steps(c, states[i], states[i + 1]))
    && var last := states[|states| - 1]; !last.status.Running? || last.turn > c.maxTurns
  }

  /** What is returned when the loop is done. */
  ghost predicate Reported(c: Setup, s: State, report: Option<Report>, incomplete: seq<Requirement>) {
    if s.status.Crashed? then report == None && incomplete == []
    else
      && Keeps(Lacking(s.executed), c.required, incomplete)
      && if c.structured.None? then report == Some(Report(s.text, s.tokens, s.names, false))
         else
           var bound := c.structured.value(s.messages);
           && (bound.None? ==> report == None)
           && (bound.Some? ==>
                 report == Some(Report(bound.value.content, s.tokens + bound.value.input + bound.value.output, s.names,
                                       true)))
  }

  /** Some run of the loop from the first message on leads to the answer. */
  ghost predicate Answers(c: Setup, history: seq<Message>, user: string, report: Option<Report>,
                          incomplete: seq<Requirement>) {
    exists states ::
      && Follows(c, states) && Begins(states[0], history, user)
      && Reported(c, states[|states| - 1], report, incomplete)
  }

  lemma {:induction false} KeptSays(history: seq<Message>)
    ensures Keeps(Says, history, Kept(history))
  {
    hide Keeps;
    if history == [] {
      KeepsNone(Says);
    } else {
      var init, h := history[..|history| - 1], history[|history| - 1];
      KeptSays(init);
      KeepsNext(Says, init, Kept(init), h);
      assert init + [h] == history && Kept(init) + [] == Kept(init);
    }
  }

  lemma {:induction false} StartBegins(history: seq<Message>, user: string)
    ensures Begins(Start(history, user), history, user)
  {
    hide Keeps, Kept;
    KeptSays(history);
    assert (Kept(history) + [User(user)])[..|Kept(history)|] == Kept(history);
  }

  lemma {:induction false} UnmetNext(required: seq<Requirement>, q: Requirement, executed: seq<ToolCall>)
    ensures Unmet(required + [q], executed) == Unmet(required, executed) + if Met(q, executed) then [] else [q]
  {
    hide Met;
    if required == [] {
      assert required + [q] == [q] && [q][1..] == [];
    } else {
      UnmetNext(required[1..], q, executed);
      assert (required + [q])[1..] == required[1..] + [q] && (required + [q])[0] == required[0];
    }
  }

  lemma {:induction false} LackingIsUnmet(q: Requirement, executed: seq<ToolCall>)
    ensures Lacking(executed)(q) <==> !Met(q, executed)
  {
    hide Matches;
  }

  lemma {:induction false} UnmetLacks(required: seq<Requirement>, executed: seq<ToolCall>)
    ensures Keeps(Lacking(executed), required, Unmet(required, executed))
  {
    hide Keeps, Unmet, Lacking, Met;
    if required == [] {
      KeepsNone(Lacking(executed));
      NothingUnmet(executed);
    } else {
      var init, q := required[..|required| - 1], required[|required| - 1];
      UnmetLacks(init, executed);
      KeepsNext(Lacking(executed), init, Unmet(init, executed), q);
      LackingIsUnmet(q, executed);
      UnmetNext(init, q, executed);
      assert init + [q] == required && Unmet(init, executed) + [] == Unmet(init, executed);
    }
  }

  lemma {:induction false} NothingUnmet(executed: seq<ToolCall>)
    ensures Unmet([], executed) == []
  {
  }

  lemma {:induction false} NudgeLines(unmet: seq<Requirement>)
    ensures Lines(Nudge(unmet), unmet)
  {
    if |unmet| > 1 {
      NudgeLines(unmet[1..]);
      var q := unmet[0];
      var line := if q.nudge != "" then q.nudge
                  else "Please call the tool '" + q.tool + "' correctly before you finish.";
      AfterLine(line, Nudge(unmet[1..]), Nudge(unmet));
    } else if |unmet| == 1 {
      assert Nudge(unmet) + "" == Nudge(unmet);
    }
  }

  lemma {:induction false} AfterLine(line: string, rest: string, text: string)
    requires text == line + ("\n" + rest)
    ensures line + "\n" <= text && text[|line| + 1..] == rest
  {
    assert text == (line + "\n") + rest;
  }

  /** The result of every call stands at its place. */
  lemma {:induction false} ExecutedAt(tools: ToolCall -> (string, bool), calls: seq<ToolCall>)
    ensures |ExecuteAll(tools, calls)| == |calls|
    ensures forall i :: 0 <= i < |calls| ==> ExecuteAll(tools, calls)[i] == ResultOf(tools, calls[i])
  {
    hide ResultOf;
    if calls != [] {
      var init := calls[..|calls| - 1];
      ExecutedAt(tools, init);
      assert forall i :: 0 <= i < |init| ==> init[i] == calls[i];
    }
  }

  lemma {:induction false} NamesAt(results: seq<ToolResult>)
    ensures |Names(results)| == |results| && forall i :: 0 <= i < |results| ==> Names(results)[i] == results[i].name
  {
    if results != [] {
      var init := results[..|results| - 1];
      NamesAt(init);
      assert forall i :: 0 <= i < |init| ==> init[i] == results[i];
    }
  }

  lemma {:induction false} TurnSteps(c: Setup, s: State)
    requires s.status.Running?
    ensures Steps(c, s, Turn(c, s))
  {
    hide Executes, Reminds, Unmet, Nudge, ExecuteAll, Names, Lacking, Keeps;
    var answer := c.llm(s.turn, s.messages);
    if answer.Some? {
      var r := answer.value;
      if !WantsTools(r) {
        MissingIff(c, s.executed);
        if Unmet(c.required, s.executed) != [] && |s.reminded| < 2 {
          TurnReminds(c, s, r);
        }
      } else if s.turn < c.maxTurns && c.tools.Some? {
        TurnExecutes(c, s, r);
      }
    }
  }

  lemma {:induction false} MissingIff(c: Setup, executed: seq<ToolCall>)
    ensures Unmet(c.required, executed) != [] <==> exists q :: q in c.required && Lacking(executed)(q)
  {
    hide Unmet, Lacking, Met;
    var unmet := Unmet(c.required, executed);
    if unmet != [] {
      assert unmet[0] in unmet;
      LackingIsUnmet(unmet[0], executed);
    }
    if q :| q in c.required && Lacking(executed)(q) {
      LackingIsUnmet(q, executed);
      assert q in unmet;
    }
  }

  lemma {:induction false} TurnReminds(c: Setup, s: State, r: Response)
    requires s.status.Running? && c.llm(s.turn, s.messages) == Some(r) && !WantsTools(r)
    requires Unmet(c.required, s.executed) != [] && |s.reminded| < 2
    ensures Reminds(c, r, s, Turn(c, s))
  {
    hide Unmet, Nudge, Lacking, Keeps, Lines;
    UnmetLacks(c.required, s.executed);
    NudgeLines(Unmet(c.required, s.executed));
  }

  lemma {:induction false} TurnExecutes(c: Setup, s: State, r: Response)
    requires s.status.Running? && c.llm(s.turn, s.messages) == Some(r) && WantsTools(r)
    requires s.turn < c.maxTurns && c.tools.Some?
    ensures Executes(c.tools.value, r, s, Turn(c, s))
  {
    hide ExecuteAll, Names;
    ExecutedAt(c.tools.value, r.calls);
    NamesAt(ExecuteAll(c.tools.value, r.calls));
    var added := Names(ExecuteAll(c.tools.value, r.calls));
    assert (s.names + added)[|s.names|..] == added;
  }

  /** The run of the loop, state by state. */
  lemma {:induction false} RunFollows(c: Setup, s: State) returns (states: seq<State>)
    ensures Follows(c, states) && states[0] == s && states[|states| - 1] == Run(c, s)
    decreases c.maxTurns + 1 - s.turn, s.status.Running?
  {
    hide Turn, Steps;
    if s.status.Running? && s.turn <= c.maxTurns {
      TurnCounts(c, s);
      TurnSteps(c, s);
      var rest := RunFollows(c, Turn(c, s));
      states := [s] + rest;
      forall i | 0 <= i < |states| - 1
        ensures states[i].status.Running? && states[i].turn <= c.maxTurns && Steps(c, states[i], states[i + 1])
      {
        assert states[i + 1] == rest[i];
        assert i > 0 ==> states[i] == rest[i - 1];
      }
    } else {
      states := [s];
    }
  }

  lemma {:induction false} FinishReports(c: Setup, s: State)
    ensures Reported(c, s, Finish(c, s), Incomplete(c, s))
  {
    hide Keeps, Lacking, Unmet;
    UnmetLacks(c.required, s.executed);
  }

  lemma {:induction false} RunAnswers(c: Setup, history: seq<Message>, user: string)
    ensures var s := Run(c, Start(history, user)); Answers(c, history, user, Finish(c, s), Incomplete(c, s))
  {
    hide Run, Start, Begins, Follows, Reported, Finish, Incomplete;
    StartBegins(history, user);
    var states := RunFollows(c, Start(history, user));
    FinishReports(c, Run(c, Start(history, user)));
    FollowsSome(c, states);
  }

  lemma {:induction false} FollowsSome(c: Setup, states: seq<State>)
    requires Follows(c, states)
    ensures states != []
  {
  }

  // -------------------------------------------------------------------- the loop

  /** `_run_with_tools`: the answer, and the required calls reported missing. */
  method RunWithTools(c: Setup, history: seq<Message>, user: string)
    returns (report: Option<Report>, incomplete: seq<Requirement>)
    ensures Answers(c, history, user, report, incomplete)
    ensures report == Finish(c, Run(c, Start(history, user)))
    ensures incomplete == Incomplete(c, Run(c, Start(history, user)))
  {
    hide Run, Unmet, Nudge, ExecuteAll, Names, Kept, Matches, Answers;
    RunAnswers(c, history, user);
    var messages := Opening(history, user);
    var tokens, text, turn := 0, "", 0;
    var executed: seq<ToolCall> := [];
    var names: seq<string> := [];
    var reminders := 0;
    ghost var s := Start(history, user);
    while turn <= c.maxTurns
      invariant s.status.Running? && Run(c, s) == Run(c, Start(history, user))
      invariant s.turn == turn && s.messages == messages && s.tokens == tokens && s.text == text
      invariant s.executed == executed && s.names == names && |s.reminded| == reminders
      decreases c.maxTurns + 1 - turn
    {
      RunStep(c, s);
      ghost var next := Turn(c, s);
      var answer := c.llm(turn, messages);
      if answer.None? {
        RunDone(c, next);
        return None, [];
      }
      var r := answer.value;
      tokens := tokens + r.input + r.output;
      text := r.content;
      if !WantsTools(r) {
        var unmet := Unmet(c.required, executed);
        if unmet != [] && reminders < MAX_REMINDERS {
          reminders := reminders + 1;
          messages := messages + [Assistant(r.content, r.calls), User(Nudge(unmet))];
          turn := turn + 1;
          s := next;
          continue;
        }
        s := next;
        break;
      }
      if turn >= c.maxTurns {
        s := next;
        break;
      }
      if c.tools.None? {
        s := next;
        break;
      }
      var results := ExecuteAll(c.tools.value, r.calls);
      names := names + Names(results);
      executed := executed + r.calls;
      messages := messages + [Assistant(r.content, r.calls), Results(results)];
      turn := turn + 1;
      s := next;
    }
    RunDone(c, s);
    incomplete := Unmet(c.required, executed);
    if c.structured.Some? {
      var structured := c.structured.value(messages);
      if structured.None? {
        return None, incomplete;
      }
      text := structured.value.content;
      tokens := tokens + structured.value.input + structured.value.output;
      return Some(Report(text, tokens, names, true)), incomplete;
    }
    return Some(Report(text, tokens, names, false)), incomplete;
  }

  lemma {:induction false} RunStep(c: Setup, s: State)
    requires s.status.Running? && s.turn <= c.maxTurns
    ensures Run(c, s) == Run(c, Turn(c, s))
  {
  }

  lemma {:induction false} RunDone(c: Setup, s: State)
    requires !s.status.Running? || s.turn > c.maxTurns
    ensures Run(c, s) == s
  {
  }
}
