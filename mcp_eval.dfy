/**
 * `run_mcp_eval`: the model drives the station through structured tool calls
 * that an `McpRunner` executes on its engine. The model is its sequence of
 * responses, and running out of responses counts as a failed call.
 *
 * The loop is specified over a game step; the run itself uses `Perform`, the
 * runner's tool step, and the properties of the loop are proved for any step.
 */
module McpEval {
  import opened Wrappers
  import opened Text
  import opened Engine
  import opened Mcp
  import opened Harness

  /** An entry of the tool-call log: the tool's name and the arguments it was
      called with. */
  datatype Entry = Entry(tool: string, args: map<string, string>)

  /** The log entry of a call: arguments that do not decode are logged, and
      passed on, as `{}`. */
  function LogEntry(call: ToolCall): (e: Entry)
    ensures e.tool == call.name
    ensures call.arguments.None? ==> e.args == map[]
    ensures call.arguments.Some? ==> e.args == call.arguments.value
  {
    Entry(call.name, call.arguments.GetOr(map[]))
  }

  /** A response as the loop reads it: a failed call, tool calls to make, a
      non-empty text (and whether its stripped form gives up), or nothing. */
  datatype Read =
    | Failed
    | Called(usage: Usage, calls: seq<ToolCall>)
    | Said(usage: Usage, giveUp: bool)
    | Silent(usage: Usage)

  /** Tool calls take precedence over text; text that is only whitespace is
      still text. */
  function Reading(r: Response): (d: Read)
    ensures d.Failed? <==> r.Failure?
    ensures r.Completion? ==> d.usage == r.usage
    ensures d.Called? <==> r.Completion? && r.calls != []
    ensures d.Called? ==> d.calls == r.calls
    ensures d.Silent? <==> r.Completion? && r.calls == [] && r.content == []
  {
    match r
    case Failure => Failed
    case Completion(content, calls, usage) =>
      if calls != [] then Called(usage, calls)
      else if content != [] then Said(usage, ContainsGiveUp(Strip(content)))
      else Silent(usage)
  }

  /** Every response, read. */
  function Reads(rs: seq<Response>): (ds: seq<Read>)
    ensures |ds| == |rs|
  {
    if rs == [] then [] else Reads(rs[..|rs| - 1]) + [Reading(rs[|rs| - 1])]
  }

  lemma {:induction false} ReadsAt(rs: seq<Response>, i: nat)
    requires i < |rs|
    ensures Reads(rs)[i] == Reading(rs[i])
  {
    if i < |rs| - 1 {
      ReadsAt(rs[..|rs| - 1], i);
    }
  }

  // ---------------------------------------------------------------------------
  // the game side

  /** What one logged call does to the game. */
  type Step = (GameState, Entry) -> GameState

  /** The runner's step, `execute_tool`. A game outside the handlers' domain,
      which no run reaches, is left as it is. */
  function Perform(s: GameState, e: Entry): (t: GameState)
    ensures s.Consistent() ==> t.Consistent()
  {
    if s.Consistent() then ToolStep(s, e.tool, e.args).0 else s
  }

  /** The game after the logged calls, in order. */
  function Replay(step: Step, s: GameState, log: seq<Entry>): GameState
    decreases |log|
  {
    if log == [] then s else step(Replay(step, s, log[..|log| - 1]), log[|log| - 1])
  }

  /** The calls of one response, as far as they were executed. */
  datatype Calls = Calls(game: GameState, log: seq<Entry>, won: bool)

  /** The inner `for` loop over the first calls: each call is logged and
      executed, and once the game is won the calls after it are not. */
  function CallRun(step: Step, s: GameState, calls: seq<ToolCall>): (r: Calls)
    ensures |r.log| <= |calls|
    decreases |calls|
  {
    if calls == [] then Calls(s, [], false)
    else
      var r := CallRun(step, s, calls[..|calls| - 1]);
      if r.won then r
      else
        var e := LogEntry(calls[|calls| - 1]);
        var t := step(r.game, e);
        Calls(t, r.log + [e], t.IsWon())
  }

  /** Once a call has won, the calls after it change nothing. */
  lemma {:induction false} WonSkipsRest(step: Step, s: GameState, calls: seq<ToolCall>, k: nat)
    requires k <= |calls| && CallRun(step, s, calls[..k]).won
    ensures CallRun(step, s, calls) == CallRun(step, s, calls[..k])
    decreases |calls| - k
  {
    if k < |calls| {
      assert calls[..k + 1][..k] == calls[..k];
      WonSkipsRest(step, s, calls, k + 1);
    } else {
      assert calls[..k] == calls;
    }
  }

  /** The game once the runner has started: one move counted, nothing else
      changed (`StartIsLook`). */
  function Begun(): (s: GameState)
    ensures s.Inv() && !s.IsWon()
  {
    CountingKeepsInv(Init());
    Init().(moves := 1)
  }

  /** `start` sends `look` to a fresh engine, which gives `Begun()`. */
  lemma StartIsLook()
    ensures Init().Execute("look").state == Begun()
  {
    LookCountsOneMove(Init());
  }

  // ---------------------------------------------------------------------------
  // the outer loop

  /** The loop's variables between two turns, with the runner's game. */
  datatype Loop = Loop(spent: Spent, game: GameState, log: seq<Entry>, streak: nat)

  const Fresh := Loop(NothingSpent, Begun(), [], 0)

  /** What one pass of the loop does: it stops with a reason, or goes round again. */
  datatype Turn = Stopped(stop: Stop, at: Loop) | Next(after: Loop)

  /** What the run returns: its record and why it stopped. */
  datatype Ended = Ended(record: RunRecord<Entry>, stop: Stop)

  /** One pass of the `while True` loop: the budget check, the model call, then
      the tool calls, the text or the empty response. */
  function McpTurn(step: Step, tokenLimit: int, readings: seq<Read>, l: Loop): (t: Turn)
    requires l.spent.turns <= |readings|
    ensures t.Stopped? ==> t.at.spent.turns <= |readings|
    ensures t.Next? ==> t.after.spent.turns == l.spent.turns + 1 <= |readings|
  {
    if Used(l.spent) >= tokenLimit then Stopped(TokenLimit, l)
    else if l.spent.turns == |readings| || readings[l.spent.turns].Failed? then Stopped(ApiError, l)
    else
      var d := readings[l.spent.turns];
      var counted := l.(spent := Charge(l.spent, d.usage));
      if d.Called? then OnCalls(step, counted, d.calls)
      else if d.Said? then (if d.giveUp then Stopped(GaveUp, counted) else Next(counted.(streak := 0)))
      else OnSilence(counted)
  }

  /** Tool calls reset the streak; the run is won once a call wins the game. */
  function OnCalls(step: Step, l: Loop, calls: seq<ToolCall>): (t: Turn) {
    var r := CallRun(step, l.game, calls);
    var after := l.(game := r.game, log := l.log + r.log, streak := 0);
    if r.won then Stopped(Won, after) else Next(after)
  }

  /** An empty response lengthens the streak; five in a row stop the run. */
  function OnSilence(l: Loop): (t: Turn) {
    var streak := l.streak + 1;
    if streak >= 5 then Stopped(TooManyEmpty, l.(streak := streak)) else Next(l.(streak := streak))
  }

  /** `_finish` with mode "mcp": the record of the loop's variables. */
  function Close(model: string, stop: Stop, l: Loop): (e: Ended)
    ensures e.record.won <==> stop == Won
    ensures e.record.gaveUp <==> stop == GaveUp
  {
    Ended(Finish(model, "mcp", stop == Won, stop == GaveUp, l.spent.prompt, l.spent.completion,
                 l.spent.turns, l.log),
          stop)
  }

  /** The record of a closed run holds the loop's counts and log, and its stop. */
  lemma CloseKeeps(model: string, stop: Stop, l: Loop)
    ensures var e := Close(model, stop, l);
            && e.stop == stop && e.record.commands == l.log
            && Spent(e.record.turns, e.record.promptTokens, e.record.completionTokens) == l.spent
            && e.record.totalTokens == Used(l.spent)
  {
  }

  /** The rest of a run from the loop state `l`: why it stops, and the loop's
      variables at that point. */
  function McpFrom(step: Step, tokenLimit: int, readings: seq<Read>, l: Loop): (Stop, Loop)
    requires l.spent.turns <= |readings|
    decreases |readings| - l.spent.turns
  {
    match McpTurn(step, tokenLimit, readings, l)
    case Stopped(stop, at) => (stop, at)
    case Next(after) => McpFrom(step, tokenLimit, readings, after)
  }

  /** A pass that goes round again leaves the rest of the run to the next one. */
  lemma McpFromTurn(step: Step, tokenLimit: int, readings: seq<Read>, l: Loop)
    requires l.spent.turns <= |readings|
    ensures var t := McpTurn(step, tokenLimit, readings, l);
            McpFrom(step, tokenLimit, readings, l) == (if t.Stopped? then (t.stop, t.at) else McpFrom(step, tokenLimit, readings, t.after))
  {
  }

  /** A whole MCP-mode run, on the runner's engine. */
  function McpRun(model: string, tokenLimit: int, responses: seq<Response>): Ended {
    var end := McpFrom(Perform, tokenLimit, Reads(responses), Fresh);
    Close(model, end.0, end.1)
  }

  // ---------------------------------------------------------------------------
  // the loops, on the runner

  /** The inner loop over one response's tool calls, on the runner's engine. */
  method ExecuteCalls(runner: McpRunner, calls: seq<ToolCall>) returns (log: seq<Entry>, won: bool)
    requires runner.Valid()
    modifies runner.engine
    ensures runner.Valid()
    ensures Calls(runner.engine.State(), log, won) == CallRun(Perform, old(runner.engine.State()), calls)
  {
    ghost var start := runner.engine.State();
    log, won := [], false;
    var i := 0;
    while i < |calls|
      invariant 0 <= i <= |calls|
      invariant runner.Valid()
      invariant Calls(runner.engine.State(), log, false) == CallRun(Perform, start, calls[..i])
    {
      assert calls[..i + 1][..i] == calls[..i];
      var entry := LogEntry(calls[i]);
      var reply := runner.ExecuteTool(entry.tool, entry.args);
      log := log + [entry];
      if runner.CheckWin() {
        won := true;
        WonSkipsRest(Perform, start, calls, i + 1);
        return;
      }
      i := i + 1;
    }
    assert calls[..i] == calls;
  }

  /** One pass of the loop on the runner. */
  method Pass(runner: McpRunner, tokenLimit: int, responses: seq<Response>, ghost readings: seq<Read>, l: Loop)
    returns (t: Turn)
    requires runner.Valid() && runner.engine.State() == l.game
    requires l.spent.turns <= |responses| == |readings|
    requires l.spent.turns < |responses| ==> readings[l.spent.turns] == Reading(responses[l.spent.turns])
    modifies runner.engine
    ensures runner.Valid()
    ensures t == McpTurn(Perform, tokenLimit, readings, l)
    ensures runner.engine.State() == (if t.Stopped? then t.at.game else t.after.game)
  {
    if Used(l.spent) >= tokenLimit {
      return Stopped(TokenLimit, l);
    }
    if l.spent.turns == |responses| || responses[l.spent.turns].Failure? {
      return Stopped(ApiError, l);
    }
    var response := responses[l.spent.turns];
    var counted := l.(spent := Charge(l.spent, response.usage));
    if response.calls != [] {
      var log, won := ExecuteCalls(runner, response.calls);
      var after := counted.(game := runner.engine.State(), log := l.log + log, streak := 0);
      t := if won then Stopped(Won, after) else Next(after);
    } else if response.content != [] {
      if ContainsGiveUp(Strip(response.content)) {
        t := Stopped(GaveUp, counted);
      } else {
        t := Next(counted.(streak := 0));
      }
    } else {
      var streak := l.streak + 1;
      t := if streak >= 5 then Stopped(TooManyEmpty, counted.(streak := streak)) else Next(counted.(streak := streak));
    }
  }

  /** The opening of `run_mcp_eval`: a fresh runner, started with `look`. */
  method StartRunner() returns (runner: McpRunner)
    ensures fresh(runner.engine) && runner.Valid()
    ensures runner.engine.State() == Begun()
  {
    runner := new McpRunner();
    var opening := runner.Start();
    StartIsLook();
  }

  /** `run_mcp_eval`: a started runner, then the loop until it stops. */
  method RunMcpEval(model: string, tokenLimit: int, responses: seq<Response>) returns (ended: Ended)
    ensures ended == McpRun(model, tokenLimit, responses)
  {
    var runner := StartRunner();
    var l := Fresh;
    ghost var readings := Reads(responses);
    ghost var final := McpFrom(Perform, tokenLimit, readings, Fresh);
    while true
      invariant fresh(runner.engine) && runner.Valid() && runner.engine.State() == l.game
      invariant l.spent.turns <= |responses| == |readings|
      invariant McpFrom(Perform, tokenLimit, readings, l) == final
      decreases |responses| - l.spent.turns
    {
      if l.spent.turns < |responses| {
        ReadsAt(responses, l.spent.turns);
      }
      var t := Pass(runner, tokenLimit, responses, readings, l);
      McpFromTurn(Perform, tokenLimit, readings, l);
      if t.Stopped? {
        return Close(model, t.stop, t.at);
      }
      l := t.after;
    }
  }

  // ---------------------------------------------------------------------------
  // what an MCP-mode run guarantees, for any game step

  /** Replaying `a` and then `b` is replaying `a + b`. */
  lemma {:induction false} ReplayAppend(step: Step, s: GameState, a: seq<Entry>, b: seq<Entry>)
    ensures Replay(step, s, a + b) == Replay(step, Replay(step, s, a), b)
    decreases |b|
  {
    if b == [] {
      assert a + b == a;
    } else {
      assert (a + b)[..|a + b| - 1] == a + b[..|b| - 1];
      ReplayAppend(step, s, a, b[..|b| - 1]);
    }
  }

  /** The inner loop from the game `s` plays what it logs: the game is the replay
      of the log, and it is won exactly when the last logged call won it. */
  predicate CallsPlayedOut(step: Step, s: GameState, r: Calls) {
    && r.game == Replay(step, s, r.log)
    && (r.won <==> r.game.IsWon())
    && (r.won ==> r.log != [] && !Replay(step, s, r.log[..|r.log| - 1]).IsWon())
  }

  lemma {:induction false} CallRunPlays(step: Step, s: GameState, calls: seq<ToolCall>)
    requires !s.IsWon()
    ensures CallsPlayedOut(step, s, CallRun(step, s, calls))
    decreases |calls|
  {
    if calls != [] {
      var init := calls[..|calls| - 1];
      CallRunPlays(step, s, init);
      var r := CallRun(step, s, init);
      if !r.won {
        var e := LogEntry(calls[|calls| - 1]);
        assert (r.log + [e])[..|r.log|] == r.log;
      }
    }
  }

  /** The inner loop logs the calls in order, all of them unless one won. */
  lemma {:induction false} CallRunLogs(step: Step, s: GameState, calls: seq<ToolCall>)
    ensures var r := CallRun(step, s, calls);
            && (forall k :: 0 <= k < |r.log| ==> r.log[k] == LogEntry(calls[k]))
            && (!r.won ==> |r.log| == |calls|) && (r.won ==> r.log != [])
    decreases |calls|
  {
    if calls != [] {
      CallRunLogs(step, s, calls[..|calls| - 1]);
    }
  }

  /** The log entries of a response's tool calls. */
  function LogEntries(calls: seq<ToolCall>): (log: seq<Entry>)
    ensures |log| == |calls| && forall k :: 0 <= k < |calls| ==> log[k] == LogEntry(calls[k])
  {
    if calls == [] then [] else LogEntries(calls[..|calls| - 1]) + [LogEntry(calls[|calls| - 1])]
  }

  /** Every tool call the responses asked for, as logged, in order. */
  function Requested(rs: seq<Response>): seq<Entry> {
    if rs == [] then []
    else Requested(rs[..|rs| - 1]) + (if rs[|rs| - 1].Completion? then LogEntries(rs[|rs| - 1].calls) else [])
  }

  lemma RequestedStep(rs: seq<Response>, n: nat)
    requires n < |rs|
    ensures Requested(rs[..n + 1]) == Requested(rs[..n]) + (if rs[n].Completion? then LogEntries(rs[n].calls) else [])
  {
    assert rs[..n + 1][..n] == rs[..n];
  }

  /** The inner loop logs a prefix of the response's calls: all of them unless
      one won. */
  lemma CallsLogged(step: Step, s: GameState, calls: seq<ToolCall>)
    ensures var r := CallRun(step, s, calls);
            && r.log <= LogEntries(calls) && (!r.won ==> r.log == LogEntries(calls))
            && (r.won ==> r.log != [])
  {
    CallRunLogs(step, s, calls);
  }

  /** Calls logged after `a`, some but not necessarily all of `c`, extend it
      properly and stay within `a + c`. */
  lemma LogExtends(a: seq<Entry>, b: seq<Entry>, c: seq<Entry>)
    requires b != [] && b <= c
    ensures a < a + b <= a + c
  {
    assert (a + b)[..|a|] == a;
    assert (a + c)[..|a + b|] == a + b;
  }

  /** The response neither called a tool nor said anything. */
  predicate Empty(r: Response) {
    r.Completion? && r.calls == [] && r.content == []
  }

  /** How many of the first `n` responses form the run of empty ones they end with. */
  function EmptyTail(responses: seq<Response>, n: nat): (m: nat)
    requires n <= |responses|
    ensures m <= n
    ensures forall k :: n - m <= k < n ==> Empty(responses[k])
    ensures m < n ==> !Empty(responses[n - 1 - m])
  {
    if n == 0 || !Empty(responses[n - 1]) then 0 else 1 + EmptyTail(responses, n - 1)
  }

  /** `readings` reads `responses`: the same failures and usage, the tool calls
      of those that made some, and the empty ones. */
  predicate Matches(responses: seq<Response>, readings: seq<Read>) {
    |readings| == |responses| &&
    forall k :: 0 <= k < |responses| ==>
      && (readings[k].Failed? <==> responses[k].Failure?)
      && (responses[k].Completion? ==> readings[k].usage == responses[k].usage)
      && (readings[k].Called? <==> responses[k].Completion? && responses[k].calls != [])
      && (readings[k].Called? ==> readings[k].calls == responses[k].calls)
      && (readings[k].Silent? <==> Empty(responses[k]))
      && (readings[k].Said? ==> readings[k].giveUp == ContainsGiveUp(Strip(responses[k].content)))
  }

  /** The counters account for the calls made, each made under the budget. */
  predicate Charged(tokenLimit: int, responses: seq<Response>, readings: seq<Read>, l: Loop) {
    Accounted(responses, l.spent) && Budgeted(responses, tokenLimit, l.spent.turns) && l.spent.turns <= |readings|
  }

  /** The loop's game is the replay of the logged calls from the started game. */
  predicate Played(step: Step, start: GameState, l: Loop) {
    l.game == Replay(step, start, l.log)
  }

  /** The loop's variables between two passes of a run still going. */
  predicate Running(step: Step, start: GameState, tokenLimit: int, responses: seq<Response>, readings: seq<Read>, l: Loop) {
    && Charged(tokenLimit, responses, readings, l)
    && l.streak == EmptyTail(responses, l.spent.turns) && l.streak < 5
    && Played(step, start, l) && !l.game.IsWon()
  }

  /** Why the run stopped, in terms of the budget and the responses. */
  predicate Why(tokenLimit: int, responses: seq<Response>, stop: Stop, spent: Spent) {
    match stop
    case TokenLimit => Used(spent) >= tokenLimit
    case ApiError =>
      Used(spent) < tokenLimit && spent.turns <= |responses| &&
      (spent.turns == |responses| || responses[spent.turns].Failure?)
    case GaveUp => 0 < spent.turns <= |responses| && GivesUp(responses[spent.turns - 1])
    case Won => 0 < spent.turns <= |responses| && responses[spent.turns - 1].Completion? && responses[spent.turns - 1].calls != []
    case TooManyEmpty => true
  }

  /** A response with no tool calls whose text, stripped, gives up. */
  predicate GivesUp(r: Response) {
    r.Completion? && r.calls == [] && r.content != [] && ContainsGiveUp(Strip(r.content))
  }

  /** The run stops for empty responses exactly when the fifth in a row arrives;
      unless the last response gave up, the streak counts the empty responses
      the run ended with. */
  predicate StreakEnds(responses: seq<Response>, stop: Stop, at: Loop) {
    && at.streak <= 5 && (at.streak == 5 <==> stop == TooManyEmpty)
    && (stop != GaveUp ==> at.spent.turns <= |responses| && at.streak == EmptyTail(responses, at.spent.turns))
  }

  /** The run is won exactly when the game is, and then by its last logged call. */
  predicate WinEnds(step: Step, start: GameState, stop: Stop, at: Loop) {
    && Played(step, start, at) && (stop == Won <==> at.game.IsWon())
    && (stop == Won ==> at.log != [] && !Replay(step, start, at.log[..|at.log| - 1]).IsWon())
  }

  /** The log holds every tool call the answered responses asked for, in order;
      when the run is won, the calls of the last response stop at the winning one. */
  predicate LogEnds(responses: seq<Response>, stop: Stop, at: Loop) {
    && at.spent.turns <= |responses|
    && (stop != Won ==> at.log == Requested(responses[..at.spent.turns]))
    && (stop == Won ==> 0 < at.spent.turns &&
                        Requested(responses[..at.spent.turns - 1]) < at.log <= Requested(responses[..at.spent.turns]))
  }

  /** What holds of the loop's variables `at` when the run stops with `stop`. */
  predicate Ends(step: Step, start: GameState, tokenLimit: int, responses: seq<Response>, readings: seq<Read>, stop: Stop, at: Loop) {
    && Charged(tokenLimit, responses, readings, at)
    && Why(tokenLimit, responses, stop, at.spent)
    && StreakEnds(responses, stop, at)
    && WinEnds(step, start, stop, at)
  }

  /** A pass that stops before the call, from a running state. */
  lemma StopsBeforeCall(step: Step, start: GameState, tokenLimit: int, responses: seq<Response>, readings: seq<Read>, l: Loop)
    requires Matches(responses, readings)
    requires Running(step, start, tokenLimit, responses, readings, l)
    requires Used(l.spent) >= tokenLimit || l.spent.turns == |responses| || responses[l.spent.turns].Failure?
    ensures Ends(step, start, tokenLimit, responses, readings, if Used(l.spent) >= tokenLimit then TokenLimit else ApiError, l)
  {
  }

  /** A completed call is charged: the accounts stay exact and under the budget. */
  lemma ChargeCall(tokenLimit: int, responses: seq<Response>, readings: seq<Read>, l: Loop, after: Loop)
    requires Matches(responses, readings)
    requires Charged(tokenLimit, responses, readings, l)
    requires l.spent.turns < |responses| && Used(l.spent) < tokenLimit && !readings[l.spent.turns].Failed?
    requires after.spent == Charge(l.spent, readings[l.spent.turns].usage)
    ensures Charged(tokenLimit, responses, readings, after)
  {
    ChargeKeepsAccounts(responses, tokenLimit, l.spent);
  }

  /** A pass whose response says something: it gives up, or the streak resets. */
  lemma SaidEnds(step: Step, start: GameState, tokenLimit: int, responses: seq<Response>, readings: seq<Read>, l: Loop)
    requires Matches(responses, readings)
    requires Running(step, start, tokenLimit, responses, readings, l)
    requires l.spent.turns < |responses| && Used(l.spent) < tokenLimit && readings[l.spent.turns].Said?
    ensures var counted := l.(spent := Charge(l.spent, readings[l.spent.turns].usage));
            && (readings[l.spent.turns].giveUp ==> Ends(step, start, tokenLimit, responses, readings, GaveUp, counted))
            && (!readings[l.spent.turns].giveUp ==> Running(step, start, tokenLimit, responses, readings, counted.(streak := 0)))
  {
    var counted := l.(spent := Charge(l.spent, readings[l.spent.turns].usage));
    ChargeCall(tokenLimit, responses, readings, l, counted);
    ChargeCall(tokenLimit, responses, readings, l, counted.(streak := 0));
  }

  /** A pass whose response is empty: the fifth in a row stops the run. */
  lemma SilenceEnds(step: Step, start: GameState, tokenLimit: int, responses: seq<Response>, readings: seq<Read>, l: Loop)
    requires Matches(responses, readings)
    requires Running(step, start, tokenLimit, responses, readings, l)
    requires l.spent.turns < |responses| && Used(l.spent) < tokenLimit && readings[l.spent.turns].Silent?
    ensures var t := OnSilence(l.(spent := Charge(l.spent, readings[l.spent.turns].usage)));
            && (t.Stopped? ==> t.stop == TooManyEmpty && Ends(step, start, tokenLimit, responses, readings, t.stop, t.at))
            && (t.Next? ==> Running(step, start, tokenLimit, responses, readings, t.after))
  {
    var n := l.spent.turns;
    var after := l.(spent := Charge(l.spent, readings[n].usage), streak := l.streak + 1);
    ChargeCall(tokenLimit, responses, readings, l, after);
    assert Empty(responses[n]);
    assert EmptyTail(responses, n + 1) == after.streak;
    assert Played(step, start, after) && !after.game.IsWon();
    if after.streak >= 5 {
      assert StreakEnds(responses, TooManyEmpty, after);
      assert WinEnds(step, start, TooManyEmpty, after);
    }
  }

  /** A pass whose response calls tools: the game may be won by one of them. */
  lemma CallsEnd(step: Step, start: GameState, tokenLimit: int, responses: seq<Response>, readings: seq<Read>, l: Loop)
    requires Matches(responses, readings)
    requires Running(step, start, tokenLimit, responses, readings, l)
    requires l.spent.turns < |responses| && Used(l.spent) < tokenLimit && readings[l.spent.turns].Called?
    ensures var t := OnCalls(step, l.(spent := Charge(l.spent, readings[l.spent.turns].usage)), readings[l.spent.turns].calls);
            && (t.Stopped? ==> t.stop == Won && Ends(step, start, tokenLimit, responses, readings, t.stop, t.at))
            && (t.Next? ==> Running(step, start, tokenLimit, responses, readings, t.after))
  {
    var counted := l.(spent := Charge(l.spent, readings[l.spent.turns].usage));
    var r := CallRun(step, l.game, readings[l.spent.turns].calls);
    CallsPlayed(step, start, l.log, readings[l.spent.turns].calls);
    ChargeCall(tokenLimit, responses, readings, l, counted.(game := r.game, log := l.log + r.log, streak := 0));
  }

  /** The calls of one response, made on the replay of the log `a`, extend the
      replay: the game is won exactly when the last call won it. */
  lemma CallsPlayed(step: Step, start: GameState, a: seq<Entry>, calls: seq<ToolCall>)
    requires !Replay(step, start, a).IsWon()
    ensures var r := CallRun(step, Replay(step, start, a), calls);
            && r.game == Replay(step, start, a + r.log) && (r.won <==> r.game.IsWon())
            && (r.won ==> a + r.log != [] && !Replay(step, start, (a + r.log)[..|a + r.log| - 1]).IsWon())
  {
    var s := Replay(step, start, a);
    var r := CallRun(step, s, calls);
    CallRunPlays(step, s, calls);
    ReplayAppend(step, start, a, r.log);
    if r.won {
      WonLast(step, start, a, r.log);
    }
  }

  /** A win by the last of the calls `b` logged after `a` is a win by the last
      call of the whole log. */
  lemma WonLast(step: Step, start: GameState, a: seq<Entry>, b: seq<Entry>)
    requires b != [] && !Replay(step, Replay(step, start, a), b[..|b| - 1]).IsWon()
    ensures a + b != [] && !Replay(step, start, (a + b)[..|a + b| - 1]).IsWon()
  {
    assert (a + b)[..|a + b| - 1] == a + b[..|b| - 1];
    ReplayAppend(step, start, a, b[..|b| - 1]);
  }

  /** One pass from a running state either ends the run as `Ends` says or
      leaves it running. */
  lemma TurnEnds(step: Step, start: GameState, tokenLimit: int, responses: seq<Response>, readings: seq<Read>, l: Loop)
    requires Matches(responses, readings)
    requires Running(step, start, tokenLimit, responses, readings, l)
    ensures var t := McpTurn(step, tokenLimit, readings, l);
            (t.Stopped? ==> Ends(step, start, tokenLimit, responses, readings, t.stop, t.at)) &&
            (t.Next? ==> Running(step, start, tokenLimit, responses, readings, t.after))
  {
    var n := l.spent.turns;
    if Used(l.spent) >= tokenLimit || n == |responses| || responses[n].Failure? {
      StopsBeforeCall(step, start, tokenLimit, responses, readings, l);
    } else if readings[n].Called? {
      CallsEnd(step, start, tokenLimit, responses, readings, l);
    } else if readings[n].Said? {
      SaidEnds(step, start, tokenLimit, responses, readings, l);
    } else {
      SilenceEnds(step, start, tokenLimit, responses, readings, l);
    }
  }

  /** From a running state, the run ends as `Ends` says. */
  lemma {:induction false} McpFromEnds(step: Step, start: GameState, tokenLimit: int, responses: seq<Response>, readings: seq<Read>, l: Loop)
    requires Matches(responses, readings)
    requires Running(step, start, tokenLimit, responses, readings, l)
    ensures var end := McpFrom(step, tokenLimit, readings, l);
            Ends(step, start, tokenLimit, responses, readings, end.0, end.1)
    decreases |responses| - l.spent.turns
  {
    TurnEnds(step, start, tokenLimit, responses, readings, l);
    var t := McpTurn(step, tokenLimit, readings, l);
    if t.Next? {
      McpFromEnds(step, start, tokenLimit, responses, readings, t.after);
    }
  }

  /** Between two passes, the log holds every tool call the answered responses
      asked for. */
  predicate LogRunning(responses: seq<Response>, l: Loop) {
    l.spent.turns <= |responses| && l.log == Requested(responses[..l.spent.turns])
  }

  /** One pass keeps the log, or ends the run as `LogEnds` says. */
  lemma TurnLogs(step: Step, tokenLimit: int, responses: seq<Response>, readings: seq<Read>, l: Loop)
    requires Matches(responses, readings) && LogRunning(responses, l)
    ensures var t := McpTurn(step, tokenLimit, readings, l);
            (t.Stopped? ==> LogEnds(responses, t.stop, t.at)) && (t.Next? ==> LogRunning(responses, t.after))
  {
    var n := l.spent.turns;
    if Used(l.spent) < tokenLimit && n < |responses| && !responses[n].Failure? {
      RequestedStep(responses, n);
      if readings[n].Called? {
        CallsLog(step, responses, l, readings[n].calls, readings[n].usage);
      }
    }
  }

  /** The log after the calls of the next response. */
  lemma CallsLog(step: Step, responses: seq<Response>, l: Loop, calls: seq<ToolCall>, usage: Usage)
    requires LogRunning(responses, l) && l.spent.turns < |responses|
    requires responses[l.spent.turns].Completion? && responses[l.spent.turns].calls == calls
    requires Requested(responses[..l.spent.turns + 1]) == l.log + LogEntries(calls)
    ensures var t := OnCalls(step, l.(spent := Charge(l.spent, usage)), calls);
            (t.Stopped? ==> LogEnds(responses, t.stop, t.at)) && (t.Next? ==> LogRunning(responses, t.after))
  {
    var r := CallRun(step, l.game, calls);
    CallsLogged(step, l.game, calls);
    if r.won {
      LogExtends(l.log, r.log, LogEntries(calls));
    }
  }

  /** From a state that keeps the log, the run ends as `LogEnds` says. */
  lemma {:induction false} McpFromLogs(step: Step, tokenLimit: int, responses: seq<Response>, readings: seq<Read>, l: Loop)
    requires Matches(responses, readings) && LogRunning(responses, l)
    ensures var end := McpFrom(step, tokenLimit, readings, l);
            LogEnds(responses, end.0, end.1)
    decreases |responses| - l.spent.turns
  {
    TurnLogs(step, tokenLimit, responses, readings, l);
    var t := McpTurn(step, tokenLimit, readings, l);
    if t.Next? {
      McpFromLogs(step, tokenLimit, responses, readings, t.after);
    }
  }

  /** The readings of the responses read them. */
  lemma ReadsMatch(responses: seq<Response>)
    ensures Matches(responses, Reads(responses))
  {
    forall k | 0 <= k < |responses|
      ensures Reads(responses)[k] == Reading(responses[k])
    {
      ReadsAt(responses, k);
    }
  }

  /** The first pass starts from a running state. */
  lemma FreshRunning(step: Step, tokenLimit: int, responses: seq<Response>, readings: seq<Read>)
    ensures Running(step, Begun(), tokenLimit, responses, readings, Fresh)
  {
    NothingSpentAccounted(responses, tokenLimit);
  }

  /** A run over responses read as `readings`, from its first pass, stops as
      `Ends` says. */
  lemma RunEnds(step: Step, tokenLimit: int, responses: seq<Response>, readings: seq<Read>)
    requires Matches(responses, readings)
    ensures var end := McpFrom(step, tokenLimit, readings, Fresh);
            Ends(step, Begun(), tokenLimit, responses, readings, end.0, end.1)
  {
    FreshRunning(step, tokenLimit, responses, readings);
    McpFromEnds(step, Begun(), tokenLimit, responses, readings, Fresh);
  }

  // ---------------------------------------------------------------------------
  // what an MCP-mode run guarantees, on the runner's engine

  /** The runner's step keeps the engine's invariant, and a won game stays won. */
  lemma PerformKeepsInv(s: GameState, e: Entry)
    requires s.Inv()
    ensures Perform(s, e).Inv()
    ensures s.IsWon() ==> Perform(s, e).IsWon()
  {
    if e.tool in TOOLS {
      ToolCommandParses(e.tool, e.args);
      ExecuteKeepsInv(s, ToolCommand(e.tool, e.args).value);
      ExecuteIsMonotone(s, ToolCommand(e.tool, e.args).value);
    }
  }

  /** Every game the runner replays keeps the invariant. */
  lemma {:induction false} ReplayKeepsInv(s: GameState, log: seq<Entry>)
    requires s.Inv()
    ensures Replay(Perform, s, log).Inv()
    decreases |log|
  {
    if log != [] {
      ReplayKeepsInv(s, log[..|log| - 1]);
      PerformKeepsInv(Replay(Perform, s, log[..|log| - 1]), log[|log| - 1]);
    }
  }

  /** The only call that wins: `use` of the keycard, made on the bridge with the
      keycard carried and the engine room lit. */
  predicate WinningCall(s: GameState, e: Entry) {
    && e.tool == "use" && ItemName(Lower(Strip(Get(e.args, "item")))) == "keycard"
    && s.room == "bridge" && "keycard" in s.inventory
    && "engine_room_lit" in s.flags && s.flags["engine_room_lit"]
  }

  /** A whole MCP-mode run: its record accounts for the calls it made, each made
      under the budget, says why the run stopped, and stops for empty responses
      exactly when it ends with five of them. */
  lemma McpRunAccounts(model: string, tokenLimit: int, responses: seq<Response>)
    ensures var e := McpRun(model, tokenLimit, responses);
            var spent := Spent(e.record.turns, e.record.promptTokens, e.record.completionTokens);
            && Accounted(responses, spent) && Budgeted(responses, tokenLimit, spent.turns)
            && e.record.totalTokens == Total(Tally(responses[..spent.turns]))
            && Why(tokenLimit, responses, e.stop, spent)
            && (e.record.won <==> e.stop == Won) && (e.record.gaveUp <==> e.stop == GaveUp)
            && EmptyTail(responses, spent.turns) <= 5
            && (e.stop == TooManyEmpty <==> EmptyTail(responses, spent.turns) == 5)
  {
    ReadsMatch(responses);
    RunEnds(Perform, tokenLimit, responses, Reads(responses));
    var end := McpFrom(Perform, tokenLimit, Reads(responses), Fresh);
    AccountedTotal(responses, end.1.spent);
    CloseKeeps(model, end.0, end.1);
  }

  /** A whole MCP-mode run logs every tool call its answered responses asked
      for, in order, except that a win skips the calls after the winning one. */
  lemma McpRunLogs(model: string, tokenLimit: int, responses: seq<Response>)
    ensures var e := McpRun(model, tokenLimit, responses);
            var n := e.record.turns;
            && n <= |responses|
            && (!e.record.won ==> e.record.commands == Requested(responses[..n]))
            && (e.record.won ==> 0 < n && Requested(responses[..n - 1]) < e.record.commands <= Requested(responses[..n]))
  {
    ReadsMatch(responses);
    assert responses[..0] == [];
    McpFromLogs(Perform, tokenLimit, responses, Reads(responses), Fresh);
    var end := McpFrom(Perform, tokenLimit, Reads(responses), Fresh);
    CloseKeeps(model, end.0, end.1);
  }

  /** A whole MCP-mode run is won exactly when replaying its logged calls on the
      started game wins it; then the last call, and no earlier one, won it, and
      that call is `use` of the keycard on the bridge. */
  lemma McpRunWins(model: string, tokenLimit: int, responses: seq<Response>)
    ensures WonByLog(McpRun(model, tokenLimit, responses))
  {
    RunWinEnds(tokenLimit, responses);
    var end := McpFrom(Perform, tokenLimit, Reads(responses), Fresh);
    CloseWins(model, end.0, end.1);
  }

  /** The record is won exactly when replaying its logged calls on the started
      game wins it; then the last call, and no earlier one, won it, and that
      call is the winning call. */
  predicate WonByLog(e: Ended) {
    var log := e.record.commands;
    && (e.record.won <==> Replay(Perform, Begun(), log).IsWon())
    && (e.record.won ==>
          && log != [] && !Replay(Perform, Begun(), log[..|log| - 1]).IsWon()
          && WinningCall(Replay(Perform, Begun(), log[..|log| - 1]), log[|log| - 1]))
  }

  /** The record of a run that ended as its game did. */
  lemma CloseWins(model: string, stop: Stop, at: Loop)
    requires WinEnds(Perform, Begun(), stop, at)
    ensures WonByLog(Close(model, stop, at))
  {
    CloseKeeps(model, stop, at);
    WonByWinningCall(stop, at);
  }

  /** A run on the runner's engine ends won exactly when its game is, the game
      being the replay of its log. */
  lemma RunWinEnds(tokenLimit: int, responses: seq<Response>)
    ensures var end := McpFrom(Perform, tokenLimit, Reads(responses), Fresh);
            WinEnds(Perform, Begun(), end.0, end.1)
  {
    ReadsMatch(responses);
    RunEnds(Perform, tokenLimit, responses, Reads(responses));
  }

  /** The end of a run on the runner's engine: won exactly when the replayed
      log wins, and then by the winning call, last in the log. */
  lemma WonByWinningCall(stop: Stop, at: Loop)
    requires WinEnds(Perform, Begun(), stop, at)
    ensures stop == Won <==> Replay(Perform, Begun(), at.log).IsWon()
    ensures stop == Won ==> WinningCall(Replay(Perform, Begun(), at.log[..|at.log| - 1]), at.log[|at.log| - 1])
  {
    if stop == Won {
      var before := Replay(Perform, Begun(), at.log[..|at.log| - 1]);
      ReplayKeepsInv(Begun(), at.log[..|at.log| - 1]);
      PerformWins(before, at.log[|at.log| - 1]);
    }
  }

  /** A call that turns a game not yet won into a won one is the winning call. */
  lemma PerformWins(s: GameState, e: Entry)
    requires s.Inv() && !s.IsWon() && Perform(s, e).IsWon()
    ensures WinningCall(s, e)
  {
    ToolWinNeedsKeycard(s, e.tool, e.args);
  }
}
