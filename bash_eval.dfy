/**
 * `run_bash_eval`: the model answers with one shell command per turn. The
 * shell is an oracle `winsAfter` that says whether the station is won once a
 * given history of commands has run; the model is its sequence of responses,
 * and running out of responses counts as a failed call.
 */
module BashEval {
  import opened Wrappers
  import opened Text
  import opened Harness

  /** A response as the loop reads it: a failed call, or the call's usage,
      whether the stripped reply gives up, and the command extracted from it. */
  datatype Read = Failed | Read(usage: Usage, giveUp: bool, command: string)

  function Reading(r: Response): (d: Read)
    ensures d.Failed? <==> r.Failure?
    ensures r.Completion? ==> d.usage == r.usage
  {
    match r
    case Failure => Failed
    case Completion(content, _, usage) =>
      var reply := Strip(content);
      Read(usage, ContainsGiveUp(reply), ExtractCommand(reply))
  }

  /** Every response, read. */
  function Reads(rs: seq<Response>): (ds: seq<Read>)
    ensures |ds| == |rs|
  {
    if rs == [] then [] else Reads(rs[..|rs| - 1]) + [Reading(rs[|rs| - 1])]
  }

  lemma {:induction false} ReadsAt(rs: seq<Response>, i: nat)
    requires i < |rs|
    ensures Reads(rs)[i] == Reading(rs[i])
  {
    if i < |rs| - 1 {
      ReadsAt(rs[..|rs| - 1], i);
    }
  }

  /** The loop's variables between two turns. */
  datatype Loop = Loop(spent: Spent, commands: seq<string>, warnings: seq<string>)

  const Fresh := Loop(NothingSpent, [], [])

  /** What one pass of the loop does: it stops with a reason, or goes round again. */
  datatype Turn = Stopped(stop: Stop, at: Loop) | Next(after: Loop)

  /** What the run returns: its record, the commands the loop warning was
      raised for, and why it stopped. */
  datatype Ended = Ended(record: RunRecord<string>, warnings: seq<string>, stop: Stop)

  /** One pass of the `while True` loop: the budget check, the model call, the
      give-up test, then the command. */
  function BashTurn(tokenLimit: int, readings: seq<Read>, winsAfter: seq<string> -> bool, l: Loop): (t: Turn)
    requires l.spent.turns <= |readings|
    ensures t.Next? ==> t.after.spent.turns == l.spent.turns + 1 <= |readings|
  {
    if Used(l.spent) >= tokenLimit then Stopped(TokenLimit, l)
    else if l.spent.turns == |readings| || readings[l.spent.turns].Failed? then Stopped(ApiError, l)
    else
      var d := readings[l.spent.turns];
      var counted := l.(spent := Charge(l.spent, d.usage));
      if d.giveUp then Stopped(GaveUp, counted) else OnCommand(winsAfter, counted, d.command)
  }

  /** The extracted command: an empty one counts towards the streak of five,
      a non-empty one may raise the loop warning, runs, and may win. */
  function OnCommand(winsAfter: seq<string> -> bool, l: Loop, command: string): (t: Turn)
    ensures t.Next? ==> t.after.spent == l.spent
  {
    var commands := l.commands + [command];
    if command == "" then
      var logged := l.(commands := commands);
      if TrailingEmpty(commands) >= 5 then Stopped(TooManyEmpty, logged) else Next(logged)
    else
      var ran := l.(commands := commands,
                    warnings := if Repeated3(commands) then l.warnings + [command] else l.warnings);
      if winsAfter(NonEmpty(commands)) then Stopped(Won, ran) else Next(ran)
  }

  /** `_finish` on the loop's variables. */
  function Close(model: string, stop: Stop, l: Loop): (e: Ended)
    ensures e.record.won <==> stop == Won
    ensures e.record.gaveUp <==> stop == GaveUp
  {
    Ended(Finish(model, "bash", stop == Won, stop == GaveUp, l.spent.prompt, l.spent.completion,
                 l.spent.turns, l.commands),
          l.warnings, stop)
  }

  /** The record of a closed run holds the loop's counts, and its stop. */
  lemma CloseKeeps(model: string, stop: Stop, l: Loop)
    ensures var e := Close(model, stop, l);
            && e.stop == stop && e.warnings == l.warnings && e.record.commands == l.commands
            && Spent(e.record.turns, e.record.promptTokens, e.record.completionTokens) == l.spent
            && e.record.totalTokens == Total(Usage(l.spent.prompt, l.spent.completion))
  {
  }

  /** The rest of a run from the loop state `l`: why it stops, and the loop's
      variables at that point. */
  function BashFrom(tokenLimit: int, readings: seq<Read>, winsAfter: seq<string> -> bool, l: Loop): (Stop, Loop)
    requires l.spent.turns <= |readings|
    decreases |readings| - l.spent.turns
  {
    match BashTurn(tokenLimit, readings, winsAfter, l)
    case Stopped(stop, at) => (stop, at)
    case Next(after) => BashFrom(tokenLimit, readings, winsAfter, after)
  }

  /** A whole bash-mode run. */
  function BashRun(model: string, tokenLimit: int, responses: seq<Response>, winsAfter: seq<string> -> bool): Ended {
    var end := BashFrom(tokenLimit, Reads(responses), winsAfter, Fresh);
    Close(model, end.0, end.1)
  }

  /** One pass of the loop body on the loop's variables `l`, up to the reply;
      `executed` is the shell's history of run commands. */
  method Pass(tokenLimit: int, responses: seq<Response>, winsAfter: seq<string> -> bool,
              ghost readings: seq<Read>, l: Loop, executed: seq<string>)
    returns (t: Turn, ran: seq<string>)
    requires l.spent.turns <= |responses| == |readings|
    requires l.spent.turns < |responses| ==> readings[l.spent.turns] == Reading(responses[l.spent.turns])
    requires executed == NonEmpty(l.commands)
    ensures t == BashTurn(tokenLimit, readings, winsAfter, l)
    ensures ran == NonEmpty(if t.Stopped? then t.at.commands else t.after.commands)
  {
    if Used(l.spent) >= tokenLimit {
      return Stopped(TokenLimit, l), executed;
    }
    if l.spent.turns == |responses| || responses[l.spent.turns].Failure? {
      return Stopped(ApiError, l), executed;
    }
    var response := responses[l.spent.turns];
    var counted := l.(spent := Charge(l.spent, response.usage));
    var reply := Strip(response.content);
    assert readings[l.spent.turns] == Read(response.usage, ContainsGiveUp(reply), ExtractCommand(reply));
    if ContainsGiveUp(reply) {
      return Stopped(GaveUp, counted), executed;
    }
    t, ran := RunCommand(winsAfter, counted, executed, ExtractCommand(reply));
  }

  /** The rest of the loop body, from the extracted command on. */
  method RunCommand(winsAfter: seq<string> -> bool, l: Loop, executed: seq<string>, command: string)
    returns (t: Turn, ran: seq<string>)
    requires executed == NonEmpty(l.commands)
    ensures t == OnCommand(winsAfter, l, command)
    ensures ran == NonEmpty(if t.Stopped? then t.at.commands else t.after.commands)
  {
    var commands := l.commands + [command];
    NonEmptyAppend(l.commands, command);
    if command == "" {
      var streak := CountTrailingEmpty(commands);
      var logged := l.(commands := commands);
      t := if streak >= 5 then Stopped(TooManyEmpty, logged) else Next(logged);
      return t, executed;
    }
    var warnings := l.warnings;
    if Repeated3(commands) {
      warnings := warnings + [command];
    }
    ran := executed + [command];
    var after := l.(commands := commands, warnings := warnings);
    t := if winsAfter(ran) then Stopped(Won, after) else Next(after);
  }

  /** `run_bash_eval`: passes until one stops the run, then `_finish`. */
  method RunBashEval(model: string, tokenLimit: int, responses: seq<Response>, winsAfter: seq<string> -> bool)
    returns (ended: Ended)
    ensures ended == BashRun(model, tokenLimit, responses, winsAfter)
  {
    var l := Fresh;
    var executed: seq<string> := [];
    ghost var readings := Reads(responses);
    ghost var final := BashFrom(tokenLimit, readings, winsAfter, Fresh);
    while true
      invariant l.spent.turns <= |responses| == |readings|
      invariant BashFrom(tokenLimit, readings, winsAfter, l) == final
      invariant executed == NonEmpty(l.commands)
      decreases |responses| - l.spent.turns
    {
      if l.spent.turns < |responses| {
        ReadsAt(responses, l.spent.turns);
      }
      var t;
      t, executed := Pass(tokenLimit, responses, winsAfter, readings, l, executed);
      if t.Stopped? {
        ended := Close(model, t.stop, t.at);
        break;
      }
      l := t.after;
    }
  }

  // ---------------------------------------------------------------------------
  // what a bash-mode run guarantees

  /** The response completed, did not give up, and `command` is what was
      extracted from it. */
  predicate Heard(d: Read, command: string) {
    d.Read? && !d.giveUp && d.command == command
  }

  /** `readings` reads `responses`: the same failures, and the same usage. */
  predicate Matches(responses: seq<Response>, readings: seq<Read>) {
    |readings| == |responses| &&
    forall k :: 0 <= k < |responses| ==>
      (readings[k].Failed? <==> responses[k].Failure?) &&
      (responses[k].Completion? ==> readings[k].usage == responses[k].usage)
  }

  /** The last command reached the shell and the game was won after it. */
  predicate Wins(winsAfter: seq<string> -> bool, commands: seq<string>) {
    commands != [] && commands[|commands| - 1] != "" && winsAfter(NonEmpty(commands))
  }

  /** No command of `commands` that reached the shell won the game. */
  predicate NeverWon(winsAfter: seq<string> -> bool, commands: seq<string>) {
    forall k :: 0 < k <= |commands| && commands[k - 1] != "" ==> !winsAfter(NonEmpty(commands[..k]))
  }

  /** The counters account for the calls made, each made under the budget; every
      completed call logged the command extracted from it, except a last one
      that gave up (`dropped`); the warnings are those the commands raise. */
  predicate Logged(tokenLimit: int, responses: seq<Response>, readings: seq<Read>, l: Loop, dropped: bool) {
    && Accounted(responses, l.spent) && Budgeted(responses, tokenLimit, l.spent.turns)
    && l.spent.turns <= |readings| && |l.commands| + (if dropped then 1 else 0) == l.spent.turns
    && (forall k :: 0 <= k < |l.commands| ==> Heard(readings[k], l.commands[k]))
    && l.warnings == Warnings(l.commands)
  }

  /** The loop's variables between two passes of a run still going. */
  predicate Running(tokenLimit: int, responses: seq<Response>, readings: seq<Read>, winsAfter: seq<string> -> bool, l: Loop) {
    Logged(tokenLimit, responses, readings, l, false) && TrailingEmpty(l.commands) < 5 && NeverWon(winsAfter, l.commands)
  }

  /** Why the run stopped, in terms of the budget and the responses. */
  predicate Why(tokenLimit: int, responses: seq<Response>, readings: seq<Read>, stop: Stop, at: Loop) {
    match stop
    case TokenLimit => Used(at.spent) >= tokenLimit
    case ApiError =>
      Used(at.spent) < tokenLimit && at.spent.turns <= |responses| &&
      (at.spent.turns == |responses| || responses[at.spent.turns].Failure?)
    case GaveUp => 0 < at.spent.turns <= |readings| && readings[at.spent.turns - 1].Read? && readings[at.spent.turns - 1].giveUp
    case _ => true
  }

  /** The run stops for empty commands exactly when the fifth in a row arrives. */
  predicate StreakEnds(stop: Stop, commands: seq<string>) {
    TrailingEmpty(commands) <= 5 && (TrailingEmpty(commands) == 5 <==> stop == TooManyEmpty)
  }

  /** The run is won exactly when its last command ran and won, and no command
      before that one won. */
  predicate WinEnds(winsAfter: seq<string> -> bool, stop: Stop, commands: seq<string>) {
    (stop == Won <==> Wins(winsAfter, commands)) &&
    NeverWon(winsAfter, if stop == Won then commands[..|commands| - 1] else commands)
  }

  /** What holds of the loop's variables `at` when the run stops with `stop`. */
  predicate Ends(tokenLimit: int, responses: seq<Response>, readings: seq<Read>, winsAfter: seq<string> -> bool, stop: Stop, at: Loop) {
    && Logged(tokenLimit, responses, readings, at, stop == GaveUp)
    && Why(tokenLimit, responses, readings, stop, at)
    && StreakEnds(stop, at.commands)
    && WinEnds(winsAfter, stop, at.commands)
  }

  /** Appending a command: the empty streak and the warnings. */
  lemma AppendCommand(commands: seq<string>, c: string)
    ensures TrailingEmpty(commands + [c]) == if c == "" then TrailingEmpty(commands) + 1 else 0
    ensures Warnings(commands + [c]) == Warnings(commands) + (if c != "" && Repeated3(commands + [c]) then [c] else [])
  {
    assert (commands + [c])[..|commands|] == commands;
  }

  /** Appending a command that does not win, or does not run, keeps `NeverWon`. */
  lemma AppendNotWon(winsAfter: seq<string> -> bool, commands: seq<string>, c: string)
    requires NeverWon(winsAfter, commands)
    requires c == "" || !winsAfter(NonEmpty(commands + [c]))
    ensures NeverWon(winsAfter, commands + [c])
  {
    var s := commands + [c];
    forall k | 0 < k <= |s| && s[k - 1] != ""
      ensures !winsAfter(NonEmpty(s[..k]))
    {
      if k < |s| {
        assert s[..k] == commands[..k];
      } else {
        assert s[..k] == s;
      }
    }
  }

  /** A completed call logs its command: the accounts and the log stay exact. */
  lemma LogCommand(tokenLimit: int, responses: seq<Response>, readings: seq<Read>, l: Loop, after: Loop)
    requires Matches(responses, readings)
    requires Logged(tokenLimit, responses, readings, l, false)
    requires l.spent.turns < |responses| && Used(l.spent) < tokenLimit && readings[l.spent.turns].Read?
    requires !readings[l.spent.turns].giveUp
    requires after.spent == Charge(l.spent, readings[l.spent.turns].usage)
    requires after.commands == l.commands + [readings[l.spent.turns].command]
    requires after.warnings == Warnings(after.commands)
    ensures Logged(tokenLimit, responses, readings, after, false)
  {
    ChargeKeepsAccounts(responses, tokenLimit, l.spent);
    assert after.commands[..|l.commands|] == l.commands;
  }

  /** A pass that stops before the call, from a running state. */
  lemma StopsBeforeCall(tokenLimit: int, responses: seq<Response>, readings: seq<Read>, winsAfter: seq<string> -> bool, l: Loop)
    requires Matches(responses, readings)
    requires Running(tokenLimit, responses, readings, winsAfter, l)
    requires Used(l.spent) >= tokenLimit || l.spent.turns == |responses| || responses[l.spent.turns].Failure?
    ensures Ends(tokenLimit, responses, readings, winsAfter, if Used(l.spent) >= tokenLimit then TokenLimit else ApiError, l)
  {
    var stop := if Used(l.spent) >= tokenLimit then TokenLimit else ApiError;
    assert l.commands[..|l.commands|] == l.commands;
    assert !Wins(winsAfter, l.commands);
    assert WinEnds(winsAfter, stop, l.commands);
    assert StreakEnds(stop, l.commands);
    assert Why(tokenLimit, responses, readings, stop, l);
  }

  /** A pass whose reply gives up. */
  lemma GiveUpEnds(tokenLimit: int, responses: seq<Response>, readings: seq<Read>, winsAfter: seq<string> -> bool, l: Loop)
    requires Matches(responses, readings)
    requires Running(tokenLimit, responses, readings, winsAfter, l)
    requires l.spent.turns < |responses| && Used(l.spent) < tokenLimit && readings[l.spent.turns].Read?
    requires readings[l.spent.turns].giveUp
    ensures Ends(tokenLimit, responses, readings, winsAfter, GaveUp, l.(spent := Charge(l.spent, readings[l.spent.turns].usage)))
  {
    ChargeKeepsAccounts(responses, tokenLimit, l.spent);
    assert l.commands[..|l.commands|] == l.commands;
  }

  /** A pass whose command is empty: the fifth in a row stops the run. */
  lemma EmptyCommandEnds(tokenLimit: int, responses: seq<Response>, readings: seq<Read>, winsAfter: seq<string> -> bool, l: Loop, logged: Loop)
    requires Matches(responses, readings)
    requires Running(tokenLimit, responses, readings, winsAfter, l)
    requires l.spent.turns < |responses| && Used(l.spent) < tokenLimit && readings[l.spent.turns].Read?
    requires !readings[l.spent.turns].giveUp && readings[l.spent.turns].command == ""
    requires logged == Loop(Charge(l.spent, readings[l.spent.turns].usage), l.commands + [""], l.warnings)
    ensures TrailingEmpty(logged.commands) >= 5 ==> Ends(tokenLimit, responses, readings, winsAfter, TooManyEmpty, logged)
    ensures TrailingEmpty(logged.commands) < 5 ==> Running(tokenLimit, responses, readings, winsAfter, logged)
  {
    AppendCommand(l.commands, "");
    LogCommand(tokenLimit, responses, readings, l, logged);
    AppendNotWon(winsAfter, l.commands, "");
  }

  /** A pass whose command runs: the game may be won after it. */
  lemma CommandEnds(tokenLimit: int, responses: seq<Response>, readings: seq<Read>, winsAfter: seq<string> -> bool, l: Loop, ran: Loop)
    requires Matches(responses, readings)
    requires Running(tokenLimit, responses, readings, winsAfter, l)
    requires l.spent.turns < |responses| && Used(l.spent) < tokenLimit && readings[l.spent.turns].Read?
    requires !readings[l.spent.turns].giveUp && readings[l.spent.turns].command != ""
    requires var c := readings[l.spent.turns].command;
             ran == Loop(Charge(l.spent, readings[l.spent.turns].usage), l.commands + [c],
                         if Repeated3(l.commands + [c]) then l.warnings + [c] else l.warnings)
    ensures winsAfter(NonEmpty(ran.commands)) ==> Ends(tokenLimit, responses, readings, winsAfter, Won, ran)
    ensures !winsAfter(NonEmpty(ran.commands)) ==> Running(tokenLimit, responses, readings, winsAfter, ran)
  {
    var c := readings[l.spent.turns].command;
    AppendCommand(l.commands, c);
    LogCommand(tokenLimit, responses, readings, l, ran);
    assert ran.commands[..|ran.commands| - 1] == l.commands;
    if !winsAfter(NonEmpty(ran.commands)) {
      AppendNotWon(winsAfter, l.commands, c);
    }
  }

  /** One pass from a running state either ends the run as `Ends` says or
      leaves it running. */
  lemma TurnEnds(tokenLimit: int, responses: seq<Response>, readings: seq<Read>, winsAfter: seq<string> -> bool, l: Loop)
    requires Matches(responses, readings)
    requires Running(tokenLimit, responses, readings, winsAfter, l)
    ensures var t := BashTurn(tokenLimit, readings, winsAfter, l);
            (t.Stopped? ==> Ends(tokenLimit, responses, readings, winsAfter, t.stop, t.at)) &&
            (t.Next? ==> Running(tokenLimit, responses, readings, winsAfter, t.after))
  {
    var n := l.spent.turns;
    if Used(l.spent) >= tokenLimit || n == |responses| || responses[n].Failure? {
      StopsBeforeCall(tokenLimit, responses, readings, winsAfter, l);
    } else if readings[n].giveUp {
      GiveUpEnds(tokenLimit, responses, readings, winsAfter, l);
    } else {
      var c := readings[n].command;
      var counted := l.(spent := Charge(l.spent, readings[n].usage));
      if c == "" {
        EmptyCommandEnds(tokenLimit, responses, readings, winsAfter, l, counted.(commands := l.commands + [c]));
      } else {
        CommandEnds(tokenLimit, responses, readings, winsAfter, l,
                    counted.(commands := l.commands + [c],
                             warnings := if Repeated3(l.commands + [c]) then l.warnings + [c] else l.warnings));
      }
    }
  }

  /** From a running state, the run ends as `Ends` says. */
  lemma {:induction false} BashFromEnds(tokenLimit: int, responses: seq<Response>, readings: seq<Read>, winsAfter: seq<string> -> bool, l: Loop)
    requires Matches(responses, readings)
    requires Running(tokenLimit, responses, readings, winsAfter, l)
    ensures var end := BashFrom(tokenLimit, readings, winsAfter, l);
            Ends(tokenLimit, responses, readings, winsAfter, end.0, end.1)
    decreases |responses| - l.spent.turns
  {
    TurnEnds(tokenLimit, responses, readings, winsAfter, l);
    var t := BashTurn(tokenLimit, readings, winsAfter, l);
    if t.Next? {
      BashFromEnds(tokenLimit, responses, readings, winsAfter, t.after);
    }
  }

  /** A run starts out running: nothing spent, nothing executed. */
  lemma FreshRunning(tokenLimit: int, responses: seq<Response>, readings: seq<Read>, winsAfter: seq<string> -> bool)
    ensures Running(tokenLimit, responses, readings, winsAfter, Fresh)
  {
    NothingSpentAccounted(responses, tokenLimit);
    assert NeverWon(winsAfter, []);
  }

  /** A run over responses read as `readings`, from its first pass, stops as
      `Ends` says. */
  lemma RunEnds(tokenLimit: int, responses: seq<Response>, readings: seq<Read>, winsAfter: seq<string> -> bool)
    requires Matches(responses, readings)
    ensures var end := BashFrom(tokenLimit, readings, winsAfter, Fresh);
            Ends(tokenLimit, responses, readings, winsAfter, end.0, end.1)
  {
    FreshRunning(tokenLimit, responses, readings, winsAfter);
    BashFromEnds(tokenLimit, responses, readings, winsAfter, Fresh);
  }

  /** The readings of the responses read them. */
  lemma ReadsMatch(responses: seq<Response>)
    ensures Matches(responses, Reads(responses))
  {
    forall k | 0 <= k < |responses|
      ensures Reads(responses)[k] == Reading(responses[k])
    {
      ReadsAt(responses, k);
    }
  }

  /** A whole bash-mode run: its record accounts for the calls it made, every
      call was made under the budget, and it stops as `Ends` says of the
      responses as read. */
  lemma BashRunEnds(model: string, tokenLimit: int, responses: seq<Response>, winsAfter: seq<string> -> bool)
    ensures var e := BashRun(model, tokenLimit, responses, winsAfter);
            && Ends(tokenLimit, responses, Reads(responses), winsAfter, e.stop,
                    Loop(Spent(e.record.turns, e.record.promptTokens, e.record.completionTokens), e.record.commands, e.warnings))
            && e.record.totalTokens == Total(Tally(responses[..e.record.turns]))
            && (e.record.won <==> e.stop == Won) && (e.record.gaveUp <==> e.stop == GaveUp)
  {
    ReadsMatch(responses);
    RunEnds(tokenLimit, responses, Reads(responses), winsAfter);
    var end := BashFrom(tokenLimit, Reads(responses), winsAfter, Fresh);
    AccountedTotal(responses, end.1.spent);
    CloseKeeps(model, end.0, end.1);
    var at := end.1;
    assert at == Loop(Spent(at.spent.turns, at.spent.prompt, at.spent.completion), at.commands, at.warnings);
  }
}
