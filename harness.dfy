/**
 * The conversation driver. Each run alternates model calls with game actions
 * until the token budget is spent, a call fails, the model gives up, it sends
 * five empty turns in a row, or the game is won. The model is the sequence of
 * its responses, given in advance: the messages sent to it cannot change what
 * it answers here. In bash mode the shell runner is an oracle that says whether
 * the game is won after a given history of commands; in MCP mode the runner is
 * the structured-call adapter over the real engine model.
 */
module Harness {
  import opened Wrappers
  import opened Text
  import Engine
  import Mcp

  // ---------------------------------------------------------------------------
  // responses and token accounting

  /** The `usage` block of a completion. */
  datatype Usage = Usage(prompt: nat, completion: nat)

  /** A tool call as the provider returns it; `arguments` is `None` when its
      JSON text does not decode. */
  datatype ToolCall = ToolCall(id: string, name: string, arguments: Option<map<string, string>>)

  /** One model call: it fails, or it completes with text (empty when the
      provider sends none), tool calls (empty in bash mode) and usage. */
  datatype Response =
    | Failure
    | Completion(content: string, calls: seq<ToolCall>, usage: Usage)

  /** Every call in `rs` completed. */
  predicate Answered(rs: seq<Response>) {
    forall k :: 0 <= k < |rs| ==> rs[k].Completion?
  }

  /** The prompt and completion tokens of `rs`, each summed over the calls. */
  function Tally(rs: seq<Response>): (u: Usage)
    ensures rs == [] ==> u == Usage(0, 0)
  {
    if rs == [] then Usage(0, 0)
    else
      var u := Tally(rs[..|rs| - 1]);
      var r := rs[|rs| - 1];
      if r.Completion? then Usage(u.prompt + r.usage.prompt, u.completion + r.usage.completion)
      else u
  }

  function Total(u: Usage): nat {
    u.prompt + u.completion
  }

  /** Spending only grows: a longer history has used at least as many tokens. */
  lemma {:induction false} TallyGrows(rs: seq<Response>, i: nat, j: nat)
    requires i <= j <= |rs|
    ensures Tally(rs[..i]).prompt <= Tally(rs[..j]).prompt
    ensures Tally(rs[..i]).completion <= Tally(rs[..j]).completion
    decreases j - i
  {
    if i < j {
      assert rs[..j][..j - 1] == rs[..j - 1];
      TallyGrows(rs, i, j - 1);
    }
  }

  /** Once the tokens used before call `i` reach the limit, so do the tokens
      before every later call: the budget check at the top of the loop can
      never let a call through after it has once refused. */
  lemma BudgetStaysSpent(rs: seq<Response>, limit: int, i: nat, j: nat)
    requires i <= j <= |rs| && Total(Tally(rs[..i])) >= limit
    ensures Total(Tally(rs[..j])) >= limit
  {
    TallyGrows(rs, i, j);
  }

  /** The loop's counters: completed calls (`turns`) and the tokens they used. */
  datatype Spent = Spent(turns: nat, prompt: nat, completion: nat)

  const NothingSpent := Spent(0, 0, 0)

  /** `total_prompt_tokens + total_completion_tokens`, read before each call. */
  function Used(s: Spent): nat {
    s.prompt + s.completion
  }

  /** One more completed call: `turns += 1` and its usage added to the totals. */
  function Charge(s: Spent, u: Usage): (t: Spent)
    ensures t.turns == s.turns + 1 && Used(t) == Used(s) + Total(u)
  {
    Spent(s.turns + 1, s.prompt + u.prompt, s.completion + u.completion)
  }

  /** The counters account for the first `s.turns` responses exactly: each of
      them completed, and the totals are their summed usage. */
  predicate Accounted(rs: seq<Response>, s: Spent) {
    s.turns <= |rs| && Answered(rs[..s.turns]) && Tally(rs[..s.turns]) == Usage(s.prompt, s.completion)
  }

  /** Each of the first `n` calls was made with the budget not yet reached. */
  predicate Budgeted(rs: seq<Response>, limit: int, n: nat) {
    n <= |rs| && forall k :: 0 <= k < n ==> Total(Tally(rs[..k])) < limit
  }

  /** A call made under the budget keeps the counters exact. */
  lemma ChargeKeepsAccounts(rs: seq<Response>, limit: int, s: Spent)
    requires Accounted(rs, s) && Budgeted(rs, limit, s.turns)
    requires s.turns < |rs| && rs[s.turns].Completion? && Used(s) < limit
    ensures Accounted(rs, Charge(s, rs[s.turns].usage))
    ensures Budgeted(rs, limit, s.turns + 1)
  {
    var n := s.turns;
    TallyStep(rs, n);
    var next := rs[..n + 1];
    forall k | 0 <= k < |next|
      ensures next[k].Completion?
    {
      if k < n {
        assert next[k] == rs[..n][k];
      }
    }
    assert Total(Tally(rs[..n])) == Used(s);
  }

  /** The tokens an accounted loop has spent are those of its answered calls. */
  lemma AccountedTotal(rs: seq<Response>, s: Spent)
    requires Accounted(rs, s)
    ensures Total(Tally(rs[..s.turns])) == Used(s)
  {
  }

  /** Nothing is spent before the first call. */
  lemma NothingSpentAccounted(rs: seq<Response>, limit: int)
    ensures Accounted(rs, NothingSpent) && Budgeted(rs, limit, 0)
  {
    assert rs[..0] == [];
  }

  // ---------------------------------------------------------------------------
  // the run record and its label

  datatype Stop = TokenLimit | ApiError | GaveUp | TooManyEmpty | Won

  /** The dictionary `_finish` returns, without its timestamp. */
  datatype RunRecord<C> = RunRecord(
    model: string, mode: string, won: bool, gaveUp: bool,
    totalTokens: nat, promptTokens: nat, completionTokens: nat,
    turns: nat, commands: seq<C>)

  /** `_finish`: the total is the prompt tokens plus the completion tokens. */
  function Finish<C>(model: string, mode: string, won: bool, gaveUp: bool,
                     promptTokens: nat, completionTokens: nat, turns: nat, commands: seq<C>): (r: RunRecord<C>)
    ensures r.totalTokens == r.promptTokens + r.completionTokens
    ensures r.promptTokens == promptTokens && r.completionTokens == completionTokens
    ensures r.model == model && r.mode == mode && r.won == won && r.gaveUp == gaveUp
    ensures r.turns == turns && r.commands == commands
  {
    RunRecord(model, mode, won, gaveUp, promptTokens + completionTokens,
              promptTokens, completionTokens, turns, commands)
  }

  datatype Verdict = Yes | Quit | No

  /** One cell of the comparison table. */
  datatype Cell = Dash | Shown(verdict: Verdict, totalTokens: nat, turns: nat)

  /** `fmt` in `_print_comparison`: a win shows YES whether or not the run also
      gave up, a run that gave up without winning shows QUIT, any other NO. */
  function Fmt<C>(r: Option<RunRecord<C>>): (cell: Cell)
    ensures r.None? <==> cell == Dash
    ensures r.Some? ==> cell.totalTokens == r.value.totalTokens && cell.turns == r.value.turns
    ensures r.Some? ==> (cell.verdict == Yes <==> r.value.won)
    ensures r.Some? ==> (cell.verdict == Quit <==> !r.value.won && r.value.gaveUp)
  {
    match r
    case None => Dash
    case Some(run) =>
      Shown(if run.won then Yes else if run.gaveUp then Quit else No, run.totalTokens, run.turns)
  }

  // ---------------------------------------------------------------------------
  // reading a reply

  /** `"GIVE_UP" in reply.upper()` */
  predicate ContainsGiveUp(reply: string) {
    Contains(Upper(reply), "GIVE_UP")
  }

  /** The give-up test ignores case: lower-casing the reply first changes nothing. */
  lemma GiveUpIgnoresCase(reply: string)
    ensures ContainsGiveUp(Lower(reply)) == ContainsGiveUp(reply)
  {
    assert Upper(Lower(reply)) == Upper(reply) by {
      forall i | 0 <= i < |reply|
        ensures Upper(Lower(reply))[i] == Upper(reply)[i]
      {
        assert Lower(reply)[i] == LowerChar(reply[i]);
      }
    }
  }

  /** The command in a bash-mode reply: its first line, without backticks at
      either end or surrounding whitespace, cut before any `<|` marker. */
  function ExtractCommand(reply: string): (command: string)
    ensures '\n' !in command
    ensures !Contains(command, "<|")
    ensures command != [] ==> !IsSpace(command[0]) && !IsSpace(command[|command| - 1])
  {
    var line := FirstLine(Strip(reply));
    var unquoted := StripBy(line, IsBacktick);
    var bare := Strip(unquoted);
    StripByKeepsChars(line, IsBacktick);
    StripByKeepsChars(unquoted, IsSpace);
    match IndexOf(bare, "<|")
    case None => bare
    case Some(i) =>
      PrefixBeforeFirst(bare, "<|", i);
      StripByKeepsAbsence(bare[..i], IsSpace, "<|");
      StripByKeepsChars(bare[..i], IsSpace);
      Strip(bare[..i])
  }

  /** A command with no whitespace or backtick at either end, no line feed and no
      `<|`. */
  predicate Plain(command: string) {
    && command != []
    && !IsSpace(command[0]) && !IsSpace(command[|command| - 1])
    && !IsBacktick(command[0]) && !IsBacktick(command[|command| - 1])
    && '\n' !in command
    && !Contains(command, "<|")
  }

  /** A plain command comes back out of a reply that holds just it. */
  lemma ExtractPlain(command: string)
    requires Plain(command)
    ensures ExtractCommand(command) == command
  {
    assert Strip(command) == command;
    assert FirstLine(command) == command;
    assert StripBy(command, IsBacktick) == command;
  }

  /** Only the first line of a reply counts: whatever follows the line feed
      after a plain command is ignored. */
  lemma ExtractFirstLine(command: string, rest: string)
    requires Plain(command)
    ensures ExtractCommand(command + "\n" + rest) == command
  {
    var s := command + "\n" + rest;
    var n := |command|;
    assert s[..n] == command;
    assert s[n] == '\n';
    var t := TrimEnd(s, IsSpace);
    assert !IsSpace(s[n - 1]);
    assert |t| >= n && t[..n] == command;
    assert t[0] == command[0];
    assert Strip(s) == t;
    var line := FirstLine(t);
    if |t| == n {
      assert t == command;
    } else {
      assert t[n] == '\n';
    }
    assert line == command;
    ExtractPlain(command);
  }

  /** Backticks around a command, as many as there are on either side, are
      stripped. */
  lemma ExtractQuoted(before: string, command: string, after: string)
    requires Plain(command) && All(before, IsBacktick) && All(after, IsBacktick)
    ensures ExtractCommand(before + command + after) == command
  {
    var s := before + command + after;
    assert !IsSpace(s[0]) && !IsSpace(s[|s| - 1]);
    assert Strip(s) == s;
    forall k | 0 <= k < |s|
      ensures s[k] != '\n'
    {
      if k < |before| {
        assert s[k] == before[k];
      } else if k < |before| + |command| {
        assert s[k] == command[k - |before|];
      } else {
        assert s[k] == after[k - |before| - |command|];
      }
    }
    assert FirstLine(s) == s;
    assert s == (before + command) + after;
    TrimEndAppend(before + command, after, IsBacktick);
    assert TrimEnd(before + command, IsBacktick) == before + command;
    TrimStartAll(before, command, IsBacktick);
    assert StripBy(s, IsBacktick) == command;
    assert Strip(command) == command;
  }

  /** Each stage of the extraction keeps a head that has no line feed and no
      whitespace or backtick at either end. */
  lemma StagesKeepHead(p: string, reply: string)
    requires p != [] && '\n' !in p
    requires !IsSpace(p[0]) && !IsSpace(p[|p| - 1])
    requires !IsBacktick(p[0]) && !IsBacktick(p[|p| - 1])
    requires |p| <= |reply| && reply[..|p|] == p
    ensures var bare := Strip(StripBy(FirstLine(Strip(reply)), IsBacktick));
            |p| <= |bare| && bare[..|p|] == p
  {
    StripByKeepsHead(p, reply, IsSpace);
    var line := FirstLine(Strip(reply));
    FirstLineKeepsHead(p, Strip(reply));
    StripByKeepsHead(p, line, IsBacktick);
    StripByKeepsHead(p, StripBy(line, IsBacktick), IsSpace);
  }

  /** Everything from the first `<|` on is cut off. */
  lemma ExtractBeforeMarker(command: string, rest: string)
    requires Plain(command)
    ensures ExtractCommand(command + "<|" + rest) == command
  {
    var p := command + "<|";
    var reply := command + "<|" + rest;
    assert reply[..|p|] == p;
    StagesKeepHead(p, reply);
    var bare := Strip(StripBy(FirstLine(Strip(reply)), IsBacktick));
    assert bare == command + "<|" + bare[|p|..];
    FirstMarker(command, bare[|p|..]);
    assert bare[..|command|] == command;
  }

  // ---------------------------------------------------------------------------
  // the bash-mode empty streak and loop warning

  /** The number of empty commands at the end of `commands`. */
  function TrailingEmpty(commands: seq<string>): (n: nat)
    ensures n <= |commands|
    ensures forall k :: |commands| - n <= k < |commands| ==> commands[k] == ""
    ensures n < |commands| ==> commands[|commands| - 1 - n] != ""
  {
    if commands == [] || commands[|commands| - 1] != "" then 0
    else 1 + TrailingEmpty(commands[..|commands| - 1])
  }

  /** The count the run loop makes, walking `commands` backwards until the
      first non-empty one. */
  method CountTrailingEmpty(commands: seq<string>) returns (streak: nat)
    ensures streak == TrailingEmpty(commands)
  {
    streak := 0;
    var i := |commands|;
    assert commands[..i] == commands;
    while i > 0
      invariant 0 <= i <= |commands|
      invariant TrailingEmpty(commands) == streak + TrailingEmpty(commands[..i])
    {
      if commands[i - 1] == "" {
        assert commands[..i][..i - 1] == commands[..i - 1];
        streak := streak + 1;
        i := i - 1;
      } else {
        break;
      }
    }
  }

  /** The last three commands are the same. */
  predicate Repeated3(commands: seq<string>) {
    |commands| >= 3 &&
    commands[|commands| - 1] == commands[|commands| - 2] == commands[|commands| - 3]
  }

  /** The commands the loop warning is raised for, in order: each non-empty
      command that completes three equal commands in a row. */
  function Warnings(commands: seq<string>): (warnings: seq<string>)
    ensures |warnings| <= |commands|
  {
    if commands == [] then []
    else
      var last := commands[|commands| - 1];
      Warnings(commands[..|commands| - 1]) + (if last != "" && Repeated3(commands) then [last] else [])
  }

  /** The non-empty commands, in order: the ones that reach the shell. */
  function NonEmpty(commands: seq<string>): (run: seq<string>)
    ensures |run| <= |commands|
    ensures "" !in run
  {
    if commands == [] then []
    else
      var last := commands[|commands| - 1];
      NonEmpty(commands[..|commands| - 1]) + (if last != "" then [last] else [])
  }

  /** One more command reaches the shell exactly when it is not empty. */
  lemma NonEmptyAppend(commands: seq<string>, c: string)
    ensures NonEmpty(commands + [c]) == NonEmpty(commands) + (if c != "" then [c] else [])
  {
    assert (commands + [c])[..|commands|] == commands;
  }

  /** A repeated command is warned about and still run: the warning for the
      third `c` in a row comes with `c` reaching the shell again. */
  lemma {:induction false} RepeatWarnsAndRuns(commands: seq<string>, c: string)
    requires c != ""
    ensures Warnings(commands + [c, c, c]) == Warnings(commands + [c, c]) + [c]
    ensures NonEmpty(commands + [c, c, c]) == NonEmpty(commands + [c, c]) + [c]
  {
    var s := commands + [c, c, c];
    assert s[..|s| - 1] == commands + [c, c];
    assert Repeated3(s);
  }

  /** One more completed call adds its usage to the tally. */
  lemma TallyStep(rs: seq<Response>, n: nat)
    requires n < |rs| && rs[n].Completion?
    ensures Tally(rs[..n + 1]) ==
              Usage(Tally(rs[..n]).prompt + rs[n].usage.prompt, Tally(rs[..n]).completion + rs[n].usage.completion)
  {
    assert rs[..n + 1][..n] == rs[..n];
  }
}
