# Space-station puzzle and its model-evaluation harness, in Dafny

The system is a small text adventure on a derelict space station. The goal is to
find the flashlight in the dark engine room and switch it on. Once the room is
lit, the player can pick up the keycard and use it at the bridge console. Its
engine (`GameEngine`) is a closed state machine: a current room, an inventory, a
set of taken items, two puzzle flags and a move counter. Around it sits an
evaluation harness that lets a language model play the game in two ways:

- **bash mode**: the model sends one shell command per turn;
- **MCP mode**: the model makes structured tool calls, translated into engine
  commands by `McpRunner`.

In both modes the harness keeps account of the tokens used, stops at a token
budget, at a give-up, after five empty turns in a row or at a win, and writes a
run record. A report groups the run records by model label and mode, computes
each group's statistics, and ranks the groups that won by the average tokens
their winning runs spent.

The project models:

- the world tables (`world.dfy`);
- the engine, as a state value with one function per handler and as a class whose
  methods update its fields in place (`engine.dfy`);
- the tool adapter, as a class holding an engine (`mcp_runner.dfy`);
- `_finish`, `fmt`, reply parsing and token accounting (`harness.dfy`);
- both run loops, as methods over a given sequence of model responses, each proved
  equal to a recursive run function whose outcome is then characterised by lemmas
  (`bash_eval.dfy`, `mcp_eval.dfy`);
- the report, with `load_runs` and the grouping, table and leaderboard loops of
  `generate_report` as methods proved against functions (`report.dfy`).

`text.dfy`, `ordering.dfy` and `wrappers.dfy` hold the Python string operations,
the order of `sorted` on strings, and `Option`.

Narrative text is abstracted away:

- every reply of the engine is an `Outcome` that keeps the distinctions that
  matter (which refusal, which room, which description, the move count shown on
  a win);
- each room description is a `View` (plain, dark, lit, looted).

## Model

| member | source | states |
|---|---|---|
| World.ItemById | game_logic/world.py:72-95 | every item key names an entry of the item table with that id |
| World.ExitTo | game_logic/engine.py:76-83 | a direction is found exactly when the room has an exit that way, and then the destination is that exit's |
| World.Directions | game_logic/engine.py:80 | the exits listed in a refusal are the room's exit directions, in order |
| World.ExitsLeadToRooms | game_logic/world.py:3-70 | every exit of every room leads to a room of the table |
| World.ExitToIsRoom | game_logic/world.py:3-70 | following any exit found by direction lands in a room of the table |
| World.DirectionsAreDistinct | game_logic/world.py:3-70 | no room has two exits in the same direction, so the exit dictionaries are faithful as sequences |
| World.ExitToFinds | game_logic/world.py:3-70 | looking up an exit's direction finds that exit's destination |
| World.StartIsRoom | game_logic/world.py:97 | the start room is a room of the table |
| World.ItemsLieInRooms | game_logic/world.py:72-95 | every item lies in a room of the table |
| World.FlagsStartFalse | game_logic/world.py:100-103 | every puzzle flag starts False |
| World.TakeConditionsAreFlags | game_logic/world.py:82 | the only take condition names a puzzle flag |
| World.ItemsAreDistinct | game_logic/world.py:72-95 | item ids and item names are pairwise distinct, so lookup by name is unambiguous |
| World.ItemIdsAreKeys | game_logic/world.py:72-95 | the set of item keys is exactly the set of the items' ids |
| Engine.VerbName | game_logic/engine.py:24-32 | each handler's word is non-empty, lower case and a single word, so it survives `strip().lower().split()` |
| Engine.VerbOf | game_logic/engine.py:34-36 | a word selects a handler exactly when it is one of the seven verbs, and then the handler of that name |
| Engine.VerbOfName | game_logic/engine.py:24-34 | looking up a verb's own word finds that verb |
| Engine.GameState.LookView | game_logic/engine.py:55-70 | the description shown exists for the room; in the engine room it is dark when unlit, lit while the keycard is still there, looted after; in the med bay it is looted exactly when the crew log has been taken; every other room has its plain description |
| Engine.GameState.EnterView | game_logic/engine.py:86-101 | the description after entering a room is the one `look` shows there |
| Engine.GameState.Go | game_logic/engine.py:72-84 | `go` keeps the state inside the tables' domain; its effect is stated by GoMovesAlongExits |
| Engine.GameState.Take | game_logic/engine.py:103-122 | `take` keeps the state inside the tables' domain; its effect is stated by TakeSucceedsIff |
| Engine.GameState.Use | game_logic/engine.py:124-138 | `use` keeps the state inside the tables' domain; its effect is stated by UseNeedsItem, FlashlightTwice, KeycardOnBridgeWins and UseWinsOnlyWithKeycard |
| Engine.GameState.UseHeld | game_logic/engine.py:140-174 | the branches for a carried item keep the state inside the tables' domain |
| Engine.GameState.Read | game_logic/engine.py:176-184 | with no item name the player is asked what to read; the crew log is read exactly when it is named and carried, a missing crew log is reported exactly when it is named and not carried, and any other name cannot be read, with that name in the reply |
| Engine.GameState.ListInventory | game_logic/engine.py:186-190 | nothing carried is reported as such; otherwise one name per carried item, each the name of a carried item, and every carried item's name is listed |
| Engine.GameState.Execute | game_logic/engine.py:14-39 | executing any command keeps the state inside the tables' domain; its move counting is stated by ExecuteCountsMoves |
| Engine.GameState.Apply | game_logic/engine.py:17-39 | a parsed command keeps the state inside the tables' domain |
| Engine.GameState.Dispatch | game_logic/engine.py:24-39 | every handler keeps the state inside the tables' domain |
| Engine.Names | game_logic/engine.py:189 | one item name per id, in the same order |
| Engine.Init | game_logic/engine.py:7-12 | the new game satisfies the invariant, is not won, starts in the start room carrying and having taken nothing, with the initial flags and no moves |
| Engine.FindItem | game_logic/engine.py:109-110 | the search returns the first item of that name (and room, for `take`), or none when no item fits |
| Engine.FoundAt | game_logic/engine.py:109-110 | an item that fits, with none before it, is the one found |
| Engine.FoundByName | game_logic/engine.py:132-135 | the name-only lookup of `_use` finds each item by its own name |
| Engine.Parse | game_logic/engine.py:16-22 | a command is blank exactly when it strips to nothing; an unknown word is one word that is not a verb; a known verb's argument has no leading space |
| Engine.ParseAll | game_logic/engine.py:16-22 | each command of a sequence is parsed on its own |
| Engine.Run | game_logic/engine.py:14-39 | a sequence of parsed commands keeps the state inside the tables' domain |
| Engine.Play | game_logic/engine.py:14-39 | a sequence of typed commands keeps the state inside the tables' domain |
| Engine.ExecuteCountsMoves | game_logic/engine.py:16-39 | a blank command or an unknown verb changes nothing, move counter included, and gives the matching reply; a known verb counts exactly one move, even when its handler refuses |
| Engine.ApplyCountsMoves | game_logic/engine.py:17-39 | the same, for a parsed command |
| Engine.DispatchKeepsMoves | game_logic/engine.py:55-190 | no handler changes the move counter itself |
| Engine.GoMovesAlongExits | game_logic/engine.py:72-84 | no direction, or one without an exit, changes nothing and gives the matching refusal (listing the exits); otherwise the room becomes that exit's destination, a real room, and the reply describes it as `look` would |
| Engine.ItemName | game_logic/engine.py:107 | the name looked up has the argument's length; each underscore becomes a space and every other character stays |
| Engine.ItemIdNamesItem | game_logic/engine.py:107 | an item's key read as a name is its display name, so `crew_log` names the crew log |
| Engine.ItemNameKeepsPlain | game_logic/engine.py:107 | an argument without an underscore is looked up as it is |
| Engine.TakeSucceedsIff | game_logic/engine.py:103-122 | an item is picked up exactly when one of that name lies in this room, was not taken and its take condition holds; it then joins both the inventory and the taken items; any other outcome changes nothing |
| Engine.TakeTwiceRefused | game_logic/engine.py:111-112 | taking an item already taken is refused with "already took" and changes nothing |
| Engine.UseNeedsItem | game_logic/engine.py:137-138 | using an item not carried is refused with "don't have" and changes nothing |
| Engine.FlashlightTwice | game_logic/engine.py:141-149 | the flashlight in the engine room lights it, changing only that flag; a second use changes nothing |
| Engine.KeycardOnBridgeWins | game_logic/engine.py:156-164 | using the carried keycard on the bridge sets only the win flag and reports the moves |
| Engine.CrewLogReadOrUsed | game_logic/engine.py:171-184 | while the crew log is carried, reading it shows its text, and using it does the same without changing the state |
| Engine.InventoryListedInOrder | game_logic/engine.py:186-190 | carrying something, the inventory lists the names of the carried items in the sorted order of their ids |
| Engine.ExecuteIsMonotone | game_logic/engine.py:103-174 | no command removes a carried or taken item, removes a flag, sets a flag back to False or lowers the move counter; a won game stays won |
| Engine.ExecuteKeepsInv | game_logic/engine.py:14-190 | every command keeps the invariant: a real room, exactly the puzzle flags, inventory equal to the taken items, the keycard only with the light, the win only with the keycard |
| Engine.WinNeedsKeycardOnBridge | game_logic/engine.py:155-164 | a command that wins a game not yet won is `use` of the keycard, on the bridge, with the keycard carried and the engine room lit |
| Engine.UseWinsOnlyWithKeycard | game_logic/engine.py:124-174 | the only use that wins is the keycard's, on the bridge, while carried |
| Engine.RunKeepsInv | game_logic/engine.py:14-39 | any sequence of parsed commands keeps the invariant |
| Engine.PlayKeepsInv | game_logic/engine.py:14-39 | any sequence of typed commands keeps the invariant |
| Engine.ReachableStatesAreValid | game_logic/engine.py:7-39 | every state reached from a new game is in a real room, carries exactly what it took, and holds the keycard only with the light |
| Engine.RunKeepsWin | game_logic/engine.py:41-42 | once won, a game stays won whatever parsed commands follow |
| Engine.PlayKeepsWin | game_logic/engine.py:41-42 | once won, a game stays won whatever typed commands follow |
| Engine.ParseVerbThen | game_logic/engine.py:16-22 | a verb, a space and any text parse to that verb with the text stripped and lower-cased |
| Engine.ParseVerbAlone | game_logic/engine.py:20-22 | a verb alone parses to that verb with an empty argument |
| Engine.ParsePlain | game_logic/engine.py:16-22 | a verb and an already stripped, lower-case argument parse back to exactly those |
| Engine.ExecuteKnown | game_logic/engine.py:34-39 | a known verb counts a move and then runs its handler on the argument |
| Engine.WalkthroughParses | game_logic/engine.py:16-22 | each typed walkthrough command parses to its step |
| Engine.WalkthroughParsesToSteps | game_logic/engine.py:16-22 | the typed walkthrough parses to the eight steps, in order |
| Engine.WalkthroughSteps | game_logic/engine.py:72-174 | from any game in the start position, the eight steps win in eight moves |
| Engine.WalkthroughWins | game_logic/engine.py:14-174 | any eight commands that parse to the walkthrough's steps win a game in the start position in eight moves |
| Engine.GameEngine.constructor | game_logic/engine.py:7-12 | a new engine holds the initial game |
| Engine.GameEngine.IsWon | game_logic/engine.py:41-42 | the win flag; a won engine carries the keycard and has the engine room lit |
| Engine.GameEngine.GetState | game_logic/engine.py:44-51 | the snapshot holds the room, flags, moves and win of the engine, and its inventory sorted, each item once |
| Engine.GameEngine.Execute | game_logic/engine.py:14-39 | the engine's new fields and the reply are those of executing the command on its old state; the invariant is kept |
| Engine.GameEngine.Apply | game_logic/engine.py:17-39 | the fields and reply after a parsed command are those the command gives, case by case |
| Engine.GameEngine.Perform | game_logic/engine.py:38-39 | a known verb counts one move and then leaves the fields and reply its handler gives |
| Engine.GameEngine.Dispatch | game_logic/engine.py:24-39 | the fields and reply after a handler are those the handler gives |
| Engine.GameEngine.Go | game_logic/engine.py:72-84 | the fields and reply after `_go` are those of Go on the old state |
| Engine.GameEngine.Take | game_logic/engine.py:103-122 | the fields and reply after `_take`'s search loop are those of Take on the old state |
| Engine.GameEngine.Use | game_logic/engine.py:124-174 | the fields and reply after `_use`'s search loop are those of Use on the old state |
| Mcp.Get | eval/mcp_runner.py:109 | a missing argument reads as the empty string, a present one as its value |
| Mcp.ToolCommand | eval/mcp_runner.py:104-123 | a tool gets an engine command exactly when it is one of the six tools |
| Mcp.ToolVerb | eval/mcp_runner.py:106-121 | each tool is sent to the engine verb of the same name |
| Mcp.ToolCommandParses | eval/mcp_runner.py:106-121 | each tool's command parses to its verb, with the forwarded argument stripped and lower-cased (nothing for `look` and `inventory`) |
| Mcp.ToolStep | eval/mcp_runner.py:104-123 | a tool call keeps the game inside the tables' domain |
| Mcp.UnknownToolIgnored | eval/mcp_runner.py:122-123 | an unknown tool is answered with its name and leaves the game, move counter included, as it was |
| Mcp.KnownToolCountsOneMove | eval/mcp_runner.py:106-121 | every known tool counts exactly one move and is answered by the engine |
| Mcp.MissingArgumentParsesEmpty | eval/mcp_runner.py:108-119 | a missing or blank argument gives the tool's verb with an empty argument |
| Mcp.EmptyArgumentDispatch | game_logic/engine.py:73-74 | a handler given no argument refuses ("Go where?", "Take what?", ...) and changes nothing |
| Mcp.MissingArgumentRefused | eval/mcp_runner.py:108-119 | a tool call without its argument counts one move, is refused, and changes nothing else |
| Mcp.LookCountsOneMove | eval/mcp_runner.py:100-102 | `look` counts one move, changes nothing else and describes the room |
| Mcp.ToolWinNeedsKeycard | eval/mcp_runner.py:114-116 | a tool call that wins is `use` of the keycard, on the bridge, carried, with the engine room lit |
| Mcp.McpRunner.constructor | eval/mcp_runner.py:97-98 | a new runner holds a new engine in the initial game |
| Mcp.McpRunner.Start | eval/mcp_runner.py:100-102 | starting is executing `look` on the engine |
| Mcp.McpRunner.ExecuteTool | eval/mcp_runner.py:104-123 | the engine's new game and the reply are those of the tool step on its old game |
| Mcp.McpRunner.CheckWin | eval/mcp_runner.py:125-126 | the runner is won exactly when its engine is, and then carries the keycard with the light on |
| Mcp.McpRunner.Reset | eval/mcp_runner.py:128-129 | after a reset the runner holds a new engine in the initial game, however often it is called |
| Harness.Tally | eval/harness.py:127-128 | no calls use no tokens |
| Harness.TallyGrows | eval/harness.py:127-128 | the prompt and completion totals never decrease from one call to the next |
| Harness.BudgetStaysSpent | eval/harness.py:107-111 | once the tokens used reach the budget, they stay at or above it |
| Harness.Charge | eval/harness.py:127-129 | a completed call counts one turn and adds its tokens to the total |
| Harness.ChargeKeepsAccounts | eval/harness.py:107-129 | a call made under the budget keeps the counters equal to the sums of the calls made so far, each made under the budget |
| Harness.AccountedTotal | eval/harness.py:127-129 | exact counters hold the sum of the tokens of the calls made |
| Harness.NothingSpentAccounted | eval/harness.py:96-98 | the counters start exact, with no call made |
| Harness.TallyStep | eval/harness.py:127-128 | one more completed call adds its prompt and completion tokens |
| Harness.Finish | eval/harness.py:294-318 | the record carries what it was given, and its total is the prompt tokens plus the completion tokens |
| Harness.Fmt | eval/harness.py:327-331 | no run shows a dash; a run shows YES exactly when it won, QUIT exactly when it gave up without winning, and its tokens and turns |
| Harness.GiveUpIgnoresCase | eval/harness.py:135 | the give-up test ignores case |
| Harness.ExtractCommand | eval/harness.py:140-144 | the command is one line, contains no "<\|", and starts and ends with no whitespace |
| Harness.ExtractPlain | eval/harness.py:140-144 | a plain one-line command is extracted unchanged |
| Harness.ExtractFirstLine | eval/harness.py:141 | only the first line of a reply is taken |
| Harness.ExtractQuoted | eval/harness.py:140-142 | a plain command with any number of backticks on either side is extracted without them |
| Harness.ExtractBeforeMarker | eval/harness.py:140-144 | a plain command followed by "<\|" and anything else is extracted alone |
| Harness.TrailingEmpty | eval/harness.py:150-156 | the streak counts the empty commands at the end, and no more |
| Harness.CountTrailingEmpty | eval/harness.py:151-156 | the backward loop counts exactly the trailing empty commands |
| Harness.Warnings | eval/harness.py:164-167 | at most one warning per command |
| Harness.NonEmpty | eval/harness.py:149-169 | the commands that reach the shell are never empty |
| Harness.NonEmptyAppend | eval/harness.py:149-169 | one more command reaches the shell exactly when it is not empty |
| Harness.RepeatWarnsAndRuns | eval/harness.py:164-169 | a third equal command in a row is warned about and still runs |
| BashEval.Reading | eval/harness.py:113-144 | a failed call reads as failed; a completed one keeps its usage |
| BashEval.Reads | eval/harness.py:113-144 | one reading per response |
| BashEval.BashTurn | eval/harness.py:107-181 | a pass that goes round again made exactly one completed call |
| BashEval.OnCommand | eval/harness.py:146-181 | handling a command spends no tokens |
| BashEval.Close | eval/harness.py:183-185 | the record is won exactly when the run stopped on a win, and gave up exactly when it stopped on a give-up |
| BashEval.CloseKeeps | eval/harness.py:183-185 | the record holds the loop's turns, tokens and commands, and the run's warnings and stop |
| BashEval.Pass | eval/harness.py:107-181 | one pass of the loop does what BashTurn says, and runs exactly the non-empty commands |
| BashEval.RunCommand | eval/harness.py:146-181 | handling a command does what OnCommand says, and runs exactly the non-empty commands |
| BashEval.RunBashEval | eval/harness.py:87-185 | the loop returns the run that BashRun defines over the same responses and shell |
| BashEval.AppendCommand | eval/harness.py:146-167 | an empty command lengthens the streak and a non-empty one resets it; a warning is added exactly for a non-empty third repeat |
| BashEval.AppendNotWon | eval/harness.py:172-176 | a command that does not win, or does not run, keeps the run unwon |
| BashEval.LogCommand | eval/harness.py:124-146 | a completed call logs its command and keeps the accounts exact |
| BashEval.StopsBeforeCall | eval/harness.py:107-122 | a spent budget stops the run before the call; otherwise a failed or missing response stops it as an API error |
| BashEval.GiveUpEnds | eval/harness.py:135-138 | a give-up ends the run, charged, before any command is logged |
| BashEval.EmptyCommandEnds | eval/harness.py:150-162 | the fifth empty command in a row stops the run; before that it goes on |
| BashEval.CommandEnds | eval/harness.py:164-181 | a command that wins stops the run; any other lets it go on |
| BashEval.TurnEnds | eval/harness.py:107-181 | each pass either ends the run as `Ends` says or leaves it running |
| BashEval.BashFromEnds | eval/harness.py:107-181 | from any running state the run ends as `Ends` says |
| BashEval.FreshRunning | eval/harness.py:96-101 | the loop starts from a running state |
| BashEval.RunEnds | eval/harness.py:107-181 | a run from its first pass ends as `Ends` says |
| BashEval.ReadsMatch | eval/harness.py:113-144 | the readings read the responses |
| BashEval.BashRunEnds | eval/harness.py:87-185 | a whole run's tokens are the sum over its calls, each made under the budget; it stops for the reason it reports; it stops at five trailing empty commands exactly; it is won exactly when the last command won and no earlier one did; its record's flags match its stop |
| McpEval.LogEntry | eval/harness.py:241-247 | the log entry holds the tool's name and its arguments, or `{}` when they do not decode |
| McpEval.Reading | eval/harness.py:215-287 | a failed call reads as failed; tool calls take precedence over text; a response with neither calls nor text is empty |
| McpEval.Reads | eval/harness.py:215-287 | one reading per response |
| McpEval.Perform | eval/mcp_runner.py:104-123 | the runner's step keeps the game inside the tables' domain |
| McpEval.CallRun | eval/harness.py:240-262 | the inner loop logs at most one entry per call |
| McpEval.WonSkipsRest | eval/harness.py:259-265 | once a call has won, the calls after it are neither logged nor executed |
| McpEval.Begun | eval/harness.py:189-190 | the started game satisfies the invariant and is not won |
| McpEval.StartIsLook | eval/mcp_runner.py:100-102 | starting a new runner gives the started game |
| McpEval.McpTurn | eval/harness.py:209-287 | a pass that goes round again made exactly one completed call |
| McpEval.Close | eval/harness.py:289-291 | the record is won exactly when the run stopped on a win, and gave up exactly when it stopped on a give-up |
| McpEval.CloseKeeps | eval/harness.py:289-291 | the record holds the loop's turns, tokens and log, and the run's stop |
| McpEval.McpFromTurn | eval/harness.py:209-287 | a pass that goes round again leaves the rest of the run to the next pass |
| McpEval.ExecuteCalls | eval/harness.py:240-265 | the engine's game, the log and the win after the inner loop are those CallRun gives |
| McpEval.Pass | eval/harness.py:209-287 | one pass of the loop does what McpTurn says, on the runner's engine |
| McpEval.StartRunner | eval/harness.py:189-190 | a new runner, started, holds the started game |
| McpEval.RunMcpEval | eval/harness.py:188-291 | the loop returns the run that McpRun defines over the same responses |
| McpEval.ReplayAppend | eval/harness.py:247-248 | replaying two logs in turn is replaying them joined |
| McpEval.CallRunPlays | eval/harness.py:240-262 | the game after the inner loop is the replay of what it logged, won exactly when its last logged call won it |
| McpEval.CallRunLogs | eval/harness.py:240-262 | the inner loop logs the calls in order, all of them unless one won |
| McpEval.LogEntries | eval/harness.py:241-247 | one entry per tool call, in order |
| McpEval.CallsLogged | eval/harness.py:240-262 | the log of the inner loop is a prefix of the calls' entries, all of them unless one won |
| McpEval.EmptyTail | eval/harness.py:280-286 | the count of the empty responses the calls made so far end with |
| McpEval.StopsBeforeCall | eval/harness.py:209-225 | a spent budget stops the run before the call; otherwise a failed or missing response stops it as an API error |
| McpEval.ChargeCall | eval/harness.py:227-231 | a completed call keeps the accounts exact and under the budget |
| McpEval.SaidEnds | eval/harness.py:267-278 | a text response gives up, or resets the streak and lets the run go on |
| McpEval.SilenceEnds | eval/harness.py:280-287 | an empty response lengthens the streak; the fifth in a row stops the run |
| McpEval.CallsEnd | eval/harness.py:236-265 | a response with tool calls resets the streak, and stops the run exactly when one of its calls wins |
| McpEval.CallsPlayed | eval/harness.py:240-265 | the calls of one response extend the replay, won exactly when the last call won it |
| McpEval.WonLast | eval/harness.py:259-265 | a win by the last call of a response is a win by the last call of the whole log |
| McpEval.TurnEnds | eval/harness.py:209-287 | each pass either ends the run as `Ends` says or leaves it running |
| McpEval.McpFromEnds | eval/harness.py:209-287 | from any running state the run ends as `Ends` says |
| McpEval.TurnLogs | eval/harness.py:236-265 | each pass keeps the log equal to the calls requested so far, or ends the run as `LogEnds` says |
| McpEval.CallsLog | eval/harness.py:240-265 | the log after a response's calls holds them, up to the winning one |
| McpEval.McpFromLogs | eval/harness.py:209-287 | from a state that keeps the log, the run ends as `LogEnds` says |
| McpEval.ReadsMatch | eval/harness.py:215-287 | the readings read the responses |
| McpEval.FreshRunning | eval/harness.py:196-203 | the loop starts from a running state |
| McpEval.RunEnds | eval/harness.py:188-291 | a run from its first pass ends as `Ends` says |
| McpEval.PerformKeepsInv | eval/mcp_runner.py:104-123 | a tool call keeps the engine's invariant, and a won game stays won |
| McpEval.ReplayKeepsInv | eval/harness.py:247-248 | every game the runner replays keeps the invariant |
| McpEval.McpRunAccounts | eval/harness.py:188-291 | a whole run's tokens are the sum over its calls, each made under the budget; it stops for the reason it reports; it stops for empty responses exactly when it ends with five; its record's flags match its stop |
| McpEval.McpRunLogs | eval/harness.py:236-265 | a whole run logs every tool call its responses asked for, in order, except the calls after a winning one |
| McpEval.McpRunWins | eval/harness.py:259-265 | a whole run is won exactly when replaying its log wins the started game; then only the last call won it, and that call is `use` of the keycard on the bridge |
| McpEval.CloseWins | eval/harness.py:289-291 | the record of a run that ended as its game did is won exactly as its replayed log |
| McpEval.RunWinEnds | eval/harness.py:259-265 | a run on the runner's engine stops on a win exactly when its game is won |
| McpEval.WonByWinningCall | eval/harness.py:259-265 | a run stops on a win exactly when its replayed log wins, and then its last call is the winning call |
| McpEval.PerformWins | eval/mcp_runner.py:114-116 | a call that wins a game not yet won is the winning call |
| Report.Kept | eval/report.py:21-23 | every record kept has the required keys and its file name, and there are no more records than files |
| Report.LoadRuns | eval/report.py:10-26 | the loading loop returns exactly the records Kept defines |
| Report.KeptAppend | eval/report.py:13-25 | the listing is filtered file by file |
| Report.KeptIff | eval/report.py:13-25 | a record is loaded exactly when its file passes the filter |
| Report.ModelLabel | eval/report.py:29-33 | the label has no "/" and is the end of the model name, following a "/" unless it is the whole name |
| Report.ModelLabelOfPath | eval/report.py:29-33 | a routed name's label is its last segment, and a name without "/" is its own label |
| Report.PrettyLabel | eval/report.py:36-38 | the same length; spaces exactly where the label had a space, dash or underscore; a letter is upper-cased exactly when it starts a word and lower-cased when it follows a letter; every other character is kept |
| Report.PrettyLabelIdempotent | eval/report.py:36-38 | a pretty label is already pretty |
| Report.Keys | eval/report.py:48-51 | no more groups than runs |
| Report.Members | eval/report.py:48-51 | no more members than runs |
| Report.KeysIff | eval/report.py:48-51 | each group is listed once; every run's group is listed, and only groups with members are; a group's members are exactly the runs with its label and mode |
| Report.ReadRun | eval/report.py:50-97 | a record is read exactly when it has text "model" and "mode", a text "label" or none, a "won" field and a numeric "total_tokens"; a record missing "model", "mode", "won" or "total_tokens" cannot be read; a read record has text "model" and "mode" (and "label", when present) and a numeric "total_tokens"; the run's label is its "label", else the last segment of its "model", and its mode, win flag, tokens and turns are those fields |
| Report.RecordGroup | eval/report.py:48-51 | every readable record falls into exactly one group, keyed by its "label" (or its model's label when it has none) and its "mode", and is among that group's runs |
| Report.GroupRuns | eval/report.py:48-51 | the grouping loop gives each group, in first-seen order, the runs of that group in order |
| Report.StatsOf | eval/report.py:77-86 | the count is the number of runs, the wins at most that, and the minimum and maximum exist exactly when there are runs |
| Report.TokenBounds | eval/report.py:81-84 | the minimum and maximum bound every run's tokens and are attained |
| Report.AverageBetween | eval/report.py:81-84 | the average lies between the minimum and the maximum |
| Report.MergeAssociative | eval/report.py:77-86 | combining statistics is associative |
| Report.MergeCommutative | eval/report.py:77-86 | combining statistics is commutative |
| Report.StatsAppend | eval/report.py:77-86 | the statistics of runs end to end combine those of the parts |
| Report.StatsIgnoreOrder | eval/report.py:77-86 | a group's statistics do not depend on the order of its records |
| Report.GroupsPartition | eval/report.py:48-51 | the groups partition the runs: their statistics combined are those of all runs |
| Report.ModeRows | eval/report.py:73-91 | a label has at most one row per mode |
| Report.Table | eval/report.py:72-91 | the table loops give the rows TableRows defines |
| Report.TableIff | eval/report.py:72-91 | a row appears exactly for a group of a shown mode, with that group's statistics |
| Report.TableOrdered | eval/report.py:54-91 | with sorted labels the rows come label by label, bash before mcp |
| Report.Winners | eval/report.py:108 | there are no winners exactly when no run won |
| Report.BuildLeaderboard | eval/report.py:106-112 | the leaderboard loop gives the entries Candidates defines |
| Report.CandidatesIff | eval/report.py:106-112 | every entry is a group's, and every group with a winner has its entry |
| Report.BeforeTotal | eval/report.py:114 | any two entries are ordered one way or the other |
| Report.Insert | eval/report.py:114 | inserting makes the board one entry longer, headed by the new entry or by the old head |
| Report.SortPlaces | eval/report.py:114 | sorting keeps the number of entries |
| Report.InsertRanks | eval/report.py:114 | inserting into a ranked board keeps it ranked and adds the entry |
| Report.SortPlacesRanks | eval/report.py:114 | the sorted leaderboard is ranked and holds the same entries |
| Report.GenerateReport | eval/report.py:41-118 | the report over a log directory is ReportOf of the records loaded from it |
| Report.ReportTable | eval/report.py:41-99 | the table has a row for exactly the groups of a shown mode, each with its group's statistics and at least one run, in label order and bash before mcp; the totals are those of all runs, which the groups partition, with wins at most runs |
| Report.ReportLeaderboard | eval/report.py:101-116 | the leaderboard is ranked by average tokens to win, then label, mode and wins, and holds an entry for exactly the groups with a winning run, with the tokens and number of those winning runs |
| Report.LeaderboardOf | eval/report.py:106-114 | the sorted entries of the groups are ranked, each is a group's, and every group with a winner is entered |
| Text.TitleCases | eval/report.py:38 | title-casing keeps the length and which characters are letters, changes no other character, upper-cases exactly the letters that start a word, and lower-cases a letter that follows a letter |
| Text.AfterLastOfJoin | eval/report.py:32-33 | the part after the last separator of a joined name is its last part |

## Left out

- I/O: printing, the log files, the `Logger` class, reading the log directory, decoding
  JSON files, `load_dotenv`, YAML model lists, `argparse` and `main`, the reset
  script, and the timestamp of a run record.
- The prompts and the messages sent back to the model. The model is the sequence of
  its responses, given in advance, so what it is told cannot change what it answers.
  Running out of responses is read as a failed call (an API error).
- `litellm.completion` and which exception it raises: a failed call is one kind of
  response.
- The shell runner in bash mode: it lives in a real filesystem, so the model takes it
  as a function from the commands run so far to whether the game is won. Its output
  text is left out. `eval/bash_runner.py` is not part of this model.
- `mcp_adventure/server.py`, which only forwards to the engine.
- The narrative text of the replies, abstracted as described above. The help text is
  one outcome, and `TOOL_SCHEMAS` is left out beyond the six tool names.
- Tool-call arguments are a map from names to strings. A JSON argument that is not a
  string, and arguments that decode to something other than an object, are left out.
- JSON record fields in the report are strings, integers and booleans. Floats, null,
  lists and objects are left out.
- A record the report cannot read stops it (`Crashed`), whatever the exception. So does
  a record without "won" or without "turns" in a shown mode. A label or mode that is
  not a string also stops the model, while the program groups it without error
  (eval/report.py:50-51) and fails only where `sorted` (line 54) or
  `leaderboard.sort()` (line 114) must compare it with a string: here the model stops
  where the program may go on. The partial output printed before the crash is left out.
- Float averages and percentages: a group's statistics keep integer sums and counts.
  The leaderboard compares averages by cross-multiplication.
- The Python string operations (`strip`, `lower`, `upper`, `title`, `split`) are
  modelled for ASCII whitespace and letters only.
- `pretty_label` is modelled, but `generate_report` never calls it, so the report
  uses raw labels.
- `_print_comparison` beyond `fmt`.
- BashEval.Reading: a completed call whose message has no text (`content` is None) makes
  `run_bash_eval` raise at eval/harness.py:125, outside the `try` of lines 113-122, and
  nothing around the call catches it; the model reads such a reply as an empty one.
- Report.LoadRuns: a file holding valid JSON that is a number, a boolean or null makes
  the key test at eval/report.py:21 raise a `TypeError`, which the `except` at line 24
  does not catch, so the report stops. A `LogFile` either decodes to an object or does
  not decode, so such files are not modelled.
- McpEval.Perform: on a game outside the handlers' domain, which no run reaches
  (ReplayKeepsInv), the step leaves the game as it is.
- Engine.GameState.Go, Engine.GameState.Take, Engine.GameState.Use, Engine.GameState.Execute:
  their own contracts only keep the state inside the tables' domain. What they do
  is stated by the lemmas beside them: GoMovesAlongExits, TakeSucceedsIff,
  UseNeedsItem, KeycardOnBridgeWins and ExecuteCountsMoves.

Where a reading of the intended behaviour and the code differ, the model follows the code:

- the budget is checked at the top of each pass, so the last call may overshoot it;
- in MCP mode, a response whose text is only whitespace still counts as text, so it
  resets the empty streak and does not count as empty;
- tool calls take precedence over text in the same response;
- a group's token statistics cover all its runs, while the leaderboard averages only
  the winning ones;
- the table shows only the modes "bash" and "mcp", but runs of other modes still
  count in the totals and the leaderboard.
