/**
 * The structured-call adapter: a tool name and its argument dictionary become
 * one engine command, which the runner's engine executes. The runner owns one
 * engine and replaces it on `reset`.
 */
module Mcp {
  import opened Wrappers
  import opened Text
  import opened Engine

  /** The names of the tools the runner offers. */
  const TOOLS: set<string> := {"look", "go", "take", "use", "read", "inventory"}

  /** `arguments.get(key, "")` */
  function Get(arguments: map<string, string>, key: string): (value: string)
    ensures key !in arguments ==> value == []
    ensures key in arguments ==> value == arguments[key]
  {
    if key in arguments then arguments[key] else ""
  }

  /** The argument key a tool forwards: `direction` for `go`, `item` otherwise. */
  function ArgumentKey(tool: string): string {
    if tool == "go" then "direction" else "item"
  }

  /** The engine command `execute_tool` sends for a tool call, or `None` for a
      tool name it does not know. */
  function ToolCommand(tool: string, arguments: map<string, string>): (command: Option<string>)
    ensures command.None? <==> tool !in TOOLS
  {
    if tool == "look" then Some("look")
    else if tool == "go" then Some("go " + Get(arguments, "direction"))
    else if tool == "take" then Some("take " + Get(arguments, "item"))
    else if tool == "use" then Some("use " + Get(arguments, "item"))
    else if tool == "read" then Some("read " + Get(arguments, "item"))
    else if tool == "inventory" then Some("inventory")
    else None
  }

  /** Every tool is named after the engine verb it drives. */
  function ToolVerb(tool: string): (verb: Verb)
    requires tool in TOOLS
    ensures VerbName(verb) == tool
  {
    if tool == "look" then Look
    else if tool == "go" then Go
    else if tool == "take" then Take
    else if tool == "use" then Use
    else if tool == "read" then Read
    else Inventory
  }

  /** Whether the tool takes an argument (all but `look` and `inventory`). */
  predicate TakesArgument(tool: string) {
    tool in {"go", "take", "use", "read"}
  }

  /** Each tool's command is recognised by the engine: it selects the verb of the
      same name, and its argument is the forwarded value, stripped and
      lower-cased (empty for `look`, `inventory` and a missing key). */
  lemma ToolCommandParses(tool: string, arguments: map<string, string>)
    requires tool in TOOLS
    ensures ToolCommand(tool, arguments).Some?
    ensures Parse(ToolCommand(tool, arguments).value) ==
              Known(ToolVerb(tool),
                    if TakesArgument(tool) then Lower(Strip(Get(arguments, ArgumentKey(tool)))) else [])
  {
    var verb := ToolVerb(tool);
    if TakesArgument(tool) {
      var key := ArgumentKey(tool);
      assert ToolCommand(tool, arguments).value == VerbName(verb) + " " + Get(arguments, key);
      ParseVerbThen(verb, Get(arguments, key));
    } else {
      assert ToolCommand(tool, arguments).value == VerbName(verb);
      ParseVerbAlone(verb);
    }
  }

  /** What `execute_tool` returns: the engine's reply, or the unknown-tool message. */
  datatype Reply = Narrated(out: Outcome) | UnknownTool(name: string)

  /** What `execute_tool` does to an engine in state `s`: its next state and the reply. */
  function ToolStep(s: GameState, tool: string, arguments: map<string, string>): (r: (GameState, Reply))
    requires s.Consistent()
    ensures r.0.Consistent()
  {
    match ToolCommand(tool, arguments)
    case None => (s, UnknownTool(tool))
    case Some(command) =>
      var e := s.Execute(command);
      (e.state, Narrated(e.out))
  }

  /** An unknown tool is answered with its name and leaves the engine as it was,
      move counter included. */
  lemma UnknownToolIgnored(s: GameState, tool: string, arguments: map<string, string>)
    requires s.Consistent() && tool !in TOOLS
    ensures ToolStep(s, tool, arguments) == (s, UnknownTool(tool))
  {
  }

  /** A known tool always reaches a handler, so it counts exactly one move, even
      when the handler refuses. */
  lemma KnownToolCountsOneMove(s: GameState, tool: string, arguments: map<string, string>)
    requires s.Consistent() && tool in TOOLS
    ensures ToolStep(s, tool, arguments).0.moves == s.moves + 1
    ensures ToolStep(s, tool, arguments).1.Narrated?
  {
    ToolCommandParses(tool, arguments);
    ExecuteCountsMoves(s, ToolCommand(tool, arguments).value);
  }

  /** The refusal each argument-taking handler gives for an empty argument. */
  function EmptyArgumentReply(tool: string): (out: Outcome)
    requires TakesArgument(tool)
  {
    if tool == "go" then GoWhere
    else if tool == "take" then TakeWhat
    else if tool == "use" then UseWhat
    else ReadWhat
  }

  /** A missing or blank argument reaches the engine as an empty argument. */
  lemma MissingArgumentParsesEmpty(tool: string, arguments: map<string, string>)
    requires TakesArgument(tool)
    requires ArgumentKey(tool) !in arguments || AllSpace(arguments[ArgumentKey(tool)])
    ensures ToolCommand(tool, arguments).Some?
    ensures Parse(ToolCommand(tool, arguments).value) == Known(ToolVerb(tool), [])
  {
    var value := Get(arguments, ArgumentKey(tool));
    if ArgumentKey(tool) in arguments {
      StripAllSpace(value);
    }
    assert Strip(value) == [];
    assert Lower(Strip(value)) == [];
    ToolCommandParses(tool, arguments);
  }

  /** Each argument-taking handler refuses an empty argument and changes nothing. */
  lemma EmptyArgumentDispatch(t: GameState, tool: string)
    requires t.Consistent() && TakesArgument(tool)
    ensures t.Dispatch(ToolVerb(tool), []) == Effect(t, EmptyArgumentReply(tool))
  {
    if tool == "go" {
      assert t.Dispatch(Go, []) == t.Go([]);
    } else if tool == "take" {
      assert t.Dispatch(Take, []) == t.Take([]);
    } else if tool == "use" {
      assert t.Dispatch(Use, []) == t.Use([]);
    } else {
      assert t.Dispatch(Read, []) == Effect(t, t.Read([]));
    }
  }

  /** A missing (or blank) argument reaches the handler as "": the engine
      refuses with "Go where?", "Take what?", "Use what?" or "Read what?",
      and only the move counter changes. */
  lemma MissingArgumentRefused(s: GameState, tool: string, arguments: map<string, string>)
    requires s.Consistent() && TakesArgument(tool)
    requires ArgumentKey(tool) !in arguments || AllSpace(arguments[ArgumentKey(tool)])
    ensures s.Execute(ToolCommand(tool, arguments).value) ==
              Effect(s.(moves := s.moves + 1), EmptyArgumentReply(tool))
  {
    MissingArgumentParsesEmpty(tool, arguments);
    ExecuteKnown(s, ToolCommand(tool, arguments).value);
    EmptyArgumentDispatch(s.(moves := s.moves + 1), tool);
  }

  /** `look`, as `start` sends it: one move, and the room's description. */
  lemma LookCountsOneMove(s: GameState)
    requires s.Consistent()
    ensures s.Execute("look") == Effect(s.(moves := s.moves + 1), Described(s.LookView()))
  {
    ParseVerbAlone(Look);
    ExecuteKnown(s, "look");
  }

  /** Only a `use` call naming the keycard, made on the bridge with the keycard
      carried and the engine room lit, turns a game that is not won into a won one. */
  lemma ToolWinNeedsKeycard(s: GameState, tool: string, arguments: map<string, string>)
    requires s.Inv() && !s.IsWon() && ToolStep(s, tool, arguments).0.IsWon()
    ensures tool == "use" && ItemName(Lower(Strip(Get(arguments, "item")))) == "keycard"
    ensures s.room == "bridge" && "keycard" in s.inventory && s.flags["engine_room_lit"]
  {
    ToolCommandParses(tool, arguments);
    var command := ToolCommand(tool, arguments).value;
    WinNeedsKeycardOnBridge(s, command);
    assert ToolVerb(tool) == Use;
  }

  class McpRunner {
    var engine: GameEngine

    ghost predicate Valid()
      reads this, engine
    {
      engine.Valid()
    }

    /** `__init__`: a fresh engine in its initial state. */
    constructor ()
      ensures Valid() && fresh(engine) && engine.State() == Init()
    {
      engine := new GameEngine();
    }

    /** `start()`: a `look`, which counts as a move. */
    method Start() returns (out: Outcome)
      requires Valid()
      modifies engine
      ensures Valid()
      ensures Effect(engine.State(), out) == old(engine.State()).Execute("look")
    {
      out := engine.Execute("look");
    }

    /** `execute_tool(tool_name, arguments)`: a known tool runs its command on the
        engine; an unknown one is answered without touching the engine. */
    method ExecuteTool(tool: string, arguments: map<string, string>) returns (reply: Reply)
      requires Valid()
      modifies engine
      ensures Valid()
      ensures (engine.State(), reply) == ToolStep(old(engine.State()), tool, arguments)
    {
      var command := ToolCommand(tool, arguments);
      if command.None? {
        return UnknownTool(tool);
      }
      var out := engine.Execute(command.value);
      return Narrated(out);
    }

    /** `check_win()`: the engine's win flag; a won game holds the keycard with
        the engine room lit. */
    function CheckWin(): (won: bool)
      reads this, engine
      requires Valid()
      ensures won == engine.State().IsWon()
      ensures won ==> "keycard" in engine.inventory && engine.flags["engine_room_lit"]
    {
      engine.IsWon()
    }

    /** `reset()`: a new engine in the initial state, whatever came before. */
    method Reset()
      modifies this
      ensures Valid() && fresh(engine) && engine.State() == Init()
    {
      engine := new GameEngine();
    }
  }
}
