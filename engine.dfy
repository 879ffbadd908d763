/**
 * The puzzle engine: a deterministic state machine over the current room, the
 * inventory, the set of taken items, the puzzle flags and a move counter.
 *
 * `GameState` is one engine's state as a value, and its members say what each
 * command does to it. `GameEngine` is the object the runners hold: its methods
 * change its fields in place and are proved to follow `GameState.Execute`.
 */
module Engine {
  import opened Wrappers
  import opened Text
  import opened Ordering
  import opened World

  /** The handlers of the dispatch table. */
  datatype Verb = Look | Go | Take | Use | Inventory | Help | Read

  /** The word that selects each handler. */
  function VerbName(v: Verb): (word: string)
    ensures word != [] && NoSpace(word) && Lower(word) == word
  {
    match v
    case Look => "look"
    case Go => "go"
    case Take => "take"
    case Use => "use"
    case Inventory => "inventory"
    case Help => "help"
    case Read => "read"
  }

  /** The keys of the dispatch table. */
  const VERBS: set<string> := {"look", "go", "take", "use", "inventory", "help", "read"}

  /** Looking a word up in the dispatch table. */
  function VerbOf(word: string): (v: Option<Verb>)
    ensures v.Some? <==> word in VERBS
    ensures v.Some? ==> VerbName(v.value) == word
  {
    if word == "look" then Some(Look)
    else if word == "go" then Some(Go)
    else if word == "take" then Some(Take)
    else if word == "use" then Some(Use)
    else if word == "inventory" then Some(Inventory)
    else if word == "help" then Some(Help)
    else if word == "read" then Some(Read)
    else None
  }

  /** Every handler is found under its own word. */
  lemma VerbOfName(v: Verb)
    ensures VerbOf(VerbName(v)) == Some(v)
  {
  }

  const DEFAULT_TAKE_FAIL: string := "You can't take that right now."

  /** The reply to one command, with the narrative text abstracted away. */
  datatype Outcome =
    | SaySomething                                // blank command
    | UnknownCommand(verb: string)
    | Described(view: View)                       // look
    | Entered(roomName: string, view: View)       // go, successful
    | GoWhere
    | CannotGo(direction: string, exits: seq<string>)
    | TakeWhat
    | AlreadyTook(itemName: string)
    | TakeRefused(message: string)
    | PickedUp(itemName: string)
    | NothingToTake(itemName: string)
    | UseWhat
    | DontHave(itemName: string)
    | FlashlightAlreadyOn
    | FlashlightOn
    | WaveFlashlight
    | ConsoleActivated(moves: nat)                // the win, with the move count
    | NothingForKeycard
    | CrewLogText                                 // the crew log's text is shown
    | CannotUse(itemName: string)
    | ReadWhat
    | NoCrewLog
    | CannotRead(itemName: string)
    | CarryingNothing
    | Carrying(names: seq<string>)
    | HelpText

  /** What `get_state()` returns. */
  datatype Snapshot = Snapshot(currentRoom: string, inventory: seq<string>,
                               flags: map<string, bool>, moves: nat, won: bool)

  /** A new state together with the reply that led to it. */
  datatype Effect = Effect(state: GameState, out: Outcome)

  datatype GameState = GameState(room: string, inventory: set<string>, flags: map<string, bool>,
                                 taken: set<string>, moves: nat)
  {
    /** What the handlers' dictionary lookups need: the room, the
        `engine_room_lit` flag and an ITEMS entry for each carried item exist. */
    predicate Consistent() {
      room in ROOMS && "engine_room_lit" in flags && inventory <= ITEM_IDS
    }

    /** The invariant of every reachable state: the room is real, the flags are
        exactly the puzzle flags, what was taken is what is carried, and the
        win needs the keycard, which needs the light. */
    predicate Inv() {
      && room in ROOMS
      && flags.Keys == INITIAL_FLAGS.Keys
      && inventory == taken
      && inventory <= ITEM_IDS
      && ("keycard" in inventory ==> flags["engine_room_lit"])
      && (flags["console_activated"] ==> "keycard" in inventory)
    }

    /** `flags.get(name, False)` */
    function Flag(name: string): bool {
      if name in flags then flags[name] else false
    }

    /** `is_won()` */
    predicate IsWon() {
      Flag("console_activated")
    }

    /** The description `_look` shows. */
    function LookView(): (v: View)
      requires Consistent()
      ensures v in ROOMS[room].views
      ensures room == "engine_room" ==>
                v == (if !flags["engine_room_lit"] then Dark else if "keycard" !in taken then Lit else Looted)
      ensures room == "med_bay" ==> (v == Looted <==> "crew_log" in taken) && (v == Plain <==> "crew_log" !in taken)
      ensures room != "engine_room" && room != "med_bay" ==> v == Plain
    {
      if room == "engine_room" then
        if !flags["engine_room_lit"] then Dark
        else if "keycard" !in taken then Lit
        else Looted
      else if room == "med_bay" && "crew_log" in taken then Looted
      else Plain
    }

    /** The description `_enter_room` shows after its "You enter the ..." prefix:
        the same choice as `_look`, written as the source writes it. */
    function EnterView(): (v: View)
      requires Consistent()
      ensures v == LookView()
    {
      if room == "engine_room" && !flags["engine_room_lit"] then Dark
      else if room == "engine_room" then (if "keycard" !in taken then Lit else Looted)
      else if room == "med_bay" && "crew_log" in taken then Looted
      else Plain
    }

    /** `_go(direction)` */
    function Go(direction: string): (e: Effect)
      requires Consistent()
      ensures e.state.Consistent()
    {
      if direction == [] then Effect(this, GoWhere)
      else
        var exits := ROOMS[room].exits;
        match ExitTo(exits, direction)
        case None => Effect(this, CannotGo(direction, Directions(exits)))
        case Some(dest) =>
          ExitToIsRoom(room, direction);
          var next := this.(room := dest);
          Effect(next, Entered(ROOMS[dest].name, next.EnterView()))
    }

    /** Whether the item's `take_condition`, if any, is met. */
    predicate TakeAllowed(it: Item) {
      !(it.takeCondition.Some? && it.takeCondition.value != [] && !Flag(it.takeCondition.value))
    }

    /** `_take(item_name)`: the first item of that name lying in this room. */
    function Take(itemName: string): (e: Effect)
      requires Consistent()
      ensures e.state.Consistent()
    {
      if itemName == [] then Effect(this, TakeWhat)
      else
        var name := ReplaceChar(itemName, '_', ' ');
        match FindItem(name, Some(room), 0)
        case None => Effect(this, NothingToTake(name))
        case Some(i) =>
          var it := ITEMS[i];
          if it.id in taken then Effect(this, AlreadyTook(name))
          else if !TakeAllowed(it) then Effect(this, TakeRefused(it.takeFail.GetOr(DEFAULT_TAKE_FAIL)))
          else Effect(this.(inventory := inventory + {it.id}, taken := taken + {it.id}), PickedUp(it.name))
    }

    /** `_use(item_name)`: the first item of that name anywhere, if carried. */
    function Use(itemName: string): (e: Effect)
      requires Consistent()
      ensures e.state.Consistent()
    {
      if itemName == [] then Effect(this, UseWhat)
      else
        var name := ReplaceChar(itemName, '_', ' ');
        var found := FindItem(name, None, 0);
        if found.None? || ITEMS[found.value].id !in inventory then Effect(this, DontHave(name))
        else UseHeld(ITEMS[found.value].id, name)
    }

    /** The rest of `_use`, once the item `id` is known to be carried. */
    function UseHeld(id: string, name: string): (e: Effect)
      requires Consistent()
      ensures e.state.Consistent()
    {
      if id == "flashlight" && room == "engine_room" then
        if flags["engine_room_lit"] then Effect(this, FlashlightAlreadyOn)
        else Effect(this.(flags := flags["engine_room_lit" := true]), FlashlightOn)
      else if id == "flashlight" then Effect(this, WaveFlashlight)
      else if id == "keycard" && room == "bridge" then
        Effect(this.(flags := flags["console_activated" := true]), ConsoleActivated(moves))
      else if id == "keycard" then Effect(this, NothingForKeycard)
      else if id == "crew_log" then Effect(this, CrewLogText)
      else Effect(this, CannotUse(name))
    }

    /** `_read(item_name)`: only the crew log can be read, and only while it
        is carried. */
    function Read(itemName: string): (out: Outcome)
      ensures out == ReadWhat <==> itemName == []
      ensures out == CrewLogText <==> ItemName(itemName) == "crew log" && "crew_log" in inventory
      ensures out == NoCrewLog <==> ItemName(itemName) == "crew log" && "crew_log" !in inventory
      ensures out.CannotRead? <==> itemName != [] && ItemName(itemName) != "crew log"
      ensures out.CannotRead? ==> out.itemName == ItemName(itemName)
    {
      if itemName == [] then ReadWhat
      else
        var name := ReplaceChar(itemName, '_', ' ');
        if name == "crew log" && "crew_log" in inventory then CrewLogText
        else if name == "crew log" then NoCrewLog
        else CannotRead(name)
    }

    /** `_inventory()`: the names of the carried items, in order of their keys. */
    function ListInventory(): (out: Outcome)
      requires inventory <= ITEM_IDS
      ensures out.Carrying? ==> |out.names| == |inventory|
      ensures out.Carrying? ==> forall k :: 0 <= k < |out.names| ==>
                exists id :: id in inventory && out.names[k] == ItemById(id).name
      ensures out.CarryingNothing? <==> inventory == {}
      ensures out.Carrying? ==> forall id :: id in inventory ==> ItemById(id).name in out.names
    {
      if inventory == {} then CarryingNothing
      else
        Carrying(Names(SortedSet(inventory)))
    }

    /** `execute(command)` */
    function Execute(command: string): (e: Effect)
      requires Consistent()
      ensures e.state.Consistent()
    {
      Apply(Parse(command))
    }

    /** What `execute` does once the command is parsed: only a known verb
        counts as a move. */
    function Apply(c: Command): (e: Effect)
      requires Consistent()
      ensures e.state.Consistent()
    {
      match c
      case Blank => Effect(this, SaySomething)
      case Unknown(word) => Effect(this, UnknownCommand(word))
      case Known(verb, arg) => this.(moves := moves + 1).Dispatch(verb, arg)
    }

    /** The handler a known verb is sent to. */
    function Dispatch(verb: Verb, arg: string): (e: Effect)
      requires Consistent()
      ensures e.state.Consistent()
    {
      match verb
      case Look => Effect(this, Described(LookView()))
      case Go => this.Go(arg)
      case Take => this.Take(arg)
      case Use => this.Use(arg)
      case Inventory => Effect(this, ListInventory())
      case Help => Effect(this, HelpText)
      case Read => Effect(this, this.Read(arg))
    }
  }

  /** `ITEMS[item_id]["name"] for item_id in ids` */
  function Names(ids: seq<string>): (names: seq<string>)
    requires forall k :: 0 <= k < |ids| ==> ids[k] in ITEM_IDS
    ensures |names| == |ids| && forall k :: 0 <= k < |ids| ==> names[k] == ItemById(ids[k]).name
  {
    if ids == [] then [] else [ItemById(ids[0]).name] + Names(ids[1..])
  }

  /** The state `__init__` creates. */
  function Init(): (s: GameState)
    ensures s.Inv() && !s.IsWon()
    ensures StartLike(s) && s.moves == 0
  {
    GameState(START_ROOM, {}, INITIAL_FLAGS, {}, 0)
  }

  /** What `_take` and `_use` look for: an item of that name, lying in
      `room` when one is given (`_take`) and anywhere otherwise (`_use`). */
  predicate Fits(it: Item, name: string, room: Option<string>) {
    it.name == name && (room.Some? ==> it.location == room.value)
  }

  /** The loop over `ITEMS.items()`: the first item from index `i` on that fits. */
  function FindItem(name: string, room: Option<string>, i: nat): (r: Option<nat>)
    requires i <= |ITEMS|
    ensures r.Some? ==> i <= r.value < |ITEMS| && Fits(ITEMS[r.value], name, room)
    ensures r.Some? ==> forall j :: i <= j < r.value ==> !Fits(ITEMS[j], name, room)
    ensures r.None? ==> forall j :: i <= j < |ITEMS| ==> !Fits(ITEMS[j], name, room)
    decreases |ITEMS| - i
  {
    if i == |ITEMS| then None
    else if Fits(ITEMS[i], name, room) then Some(i)
    else FindItem(name, room, i + 1)
  }

  /** The search finds the first item that fits, and no other. */
  lemma FoundAt(name: string, room: Option<string>, i: nat)
    requires i < |ITEMS| && Fits(ITEMS[i], name, room)
    requires forall j :: 0 <= j < i ==> !Fits(ITEMS[j], name, room)
    ensures FindItem(name, room, 0) == Some(i)
  {
  }

  /** A command after `strip().lower()` and `split(maxsplit=1)`. */
  datatype Command = Blank | Unknown(word: string) | Known(verb: Verb, arg: string)

  /** The parsing half of `execute`: a blank command, a verb outside the
      dispatch table, or a known verb with its (possibly empty) argument. */
  function Parse(command: string): (c: Command)
    ensures c.Blank? <==> Lower(Strip(command)) == []
    ensures c.Unknown? ==> NoSpace(c.word) && c.word !in VERBS
    ensures c.Known? ==> c.arg != [] ==> !IsSpace(c.arg[0])
  {
    var t := Lower(Strip(command));
    if t == [] then Blank
    else
      var (verb, arg) := SplitOnce(t);
      match VerbOf(verb)
      case Some(v) => Known(v, arg)
      case None => Unknown(verb)
  }

  /** Whether `execute` dispatches the command to a handler. */
  predicate Recognised(command: string) {
    Parse(command).Known?
  }

  /** Each command of a sequence, parsed. */
  function ParseAll(commands: seq<string>): (cs: seq<Command>)
    ensures |cs| == |commands|
    ensures forall k :: 0 <= k < |cs| ==> cs[k] == Parse(commands[k])
  {
    seq(|commands|, k requires 0 <= k < |commands| => Parse(commands[k]))
  }

  /** The state after a sequence of parsed commands. */
  function Run(s: GameState, commands: seq<Command>): (t: GameState)
    requires s.Consistent()
    ensures t.Consistent()
    decreases |commands|
  {
    if commands == [] then s
    else Run(s.Apply(commands[0]).state, commands[1..])
  }

  lemma {:induction false} RunFirst(s: GameState, commands: seq<Command>)
    requires s.Consistent() && commands != []
    ensures Run(s, commands) == Run(s.Apply(commands[0]).state, commands[1..])
  {
  }

  /** The state after `execute` is called on each command in turn. */
  function Play(s: GameState, commands: seq<string>): (t: GameState)
    requires s.Consistent()
    ensures t.Consistent()
  {
    Run(s, ParseAll(commands))
  }


  // ---------------------------------------------------------------------------
  // What each command does

  /** A blank command or an unknown verb changes nothing, not even the move
      counter; a known verb is exactly one move, even when its handler refuses. */
  lemma ExecuteCountsMoves(s: GameState, command: string)
    requires s.Consistent()
    ensures var e := s.Execute(command);
            && e.state.moves == s.moves + (if Recognised(command) then 1 else 0)
            && (Parse(command).Blank? ==> e == Effect(s, SaySomething))
            && (Parse(command).Unknown? ==> e == Effect(s, UnknownCommand(Parse(command).word)))
  {
    ApplyCountsMoves(s, Parse(command));
  }

  lemma ApplyCountsMoves(s: GameState, c: Command)
    requires s.Consistent()
    ensures var e := s.Apply(c);
            && e.state.moves == s.moves + (if c.Known? then 1 else 0)
            && (c.Blank? ==> e == Effect(s, SaySomething))
            && (c.Unknown? ==> e == Effect(s, UnknownCommand(c.word)))
  {
    if c.Known? {
      DispatchKeepsMoves(s.(moves := s.moves + 1), c.verb, c.arg);
    }
  }

  lemma DispatchKeepsMoves(s: GameState, verb: Verb, arg: string)
    requires s.Consistent()
    ensures s.Dispatch(verb, arg).state.moves == s.moves
  {
  }

  /** `go`: without a direction, or with one the room has no exit for, nothing
      changes; otherwise the new room is that exit's destination, a real room,
      and the reply describes it as `look` would. */
  lemma GoMovesAlongExits(s: GameState, direction: string)
    requires s.Consistent()
    ensures var e := s.Go(direction);
            var exits := ROOMS[s.room].exits;
            && (direction == [] ==> e == Effect(s, GoWhere))
            && (direction != [] && ExitTo(exits, direction).None? ==>
                  e == Effect(s, CannotGo(direction, Directions(exits))))
            && (direction != [] && ExitTo(exits, direction).Some? ==>
                  && e.state == s.(room := ExitTo(exits, direction).value)
                  && e.state.room in ROOMS
                  && (exists i :: 0 <= i < |exits| && exits[i] == Exit(direction, e.state.room))
                  && e.out == Entered(ROOMS[e.state.room].name, e.state.LookView()))
  {
  }

  /** The item name `take`, `use` and `read` look for: underscores read as spaces. */
  function ItemName(arg: string): (name: string)
    ensures |name| == |arg| && '_' !in name
    ensures forall i :: 0 <= i < |arg| ==> name[i] == (if arg[i] == '_' then ' ' else arg[i])
  {
    ReplaceChar(arg, '_', ' ')
  }

  /** An item's key, read as a name, is its display name, so `crew_log` names
      the crew log. */
  lemma ItemIdNamesItem()
    ensures forall i :: 0 <= i < |ITEMS| ==> ItemName(ITEMS[i].id) == ITEMS[i].name
  {
    assert ItemName("flashlight") == "flashlight";
    assert ItemName("keycard") == "keycard";
    assert ItemName("crew_log") == "crew log";
  }

  /** A name without an underscore is left as it is. */
  lemma ItemNameKeepsPlain(arg: string)
    requires '_' !in arg
    ensures ItemName(arg) == arg
  {
  }

  /** `take` picks an item up exactly when one of that name lies in this room, has
      not been taken yet and its take condition holds; it then joins both the
      inventory and the taken items. In every other case nothing changes. */
  lemma TakeSucceedsIff(s: GameState, itemName: string)
    requires s.Consistent()
    ensures var e := s.Take(itemName);
            var here := Some(s.room);
            && (e.out.PickedUp? <==>
                  exists i :: 0 <= i < |ITEMS| && Fits(ITEMS[i], ItemName(itemName), here)
                              && ITEMS[i].id !in s.taken && s.TakeAllowed(ITEMS[i]))
            && (e.out.PickedUp? ==>
                  exists i :: 0 <= i < |ITEMS| && Fits(ITEMS[i], ItemName(itemName), here)
                              && e.state == s.(inventory := s.inventory + {ITEMS[i].id},
                                               taken := s.taken + {ITEMS[i].id}))
            && (!e.out.PickedUp? ==> e.state == s)
  {
    ItemsAreDistinct();
    var name := ItemName(itemName);
    if itemName == [] {
      assert forall i :: 0 <= i < |ITEMS| ==> !Fits(ITEMS[i], name, Some(s.room));
    } else {
      var r := FindItem(name, Some(s.room), 0);
      if r.Some? {
        forall i | 0 <= i < |ITEMS| && Fits(ITEMS[i], name, Some(s.room)) ensures i == r.value {
          assert ITEMS[i].name == ITEMS[r.value].name;
        }
      }
    }
  }

  /** Taking an item that was already taken is refused and changes nothing. */
  lemma TakeTwiceRefused(s: GameState, itemName: string, i: nat)
    requires s.Consistent() && itemName != []
    requires i < |ITEMS| && Fits(ITEMS[i], ItemName(itemName), Some(s.room)) && ITEMS[i].id in s.taken
    ensures s.Take(itemName) == Effect(s, AlreadyTook(ItemName(itemName)))
  {
    ItemsAreDistinct();
    var name := ItemName(itemName);
    forall j | 0 <= j < i ensures !Fits(ITEMS[j], name, Some(s.room)) {
      assert ITEMS[j].name != ITEMS[i].name;
    }
    FoundAt(name, Some(s.room), i);
  }

  /** `use` of an item that is not carried is refused and changes nothing. */
  lemma UseNeedsItem(s: GameState, itemName: string)
    requires s.Consistent() && itemName != []
    requires forall i :: 0 <= i < |ITEMS| && ITEMS[i].name == ItemName(itemName) ==> ITEMS[i].id !in s.inventory
    ensures s.Use(itemName) == Effect(s, DontHave(ItemName(itemName)))
  {
  }

  /** Where the search by name finds each item. */
  lemma FoundByName(i: nat)
    requires i < |ITEMS|
    ensures FindItem(ITEMS[i].name, None, 0) == Some(i)
  {
    ItemsAreDistinct();
    FoundAt(ITEMS[i].name, None, i);
  }

  /** Switching the flashlight on in the engine room lights it; doing it again
      changes nothing. */
  lemma FlashlightTwice(s: GameState)
    requires s.Consistent() && s.room == "engine_room" && "flashlight" in s.inventory
    ensures var once := s.Use("flashlight");
            && once.state.flags["engine_room_lit"]
            && once.state == s.(flags := s.flags["engine_room_lit" := true])
            && once.state.Use("flashlight") == Effect(once.state, FlashlightAlreadyOn)
  {
    FoundByName(0);
    assert ItemName("flashlight") == "flashlight";
  }

  /** Using the carried keycard on the bridge wins, reporting the move count. */
  lemma KeycardOnBridgeWins(s: GameState)
    requires s.Consistent() && s.room == "bridge" && "keycard" in s.inventory
    ensures s.Use("keycard") == Effect(s.(flags := s.flags["console_activated" := true]), ConsoleActivated(s.moves))
    ensures s.Use("keycard").state.IsWon()
  {
    FoundByName(1);
    assert ItemName("keycard") == "keycard";
  }

  /** The carried crew log reads the same whether it is read or used, and
      neither changes anything. */
  lemma CrewLogReadOrUsed(s: GameState)
    requires s.Consistent() && "crew_log" in s.inventory
    ensures s.Read("crew log") == CrewLogText
    ensures s.Use("crew log") == Effect(s, CrewLogText)
    ensures s.Dispatch(Read, "crew log") == s.Use("crew log")
  {
    FoundByName(2);
    assert ItemName("crew log") == "crew log";
  }

  /** `inventory` lists the names of the carried items in the order of their
      sorted ids. */
  lemma InventoryListedInOrder(s: GameState)
    requires s.inventory <= ITEM_IDS && s.inventory != {}
    ensures s.ListInventory().Carrying?
    ensures exists ids :: && StrictlySorted(ids) && (forall id :: id in ids <==> id in s.inventory)
                          && s.ListInventory().names == Names(ids)
  {
    var ids := SortedSet(s.inventory);
    assert StrictlySorted(ids) && s.ListInventory().names == Names(ids);
  }

  // ---------------------------------------------------------------------------
  // Invariants and monotonicity

  /** Nothing is lost from `s` to `t`: carried and taken items stay, no flag
      is removed or set back to False, and the move counter does not go back. */
  predicate Grows(s: GameState, t: GameState) {
    && s.inventory <= t.inventory && s.taken <= t.taken
    && s.flags.Keys <= t.flags.Keys
    && (forall f :: f in s.flags && s.flags[f] ==> t.flags[f])
    && s.moves <= t.moves
  }

  /** No command removes an item from the inventory or the taken set, or sets a
      flag back to False; in particular a win stays a win. */
  lemma ExecuteIsMonotone(s: GameState, command: string)
    requires s.Consistent()
    ensures Grows(s, s.Execute(command).state)
    ensures s.IsWon() ==> s.Execute(command).state.IsWon()
  {
    ApplyIsMonotone(s, Parse(command));
  }

  lemma ApplyIsMonotone(s: GameState, c: Command)
    requires s.Consistent()
    ensures Grows(s, s.Apply(c).state)
  {
    if c.Known? {
      ApplyKnown(s, c);
      DispatchIsMonotone(s.(moves := s.moves + 1), c.verb, c.arg);
    }
  }

  lemma DispatchIsMonotone(s: GameState, verb: Verb, arg: string)
    requires s.Consistent()
    ensures Grows(s, s.Dispatch(verb, arg).state)
  {
    if verb == Take {
      TakeSucceedsIff(s, arg);
    } else if verb == Use {
      UseIsMonotone(s, arg);
    }
  }

  lemma UseIsMonotone(s: GameState, itemName: string)
    requires s.Consistent()
    ensures Grows(s, s.Use(itemName).state)
  {
  }

  /** Every command keeps the invariant. */
  lemma ExecuteKeepsInv(s: GameState, command: string)
    requires s.Inv()
    ensures s.Execute(command).state.Inv()
  {
    ApplyKeepsInv(s, Parse(command));
  }

  lemma ApplyKeepsInv(s: GameState, c: Command)
    requires s.Inv()
    ensures s.Apply(c).state.Inv()
  {
    if c.Known? {
      CountingKeepsInv(s);
      ApplyKnown(s, c);
      DispatchKeepsInv(s.(moves := s.moves + 1), c.verb, c.arg);
    }
  }

  /** Counting a move keeps the invariant. */
  lemma CountingKeepsInv(s: GameState)
    requires s.Inv()
    ensures s.(moves := s.moves + 1).Inv() && s.(moves := s.moves + 1).IsWon() == s.IsWon()
  {
  }

  lemma DispatchKeepsInv(s: GameState, verb: Verb, arg: string)
    requires s.Inv()
    ensures s.Dispatch(verb, arg).state.Inv()
  {
    if verb == Go {
      ExitToIsRoom(s.room, arg);
    } else if verb == Take {
      TakeKeepsInv(s, arg);
    } else if verb == Use {
      UseKeepsInv(s, arg);
    }
  }

  lemma TakeKeepsInv(s: GameState, itemName: string)
    requires s.Inv()
    ensures s.Take(itemName).state.Inv()
  {
    TakeConditionsAreFlags();
    ItemsAreDistinct();
    if itemName != [] {
      var r := FindItem(ItemName(itemName), Some(s.room), 0);
      if r.Some? && ITEMS[r.value].id == "keycard" {
        assert r.value == 1;
      }
    }
  }

  lemma UseKeepsInv(s: GameState, itemName: string)
    requires s.Inv()
    ensures s.Use(itemName).state.Inv()
  {
  }

  /** The win is reached only by `use keycard` on the bridge, carrying the
      keycard with the engine room lit. */
  lemma WinNeedsKeycardOnBridge(s: GameState, command: string)
    requires s.Inv() && !s.IsWon() && s.Execute(command).state.IsWon()
    ensures Recognised(command) && Parse(command).verb == Use && ItemName(Parse(command).arg) == "keycard"
    ensures s.room == "bridge" && "keycard" in s.inventory && s.flags["engine_room_lit"]
  {
    ApplyWinNeedsKeycard(s, Parse(command));
  }

  lemma ApplyWinNeedsKeycard(s: GameState, c: Command)
    requires s.Inv()
    requires !s.IsWon() && s.Apply(c).state.IsWon()
    ensures c.Known? && c.verb == Use && ItemName(c.arg) == "keycard"
    ensures s.room == "bridge" && "keycard" in s.inventory && s.flags["engine_room_lit"]
  {
    if c.Known? {
      CountingKeepsInv(s);
      ApplyKnown(s, c);
      DispatchWinNeedsKeycard(s.(moves := s.moves + 1), c.verb, c.arg);
    }
  }

  lemma DispatchWinNeedsKeycard(s: GameState, verb: Verb, arg: string)
    requires s.Inv()
    requires !s.IsWon() && s.Dispatch(verb, arg).state.IsWon()
    ensures verb == Use && ItemName(arg) == "keycard"
    ensures s.room == "bridge" && "keycard" in s.inventory && s.flags["engine_room_lit"]
  {
    if verb == Use {
      UseWinsOnlyWithKeycard(s, arg);
    } else if verb == Take {
      TakeSucceedsIff(s, arg);
    }
  }

  lemma UseWinsOnlyWithKeycard(s: GameState, itemName: string)
    requires s.Consistent() && !s.IsWon() && s.Use(itemName).state.IsWon()
    ensures ItemName(itemName) == "keycard" && s.room == "bridge" && "keycard" in s.inventory
  {
    ItemsAreDistinct();
    var found := FindItem(ItemName(itemName), None, 0);
    assert found.Some? && ITEMS[found.value].id == "keycard";
    assert found.value == 1;
  }

  /** The invariant holds after any sequence of parsed commands from a state that has it. */
  lemma {:induction false} RunKeepsInv(s: GameState, commands: seq<Command>)
    requires s.Inv()
    ensures Run(s, commands).Inv()
    decreases |commands|
  {
    if commands != [] {
      ApplyKeepsInv(s, commands[0]);
      RunFirst(s, commands);
      RunKeepsInv(s.Apply(commands[0]).state, commands[1..]);
    }
  }

  /** The invariant holds after any sequence of commands from a state that has it. */
  lemma PlayKeepsInv(s: GameState, commands: seq<string>)
    requires s.Inv()
    ensures Play(s, commands).Inv()
  {
    RunKeepsInv(s, ParseAll(commands));
  }

  /** Every state reachable from `__init__` has the invariant: the current room
      is a room, the inventory equals the taken items, and the keycard is only
      ever held with the engine room lit. */
  lemma ReachableStatesAreValid(commands: seq<string>)
    ensures Play(Init(), commands).Inv()
    ensures var t := Play(Init(), commands);
            t.room in ROOMS && t.inventory == t.taken && ("keycard" in t.inventory ==> t.flags["engine_room_lit"])
  {
    PlayKeepsInv(Init(), commands);
  }

  /** Once won, a game stays won whatever parsed commands follow. */
  lemma {:induction false} RunKeepsWin(s: GameState, commands: seq<Command>)
    requires s.Consistent() && s.IsWon()
    ensures Run(s, commands).IsWon()
    decreases |commands|
  {
    if commands != [] {
      ApplyIsMonotone(s, commands[0]);
      RunFirst(s, commands);
      RunKeepsWin(s.Apply(commands[0]).state, commands[1..]);
    }
  }

  /** Once won, a game stays won whatever is typed next. */
  lemma PlayKeepsWin(s: GameState, commands: seq<string>)
    requires s.Consistent() && s.IsWon()
    ensures Play(s, commands).IsWon()
  {
    RunKeepsWin(s, ParseAll(commands));
  }

  // ---------------------------------------------------------------------------
  // The shortest walkthrough

  /** A verb word, a space and any text parse as that verb, with the text
      stripped and lower-cased as its argument. */
  lemma ParseVerbThen(verb: Verb, text: string)
    ensures Parse(VerbName(verb) + " " + text) == Known(verb, Lower(Strip(text)))
  {
    ParseWordThenRest(VerbName(verb), text);
    VerbOfName(verb);
  }

  /** A verb word on its own parses as that verb with an empty argument. */
  lemma ParseVerbAlone(verb: Verb)
    ensures Parse(VerbName(verb)) == Known(verb, [])
  {
    var w := VerbName(verb);
    assert !IsSpace(w[0]) && !IsSpace(w[|w| - 1]);
    SplitSingleWord(w);
    VerbOfName(verb);
  }

  /** A lower-case verb and argument separated by one space parse as themselves. */
  lemma ParsePlain(verb: Verb, arg: string)
    requires arg != [] && !IsSpace(arg[0]) && !IsSpace(arg[|arg| - 1])
    requires forall i :: 0 <= i < |arg| ==> !('A' <= arg[i] <= 'Z')
    ensures Parse(VerbName(verb) + " " + arg) == Known(verb, arg)
  {
    ParseVerbThen(verb, arg);
    PlainWordIsUnchanged(arg);
  }

  lemma ApplyKnown(s: GameState, c: Command)
    requires s.Consistent() && c.Known?
    ensures s.Apply(c) == s.(moves := s.moves + 1).Dispatch(c.verb, c.arg)
  {
    ApplyByCases(s, c, s.(moves := s.moves + 1).Dispatch(c.verb, c.arg));
  }

  /** `e` is what `execute` does with `c` from `s`, read off the three cases of
      its body: a blank command and an unknown verb change nothing, a known
      verb counts one move and runs its handler. */
  predicate AppliedByCases(s: GameState, c: Command, e: Effect)
    requires s.Consistent()
  {
    && (c.Blank? ==> e == Effect(s, SaySomething))
    && (c.Unknown? ==> e == Effect(s, UnknownCommand(c.word)))
    && (c.Known? ==> e == s.(moves := s.moves + 1).Dispatch(c.verb, c.arg))
  }

  /** The case-by-case reading agrees with `Apply`. */
  lemma ApplyByCases(s: GameState, c: Command, e: Effect)
    requires s.Consistent() && AppliedByCases(s, c, e)
    ensures e == s.Apply(c)
  {
  }

  /** A command with a known verb runs that verb's handler after counting one move. */
  lemma ExecuteKnown(s: GameState, command: string)
    requires s.Consistent() && Parse(command).Known?
    ensures s.Execute(command) == s.(moves := s.moves + 1).Dispatch(Parse(command).verb, Parse(command).arg)
  {
    ApplyKnown(s, Parse(command));
  }

  /** `go` along the `i`-th exit of the current room. */
  lemma GoAlong(s: GameState, i: nat)
    requires s.Consistent() && i < |ROOMS[s.room].exits|
    ensures s.Go(ROOMS[s.room].exits[i].direction).state == s.(room := ROOMS[s.room].exits[i].destination)
  {
    ExitToFinds(s.room, i);
  }

  /** The command `go` along the `i`-th exit: one move, and the new room. */
  lemma GoStep(s: GameState, i: nat)
    requires s.Consistent() && i < |ROOMS[s.room].exits|
    ensures s.Apply(Known(Go, ROOMS[s.room].exits[i].direction)).state ==
              s.(room := ROOMS[s.room].exits[i].destination, moves := s.moves + 1)
  {
    var c := Known(Go, ROOMS[s.room].exits[i].direction);
    ApplyKnown(s, c);
    GoAlong(s.(moves := s.moves + 1), i);
  }

  lemma TakeFlashlight(s: GameState)
    requires s.Consistent() && s.room == "engine_room" && "flashlight" !in s.taken
    ensures s.Take("flashlight").state == s.(inventory := s.inventory + {"flashlight"}, taken := s.taken + {"flashlight"})
  {
    assert ItemName("flashlight") == "flashlight";
    FoundAt("flashlight", Some("engine_room"), 0);
  }

  lemma TakeKeycard(s: GameState)
    requires s.Consistent() && s.room == "engine_room" && "keycard" !in s.taken && s.flags["engine_room_lit"]
    ensures s.Take("keycard").state == s.(inventory := s.inventory + {"keycard"}, taken := s.taken + {"keycard"})
  {
    assert ItemName("keycard") == "keycard";
    FoundAt("keycard", Some("engine_room"), 1);
  }

  /** The eight moves of the shortest win. */
  const STEPS: seq<Command> := [
    Known(Go, "north"), Known(Go, "east"), Known(Take, "flashlight"), Known(Use, "flashlight"),
    Known(Take, "keycard"), Known(Go, "west"), Known(Go, "north"), Known(Use, "keycard")]

  /** A command as a player would type it. */
  function Spell(c: Command): (command: string)
    requires c.Known?
  {
    VerbName(c.verb) + " " + c.arg
  }

  /** The walkthrough as typed: "go north", "go east", "take flashlight", ... */
  const WALKTHROUGH: seq<string> := seq(|STEPS|, k requires 0 <= k < |STEPS| => Spell(STEPS[k]))

  /** Each typed walkthrough command parses back to its step. */
  lemma WalkthroughParses(k: nat)
    requires k < |STEPS|
    ensures Parse(WALKTHROUGH[k]) == STEPS[k]
  {
    var c := STEPS[k];
    assert c.arg != [] && !IsSpace(c.arg[0]) && !IsSpace(c.arg[|c.arg| - 1]);
    ParsePlain(c.verb, c.arg);
  }

  /** A start-like state: the start room, nothing carried, every flag down;
      the move counter may be anything. */
  predicate StartLike(s: GameState) {
    s.room == START_ROOM && s.inventory == {} && s.taken == {} && s.flags == INITIAL_FLAGS
  }

  /** Where the walkthrough stands after its first `k` commands, from a start-like state `s`. */
  function Stage(s: GameState, k: nat): (t: GameState)
    requires k <= |STEPS|
    ensures t.moves == s.moves + k
  {
    var m := s.moves + k;
    var lit := s.flags["engine_room_lit" := true];
    var both := {"flashlight", "keycard"};
    if k == 0 then s
    else if k == 1 then s.(room := "corridor", moves := m)
    else if k == 2 then s.(room := "engine_room", moves := m)
    else if k == 3 then s.(room := "engine_room", inventory := {"flashlight"}, taken := {"flashlight"}, moves := m)
    else if k == 4 then s.(room := "engine_room", inventory := {"flashlight"}, taken := {"flashlight"}, flags := lit, moves := m)
    else if k == 5 then s.(room := "engine_room", inventory := both, taken := both, flags := lit, moves := m)
    else if k == 6 then s.(room := "corridor", inventory := both, taken := both, flags := lit, moves := m)
    else if k == 7 then s.(room := "bridge", inventory := both, taken := both, flags := lit, moves := m)
    else s.(room := "bridge", inventory := both, taken := both, flags := lit["console_activated" := true], moves := m)
  }

  /** Every stage of the walkthrough is a state the handlers accept. */
  lemma StagesAreConsistent(s: GameState, k: nat)
    requires StartLike(s) && k <= |STEPS|
    ensures Stage(s, k).Consistent()
  {
  }

  /** Step 0: go north. */
  lemma Step0(s: GameState)
    requires StartLike(s)
    ensures Stage(s, 0).Consistent() && Stage(s, 1).Consistent()
    ensures Stage(s, 0).Apply(STEPS[0]).state == Stage(s, 1)
  {
    StagesAreConsistent(s, 0);
    StagesAreConsistent(s, 1);
    var t := Stage(s, 0);
    assert ROOMS[t.room].exits[0] == Exit("north", "corridor");
    GoStep(t, 0);
    assert t.(room := "corridor", moves := t.moves + 1) == Stage(s, 1);
  }

  /** Step 1: go east. */
  lemma Step1(s: GameState)
    requires StartLike(s)
    ensures Stage(s, 1).Consistent() && Stage(s, 2).Consistent()
    ensures Stage(s, 1).Apply(STEPS[1]).state == Stage(s, 2)
  {
    StagesAreConsistent(s, 1);
    StagesAreConsistent(s, 2);
    var t := Stage(s, 1);
    assert ROOMS[t.room].exits[2] == Exit("east", "engine_room");
    GoStep(t, 2);
    assert t.(room := "engine_room", moves := t.moves + 1) == Stage(s, 2);
  }

  /** Step 2: take the flashlight. */
  lemma Step2(s: GameState)
    requires StartLike(s)
    ensures Stage(s, 2).Consistent() && Stage(s, 3).Consistent()
    ensures Stage(s, 2).Apply(STEPS[2]).state == Stage(s, 3)
  {
    StagesAreConsistent(s, 2);
    StagesAreConsistent(s, 3);
    var t := Stage(s, 2).(moves := s.moves + 3);
    ApplyKnown(Stage(s, 2), STEPS[2]);
    assert t.Dispatch(Take, "flashlight") == t.Take("flashlight");
    TakeFlashlight(t);
    assert t.Take("flashlight").state == Stage(s, 3);
  }

  /** Step 3: switch the flashlight on. */
  lemma Step3(s: GameState)
    requires StartLike(s)
    ensures Stage(s, 3).Consistent() && Stage(s, 4).Consistent()
    ensures Stage(s, 3).Apply(STEPS[3]).state == Stage(s, 4)
  {
    StagesAreConsistent(s, 3);
    StagesAreConsistent(s, 4);
    var t := Stage(s, 3).(moves := s.moves + 4);
    FlashlightTwice(t);
  }

  /** Step 4: take the keycard. */
  lemma Step4(s: GameState)
    requires StartLike(s)
    ensures Stage(s, 4).Consistent() && Stage(s, 5).Consistent()
    ensures Stage(s, 4).Apply(STEPS[4]).state == Stage(s, 5)
  {
    StagesAreConsistent(s, 4);
    StagesAreConsistent(s, 5);
    var t := Stage(s, 4).(moves := s.moves + 5);
    ApplyKnown(Stage(s, 4), STEPS[4]);
    assert t.Dispatch(Take, "keycard") == t.Take("keycard");
    TakeKeycard(t);
    assert t.Take("keycard").state == Stage(s, 5);
  }

  /** Step 5: go west. */
  lemma Step5(s: GameState)
    requires StartLike(s)
    ensures Stage(s, 5).Consistent() && Stage(s, 6).Consistent()
    ensures Stage(s, 5).Apply(STEPS[5]).state == Stage(s, 6)
  {
    StagesAreConsistent(s, 5);
    StagesAreConsistent(s, 6);
    var t := Stage(s, 5);
    assert ROOMS[t.room].exits[0] == Exit("west", "corridor");
    GoStep(t, 0);
    assert t.(room := "corridor", moves := t.moves + 1) == Stage(s, 6);
  }

  /** Step 6: go north. */
  lemma Step6(s: GameState)
    requires StartLike(s)
    ensures Stage(s, 6).Consistent() && Stage(s, 7).Consistent()
    ensures Stage(s, 6).Apply(STEPS[6]).state == Stage(s, 7)
  {
    StagesAreConsistent(s, 6);
    StagesAreConsistent(s, 7);
    var t := Stage(s, 6);
    assert ROOMS[t.room].exits[1] == Exit("north", "bridge");
    GoStep(t, 1);
    assert t.(room := "bridge", moves := t.moves + 1) == Stage(s, 7);
  }

  /** Step 7: use the keycard. */
  lemma Step7(s: GameState)
    requires StartLike(s)
    ensures Stage(s, 7).Consistent() && Stage(s, 8).Consistent()
    ensures Stage(s, 7).Apply(STEPS[7]).state == Stage(s, 8)
  {
    StagesAreConsistent(s, 7);
    StagesAreConsistent(s, 8);
    var t := Stage(s, 7).(moves := s.moves + 8);
    KeycardOnBridgeWins(t);
  }

  /** Each step of the walkthrough leads from one stage to the next. */
  lemma StepLeads(s: GameState, k: nat)
    requires StartLike(s) && k < |STEPS|
    ensures Stage(s, k).Consistent() && Stage(s, k + 1).Consistent()
    ensures Stage(s, k).Apply(STEPS[k]).state == Stage(s, k + 1)
  {
    if k == 0 { Step0(s); }
    else if k == 1 { Step1(s); }
    else if k == 2 { Step2(s); }
    else if k == 3 { Step3(s); }
    else if k == 4 { Step4(s); }
    else if k == 5 { Step5(s); }
    else if k == 6 { Step6(s); }
    else { Step7(s); }
  }

  /** Running the walkthrough from stage `k` is running it from stage `k + 1`
      after one more step. */
  lemma RunStep(s: GameState, k: nat)
    requires StartLike(s) && k < |STEPS|
    ensures Stage(s, k).Consistent() && Stage(s, k + 1).Consistent()
    ensures Run(Stage(s, k), STEPS[k..]) == Run(Stage(s, k + 1), STEPS[k + 1..])
  {
    var rest := STEPS[k..];
    assert rest[0] == STEPS[k] && rest[1..] == STEPS[k + 1..];
    StepLeads(s, k);
    RunFirst(Stage(s, k), rest);
  }

  /** The rest of the walkthrough, from stage `k`, ends in the last stage. */
  lemma {:induction false} RunFromStage(s: GameState, k: nat)
    requires StartLike(s) && k <= |STEPS|
    ensures Stage(s, k).Consistent()
    ensures Run(Stage(s, k), STEPS[k..]) == Stage(s, |STEPS|)
    decreases |STEPS| - k
  {
    StagesAreConsistent(s, k);
    if k < |STEPS| {
      RunStep(s, k);
      RunFromStage(s, k + 1);
    }
  }

  /** The last stage has the console activated. */
  lemma LastStageWon(s: GameState)
    requires StartLike(s)
    ensures Stage(s, |STEPS|).IsWon()
  {
  }

  /** The eight walkthrough steps win from any start-like state, in eight moves. */
  lemma WalkthroughSteps(s: GameState)
    requires StartLike(s)
    ensures Run(s, STEPS).IsWon() && Run(s, STEPS).moves == s.moves + |STEPS|
  {
    LastStageWon(s);
    RunFromStage(s, 0);
    assert STEPS[0..] == STEPS;
  }

  /** The typed walkthrough parses to exactly the eight steps. */
  lemma WalkthroughParsesToSteps()
    ensures |WALKTHROUGH| == |STEPS|
    ensures forall k :: 0 <= k < |WALKTHROUGH| ==> Parse(WALKTHROUGH[k]) == STEPS[k]
  {
    forall k | 0 <= k < |STEPS|
      ensures Parse(WALKTHROUGH[k]) == STEPS[k]
    {
      WalkthroughParses(k);
    }
  }

  /** Typing any eight commands that parse to the walkthrough steps (the
      plain spelling `WALKTHROUGH`, or the same in other case and spacing)
      wins the game from any start-like state, in eight moves. */
  lemma WalkthroughWins(s: GameState, commands: seq<string>)
    requires StartLike(s)
    requires |commands| == |STEPS| && forall k :: 0 <= k < |commands| ==> Parse(commands[k]) == STEPS[k]
    ensures Play(s, commands).IsWon() && Play(s, commands).moves == s.moves + 8
  {
    assert ParseAll(commands) == STEPS;
    WalkthroughSteps(s);
    assert Play(s, commands) == Run(s, STEPS);
  }

  // ---------------------------------------------------------------------------
  // The engine object

  class GameEngine {
    var currentRoom: string
    var inventory: set<string>
    var flags: map<string, bool>
    var takenItems: set<string>
    var moves: nat

    function State(): GameState
      reads this
    {
      GameState(currentRoom, inventory, flags, takenItems, moves)
    }

    ghost predicate Valid()
      reads this
    {
      State().Inv()
    }

    constructor ()
      ensures Valid() && State() == Init()
    {
      currentRoom := START_ROOM;
      inventory := {};
      flags := INITIAL_FLAGS;
      takenItems := {};
      moves := 0;
    }

    /** `is_won()`: a won game holds the keycard with the engine room lit. */
    function IsWon(): (won: bool)
      reads this
      requires Valid()
      ensures won ==> "keycard" in inventory && flags["engine_room_lit"]
    {
      State().IsWon()
    }

    /** `get_state()`: the inventory comes back sorted. */
    function GetState(): (snap: Snapshot)
      reads this
      requires Valid()
      ensures snap.currentRoom == currentRoom && snap.flags == flags && snap.moves == moves
      ensures snap.won == State().IsWon()
      ensures StrictlySorted(snap.inventory) && |snap.inventory| == |inventory|
      ensures forall id :: id in snap.inventory <==> id in inventory
    {
      Snapshot(currentRoom, SortedSet(inventory), flags, moves, IsWon())
    }

    method Execute(command: string) returns (out: Outcome)
      requires Valid()
      modifies this
      ensures Valid()
      ensures Effect(State(), out) == old(State()).Execute(command)
    {
      ghost var s0 := State();
      ExecuteKeepsInv(s0, command);
      var c := Parse(command);
      out := Apply(c);
      ApplyByCases(s0, c, Effect(State(), out));
    }

    /** `execute` once the command is parsed: only a known verb counts a move. */
    method Apply(c: Command) returns (out: Outcome)
      requires State().Consistent()
      modifies this
      ensures AppliedByCases(old(State()), c, Effect(State(), out))
    {
      match c
      case Blank =>
        out := SaySomething;
      case Unknown(word) =>
        out := UnknownCommand(word);
      case Known(verb, arg) =>
        out := Perform(verb, arg);
    }

    /** A known verb: one more move, then its handler. */
    method Perform(verb: Verb, arg: string) returns (out: Outcome)
      requires State().Consistent()
      modifies this
      ensures State() == old(State()).(moves := old(State()).moves + 1).Dispatch(verb, arg).state
      ensures out == old(State()).(moves := old(State()).moves + 1).Dispatch(verb, arg).out
    {
      ghost var counted := State().(moves := State().moves + 1);
      moves := moves + 1;
      out := Dispatch(verb, arg, counted);
    }

    /** The handler of a known verb, as the dispatch table picks it; `before`
        names the state it starts from. */
    method Dispatch(verb: Verb, arg: string, ghost before: GameState) returns (out: Outcome)
      requires State() == before && before.Consistent()
      modifies this
      ensures State() == before.Dispatch(verb, arg).state
      ensures out == before.Dispatch(verb, arg).out
    {
      match verb
      case Look =>
        out := Described(State().LookView());
      case Go =>
        out := this.Go(arg);
      case Take =>
        out := this.Take(arg);
      case Use =>
        out := this.Use(arg);
      case Inventory =>
        out := State().ListInventory();
      case Help =>
        out := HelpText;
      case Read =>
        out := State().Read(arg);
    }

    method Go(direction: string) returns (out: Outcome)
      requires State().Consistent()
      modifies this
      ensures State() == old(State()).Go(direction).state
      ensures out == old(State()).Go(direction).out
    {
      if direction == [] {
        return GoWhere;
      }
      var exits := ROOMS[currentRoom].exits;
      var dest := ExitTo(exits, direction);
      if dest.None? {
        return CannotGo(direction, Directions(exits));
      }
      ExitToIsRoom(currentRoom, direction);
      currentRoom := dest.value;
      out := Entered(ROOMS[currentRoom].name, State().EnterView());
    }

    method Take(itemName: string) returns (out: Outcome)
      requires State().Consistent()
      modifies this
      ensures State() == old(State()).Take(itemName).state
      ensures out == old(State()).Take(itemName).out
    {
      if itemName == [] {
        return TakeWhat;
      }
      var name := ReplaceChar(itemName, '_', ' ');
      var room := currentRoom;
      var i := 0;
      while i < |ITEMS|
        invariant 0 <= i <= |ITEMS|
        invariant forall j :: 0 <= j < i ==> !Fits(ITEMS[j], name, Some(room))
        invariant State() == old(State())
      {
        var item := ITEMS[i];
        if item.name == name && item.location == currentRoom {
          FoundAt(name, Some(room), i);
          if item.id in takenItems {
            return AlreadyTook(name);
          }
          var condition := item.takeCondition;
          if condition.Some? && condition.value != [] && !State().Flag(condition.value) {
            return TakeRefused(item.takeFail.GetOr(DEFAULT_TAKE_FAIL));
          }
          inventory := inventory + {item.id};
          takenItems := takenItems + {item.id};
          return PickedUp(item.name);
        }
        i := i + 1;
      }
      return NothingToTake(name);
    }

    method Use(itemName: string) returns (out: Outcome)
      requires State().Consistent()
      modifies this
      ensures State() == old(State()).Use(itemName).state
      ensures out == old(State()).Use(itemName).out
    {
      if itemName == [] {
        return UseWhat;
      }
      var name := ReplaceChar(itemName, '_', ' ');
      var itemId: Option<string> := None;
      var i := 0;
      while i < |ITEMS|
        invariant 0 <= i <= |ITEMS|
        invariant forall j :: 0 <= j < i ==> !Fits(ITEMS[j], name, None)
        invariant itemId == None
      {
        if ITEMS[i].name == name {
          FoundAt(name, None, i);
          itemId := Some(ITEMS[i].id);
          break;
        }
        i := i + 1;
      }
      if itemId.None? || itemId.value !in inventory {
        return DontHave(name);
      }
      var id := itemId.value;
      if id == "flashlight" && currentRoom == "engine_room" {
        if flags["engine_room_lit"] {
          return FlashlightAlreadyOn;
        }
        flags := flags["engine_room_lit" := true];
        return FlashlightOn;
      }
      if id == "flashlight" {
        return WaveFlashlight;
      }
      if id == "keycard" && currentRoom == "bridge" {
        flags := flags["console_activated" := true];
        return ConsoleActivated(moves);
      }
      if id == "keycard" {
        return NothingForKeycard;
      }
      if id == "crew_log" {
        return CrewLogText;
      }
      return CannotUse(name);
    }
  }
}
