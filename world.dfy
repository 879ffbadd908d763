/**
 * The space-station world: five rooms joined by directed exits, three items,
 * the start room and the puzzle flags. Description texts are abstracted to the
 * description keys a room has (`View`); everything the engine looks up is kept.
 */
module World {
  import opened Wrappers

  /** Which description key of a room is shown: `description`,
      `description_dark`, `description_lit` or `description_looted`. */
  datatype View = Plain | Dark | Lit | Looted

  /** One entry of a room's `exits` dictionary, in dictionary order. */
  datatype Exit = Exit(direction: string, destination: string)

  datatype Room = Room(name: string, exits: seq<Exit>, views: set<View>)

  /** An entry of `ITEMS`: its key, display name, the room it lies in, the flag
      that must be set before it can be taken and the refusal shown otherwise. */
  datatype Item = Item(id: string, name: string, location: string,
                       takeCondition: Option<string>, takeFail: Option<string>)

  const ROOMS: map<string, Room> := map[
    "airlock" := Room("Airlock", [Exit("north", "corridor")], {Plain}),
    "corridor" := Room("Corridor",
      [Exit("south", "airlock"), Exit("north", "bridge"), Exit("east", "engine_room"), Exit("west", "med_bay")],
      {Plain}),
    "bridge" := Room("Bridge", [Exit("south", "corridor")], {Plain}),
    "engine_room" := Room("Engine Room", [Exit("west", "corridor")], {Dark, Lit, Looted}),
    "med_bay" := Room("Med Bay", [Exit("east", "corridor")], {Plain, Looted})
  ]

  /** `ITEMS` in dictionary order: the engine's searches return the first match. */
  const ITEMS: seq<Item> := [
    Item("flashlight", "flashlight", "engine_room", None, None),
    Item("keycard", "keycard", "engine_room", Some("engine_room_lit"),
         Some("It's too dark to find anything in here.")),
    Item("crew_log", "crew log", "med_bay", None, None)
  ]

  const START_ROOM: string := "airlock"

  const INITIAL_FLAGS: map<string, bool> := map["engine_room_lit" := false, "console_activated" := false]

  /** The keys of `ITEMS`. */
  const ITEM_IDS: set<string> := {"flashlight", "keycard", "crew_log"}

  /** `ITEMS[id]` */
  function ItemById(id: string): (it: Item)
    requires id in ITEM_IDS
    ensures it in ITEMS && it.id == id
  {
    if ITEMS[0].id == id then ITEMS[0] else if ITEMS[1].id == id then ITEMS[1] else ITEMS[2]
  }

  /** `direction in exits` / `exits[direction]` */
  function ExitTo(exits: seq<Exit>, direction: string): (dest: Option<string>)
    ensures dest.Some? <==> exists i :: 0 <= i < |exits| && exits[i].direction == direction
    ensures dest.Some? ==> exists i :: 0 <= i < |exits| && exits[i] == Exit(direction, dest.value)
  {
    if exits == [] then None
    else if exits[0].direction == direction then Some(exits[0].destination)
    else
      var rest := ExitTo(exits[1..], direction);
      assert forall i :: 0 < i < |exits| ==> exits[i] == exits[1..][i - 1];
      rest
  }

  /** `", ".join(exits.keys())`, as the list of keys. */
  function Directions(exits: seq<Exit>): (ds: seq<string>)
    ensures |ds| == |exits| && forall i :: 0 <= i < |exits| ==> ds[i] == exits[i].direction
  {
    if exits == [] then [] else [exits[0].direction] + Directions(exits[1..])
  }

  // ---------------------------------------------------------------------------
  // Well-formedness of the tables, which the engine relies on.

  /** Every exit leads to a room. */
  lemma ExitsLeadToRooms()
    ensures forall r, i :: r in ROOMS && 0 <= i < |ROOMS[r].exits| ==> ROOMS[r].exits[i].destination in ROOMS
  {
  }

  /** An exit looked up by direction leads to a room. */
  lemma ExitToIsRoom(r: string, direction: string)
    requires r in ROOMS
    ensures ExitTo(ROOMS[r].exits, direction).Some? ==> ExitTo(ROOMS[r].exits, direction).value in ROOMS
  {
    ExitsLeadToRooms();
  }

  /** No room lists the same direction twice (they are dictionary keys). */
  lemma DirectionsAreDistinct()
    ensures forall r, i, j :: r in ROOMS && 0 <= i < j < |ROOMS[r].exits| ==>
              ROOMS[r].exits[i].direction != ROOMS[r].exits[j].direction
  {
  }

  /** The game starts in a room. */
  lemma StartIsRoom()
    ensures START_ROOM in ROOMS
  {
  }

  /** Every item lies in a room. */
  lemma ItemsLieInRooms()
    ensures forall i :: 0 <= i < |ITEMS| ==> ITEMS[i].location in ROOMS
  {
  }

  /** Every puzzle flag starts False. */
  lemma FlagsStartFalse()
    ensures forall f :: f in INITIAL_FLAGS ==> !INITIAL_FLAGS[f]
  {
  }

  /** The only take condition is the keycard's, and it names a puzzle flag. */
  lemma TakeConditionsAreFlags()
    ensures forall i :: 0 <= i < |ITEMS| && ITEMS[i].takeCondition.Some? ==>
              ITEMS[i].id == "keycard" && ITEMS[i].takeCondition.value == "engine_room_lit" &&
              ITEMS[i].takeCondition.value in INITIAL_FLAGS
  {
  }

  /** Item keys and item names are distinct, so a search by name finds at most one item. */
  lemma ItemsAreDistinct()
    ensures forall i, j :: 0 <= i < j < |ITEMS| ==> ITEMS[i].id != ITEMS[j].id && ITEMS[i].name != ITEMS[j].name
  {
  }

  /** Looking up a room's exit by its direction finds that exit's destination. */
  lemma ExitToFinds(r: string, i: nat)
    requires r in ROOMS && i < |ROOMS[r].exits|
    ensures ExitTo(ROOMS[r].exits, ROOMS[r].exits[i].direction) == Some(ROOMS[r].exits[i].destination)
  {
    DirectionsAreDistinct();
    var exits := ROOMS[r].exits;
    var dest := ExitTo(exits, exits[i].direction);
    var k :| 0 <= k < |exits| && exits[k] == Exit(exits[i].direction, dest.value);
    assert k == i;
  }

  /** `ITEM_IDS` holds exactly the keys of the items. */
  lemma ItemIdsAreKeys()
    ensures forall i :: 0 <= i < |ITEMS| ==> ITEMS[i].id in ITEM_IDS
    ensures forall id :: id in ITEM_IDS ==> exists i :: 0 <= i < |ITEMS| && ITEMS[i].id == id
  {
    assert ITEMS[0].id == "flashlight" && ITEMS[1].id == "keycard" && ITEMS[2].id == "crew_log";
  }
}
