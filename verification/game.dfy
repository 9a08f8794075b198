/**
 The game state of the voxel explorer and the event handlers that change it:
 the object registry and the fruit list, the held fruit and the fruits waiting
 to grow back, the movement intents, the jump state and the per-frame
 movement step.

 The rendering engine is not part of this model. A scene object is an opaque
 handle (`Id`) together with the few properties the game reads off it
 (`Entity`); the nearest-first list of objects under the crosshair, which the
 engine's ray caster computes, is a parameter of the mouse handler; the
 engine's camera-relative moves are recorded in `moves`; and the 30-second
 timers that grow a collected fruit back are a first-in first-out queue of
 positions that `FireRespawn` pops.
 */
module Game {
  import Registry
  import Physics
  import Input

  /** A handle of a scene object (a mesh). */
  type Id = nat

  datatype Option<T> = None | Some(value: T)

  /** A position in world units. */
  datatype Pos = Pos(x: real, y: real, z: real)

  /** The properties the game reads off a scene object. */
  datatype Entity = Entity(isFruit: bool, isCollectable: bool, pos: Pos)

  /** A block: ground, cube, trunk or leaves. */
  function Block(pos: Pos): Entity {
    Entity(false, false, pos)
  }

  /** A fruit as it is created, on a tree or when it grows back. */
  function Fruit(pos: Pos): Entity {
    Entity(true, true, pos)
  }

  /** The right mouse button collects a target only when it is a fruit that is ready to be picked. */
  predicate CanCollect(e: Entity) {
    e.isFruit && e.isCollectable
  }

  /** The arguments of one pair of camera moves: sideways, then forward. */
  datatype Move = Move(right: int, forward: int)

  /** The mouse buttons the game reacts to. */
  const LEFT_BUTTON := 0
  const RIGHT_BUTTON := 2

  /** The handles `first`, `first + 1`, ..., `first + n - 1`, in that order. */
  function Handles(first: Id, n: nat): seq<Id> {
    seq(n, k requires 0 <= k => first + k)
  }

  /** A tree's fruit positions: the canopy centre moved by each offset. */
  function Shift(center: Pos, offset: Pos): Pos {
    Pos(center.x + offset.x, center.y + offset.y, center.z + offset.z)
  }

  /**
   The draws a tree's fruit can come from: three to five fruits, each moved
   from the canopy centre by less than one unit either way along each axis.
   */
  predicate FruitOffsets(offsets: seq<Pos>) {
    && 3 <= |offsets| <= 5
    && forall o :: o in offsets ==> -1.0 <= o.x < 1.0 && -1.0 <= o.y < 1.0 && -1.0 <= o.z < 1.0
  }

  /** The handles from `first` on hold one fruit per offset around `center`, in the order of the offsets. */
  ghost predicate FruitsAround(entities: map<Id, Entity>, first: Id, center: Pos, offsets: seq<Pos>) {
    forall id :: first <= id < first + |offsets| ==> id in entities && entities[id] == Fruit(Shift(center, offsets[id - first]))
  }

  /** Everything the registries hold. */
  datatype WorldState = WorldState(
    objects: seq<Id>, fruits: seq<Id>, entities: map<Id, Entity>,
    heldItem: Option<Id>, pendingRespawns: seq<Pos>, nextId: Id)

  /**
   Every listed handle names a known object and is listed once, every fruit
   handle names a fruit, every handle in use is below `nextId`, and the held
   fruit is never a world object.
   */
  ghost predicate WellFormed(w: WorldState) {
    && (forall id :: id in w.objects ==> id in w.entities)
    && (forall id :: id in w.fruits ==> id in w.entities && w.entities[id].isFruit)
    && (forall id :: id in w.entities ==> id < w.nextId)
    && (w.heldItem.Some? ==> w.heldItem.value < w.nextId && w.heldItem.value !in w.entities)
    && Registry.Distinct(w.objects)
    && Registry.Distinct(w.fruits)
  }

  /**
   A new object registered under the next unused handle: it becomes a target,
   and a fruit also joins the fruit list.
   */
  function Register(w: WorldState, e: Entity, asFruit: bool): WorldState {
    var id := w.nextId;
    w.(objects := w.objects + [id],
       fruits := if asFruit then w.fruits + [id] else w.fruits,
       entities := w.entities[id := e],
       nextId := id + 1)
  }

  /** Breaking an object: its first occurrence leaves the registry. */
  function Destroy(w: WorldState, block: Id): WorldState {
    w.(objects := Registry.RemoveFirst(w.objects, block))
  }

  /**
   Picking a fruit that is ready: it leaves the registry and the fruit list, an
   empty hand receives a new fruit handle, and the fruit's position is queued
   to grow back. A fruit that is not ready changes nothing.
   */
  function Collect(w: WorldState, fruit: Id): WorldState
    requires fruit in w.entities
  {
    if !w.entities[fruit].isCollectable then w
    else
      w.(objects := Registry.RemoveFirst(w.objects, fruit),
         fruits := Registry.RemoveFirst(w.fruits, fruit),
         heldItem := if w.heldItem.None? then Some(w.nextId) else w.heldItem,
         nextId := if w.heldItem.None? then w.nextId + 1 else w.nextId,
         pendingRespawns := w.pendingRespawns + [w.entities[fruit].pos])
  }

  /** Eating: the hand is empty afterwards. */
  function Eat(w: WorldState): WorldState {
    w.(heldItem := None)
  }

  /**
   A mouse button goes down while the crosshair is over `hits`, nearest first.
   Nothing happens unless the pointer is captured. The left button breaks the
   nearest object, whatever it is. The right button eats the held fruit if
   there is one, and otherwise picks the nearest object if it is a fruit ready
   to be picked. Other buttons change nothing.
   */
  function MouseDown(w: WorldState, locked: bool, button: int, hits: seq<Id>): WorldState
    requires forall h :: h in hits ==> h in w.entities
  {
    if !locked then w
    else if button == LEFT_BUTTON then
      if hits != [] then Destroy(w, hits[0]) else w
    else if button == RIGHT_BUTTON then
      if w.heldItem.Some? then Eat(w)
      else if hits != [] && CanCollect(w.entities[hits[0]]) then Collect(w, hits[0])
      else w
    else w
  }

  /** The oldest queued fruit grows back: a new collectable fruit at the queued position. */
  function Respawn(w: WorldState): WorldState
    requires w.pendingRespawns != []
  {
    Register(w.(pendingRespawns := w.pendingRespawns[1..]), Fruit(w.pendingRespawns[0]), true)
  }

  /** Hanging one new fruit per offset around a canopy centre, in the order of the offsets. */
  function PlantFruits(w: WorldState, center: Pos, offsets: seq<Pos>): WorldState
    decreases |offsets|
  {
    if offsets == [] then w
    else PlantFruits(Register(w, Fruit(Shift(center, offsets[0])), true), center, offsets[1..])
  }

  /** A tree at (x, z): a trunk block, a leaves block above it, and fruit around the leaves. */
  function Tree(w: WorldState, x: real, z: real, offsets: seq<Pos>): WorldState {
    var trunk := Register(w, Block(Pos(x, 2.0, z)), false);
    var leaves := Register(trunk, Block(Pos(x, 5.0, z)), false);
    PlantFruits(leaves, Pos(x, 5.0, z), offsets)
  }

  /**
   Registering keeps the registries well formed. The new handle was unused;
   it ends both lists it joins, and every object already registered keeps its
   place and its properties.
   */
  lemma RegisterKeepsWellFormed(w: WorldState, e: Entity, asFruit: bool)
    requires WellFormed(w)
    requires asFruit ==> e.isFruit
    ensures WellFormed(Register(w, e, asFruit))
    ensures w.nextId !in w.entities && w.nextId !in w.objects && w.nextId !in w.fruits
    ensures var r := Register(w, e, asFruit);
      && r.objects[..|w.objects|] == w.objects && r.objects[|w.objects|] == w.nextId
      && (asFruit ==> r.fruits[..|w.fruits|] == w.fruits && r.fruits[|w.fruits|] == w.nextId)
      && (forall id :: id in w.entities ==> id in r.entities && r.entities[id] == w.entities[id])
  {
    Registry.AppendFreshDistinct(w.objects, w.nextId);
    if asFruit {
      Registry.AppendFreshDistinct(w.fruits, w.nextId);
    }
  }

  /** Breaking a block that was just placed restores the registry it was placed in. */
  lemma DestroyUndoesRegister(w: WorldState, e: Entity)
    requires WellFormed(w)
    ensures Destroy(Register(w, e, false), w.nextId).objects == w.objects
  {
    Registry.RemoveFirstUndoesAppend(w.objects, w.nextId);
  }

  /**
   Breaking keeps the registries well formed and removes the object for good:
   it is no longer a target, breaking it again changes nothing, every other
   object stays a target, and the registry shrinks by one exactly when the
   object was listed.
   */
  lemma DestroyKeepsWellFormed(w: WorldState, block: Id)
    requires WellFormed(w)
    ensures WellFormed(Destroy(w, block))
    ensures block !in Destroy(w, block).objects
    ensures Destroy(Destroy(w, block), block) == Destroy(w, block)
    ensures forall y :: y != block ==> (y in Destroy(w, block).objects <==> y in w.objects)
    ensures multiset(Destroy(w, block).objects) == multiset(w.objects) - multiset{block}
    ensures block !in w.objects ==> Destroy(w, block) == w
  {
    var r := Registry.RemoveFirst(w.objects, block);
    Registry.RemoveFirstDistinct(w.objects, block);
    Registry.RemoveFirstCounts(w.objects, block);
    forall y ensures y in r ==> y in w.entities
      ensures y != block ==> (y in r <==> y in w.objects)
    {
      Registry.RemoveFirstSubset(w.objects, block, y);
    }
  }

  /** Cutting a handle out of the fruit list keeps the registries well formed. */
  lemma UnlistFruitKeepsWellFormed(w: WorldState, x: Id)
    requires WellFormed(w)
    ensures WellFormed(w.(fruits := Registry.RemoveFirst(w.fruits, x)))
    ensures x !in Registry.RemoveFirst(w.fruits, x)
    ensures forall y :: y != x ==> (y in Registry.RemoveFirst(w.fruits, x) <==> y in w.fruits)
  {
    var r := Registry.RemoveFirst(w.fruits, x);
    Registry.RemoveFirstDistinct(w.fruits, x);
    forall y ensures y in r ==> y in w.entities && w.entities[y].isFruit
      ensures y != x ==> (y in r <==> y in w.fruits)
    {
      Registry.RemoveFirstSubset(w.fruits, x, y);
    }
  }

  /**
   Picking keeps the registries well formed. A picked fruit is neither a target
   nor a listed fruit afterwards, every other handle keeps its place in both
   lists, the hand is full, and exactly the fruit's position has joined the
   end of the queue of fruits to grow back.
   */
  lemma CollectKeepsWellFormed(w: WorldState, fruit: Id)
    requires WellFormed(w) && fruit in w.entities
    ensures WellFormed(Collect(w, fruit))
    ensures w.entities[fruit].isCollectable ==>
      var r := Collect(w, fruit);
      && fruit !in r.objects && fruit !in r.fruits
      && (forall y :: y != fruit ==> (y in r.objects <==> y in w.objects) && (y in r.fruits <==> y in w.fruits))
      && multiset(r.objects) == multiset(w.objects) - multiset{fruit}
      && multiset(r.fruits) == multiset(w.fruits) - multiset{fruit}
      && r.heldItem.Some?
      && (w.heldItem.Some? ==> r.heldItem == w.heldItem)
      && (w.heldItem.None? ==> r.heldItem.value !in w.entities)
      && r.pendingRespawns == w.pendingRespawns + [w.entities[fruit].pos]
      && r.entities == w.entities
    ensures !w.entities[fruit].isCollectable ==> Collect(w, fruit) == w
  {
    if w.entities[fruit].isCollectable {
      Registry.RemoveFirstCounts(w.fruits, fruit);
      var w1 := Destroy(w, fruit);
      DestroyKeepsWellFormed(w, fruit);
      UnlistFruitKeepsWellFormed(w1, fruit);
    }
  }

  /**
   A click keeps the registries well formed, never adds a handle to either
   list, and touches no handle but the nearest hit: every other handle keeps
   its place in the registry and in the fruit list, and no object's
   properties change.
   */
  lemma MouseDownKeepsWellFormed(w: WorldState, locked: bool, button: int, hits: seq<Id>)
    requires WellFormed(w)
    requires forall h :: h in hits ==> h in w.objects
    ensures WellFormed(MouseDown(w, locked, button, hits))
    ensures MouseDown(w, locked, button, hits).entities == w.entities
    ensures forall y :: (hits == [] || y != hits[0]) ==>
      && (y in MouseDown(w, locked, button, hits).objects <==> y in w.objects)
      && (y in MouseDown(w, locked, button, hits).fruits <==> y in w.fruits)
    ensures locked && button == LEFT_BUTTON && hits != [] ==>
      hits[0] !in MouseDown(w, locked, button, hits).objects
  {
    if locked && hits != [] {
      if button == LEFT_BUTTON {
        DestroyKeepsWellFormed(w, hits[0]);
      } else if button == RIGHT_BUTTON && w.heldItem.None? && CanCollect(w.entities[hits[0]]) {
        CollectKeepsWellFormed(w, hits[0]);
      }
    }
  }

  /**
   Eating empties the hand, leaves both lists and every object as they were,
   keeps the registries well formed, and is a no-op with an empty hand.
   */
  lemma EatKeepsWellFormed(w: WorldState)
    requires WellFormed(w)
    ensures WellFormed(Eat(w))
    ensures Eat(w).heldItem == None
    ensures Eat(w).objects == w.objects && Eat(w).fruits == w.fruits && Eat(w).entities == w.entities
    ensures w.heldItem.None? ==> Eat(w) == w
  {
  }

  /**
   The clicks that do nothing: any click while the pointer is free, a button
   other than the left and right ones, a left click on nothing, and a right
   click with an empty hand on nothing or on something that is not a fruit
   ready to be picked.
   */
  lemma MouseDownNoOps(w: WorldState, locked: bool, button: int, hits: seq<Id>)
    requires forall h :: h in hits ==> h in w.entities
    ensures !locked ==> MouseDown(w, locked, button, hits) == w
    ensures button != LEFT_BUTTON && button != RIGHT_BUTTON ==> MouseDown(w, locked, button, hits) == w
    ensures button == LEFT_BUTTON && hits == [] ==> MouseDown(w, locked, button, hits) == w
    ensures button == RIGHT_BUTTON && w.heldItem.None? && (hits == [] || !CanCollect(w.entities[hits[0]])) ==>
      MouseDown(w, locked, button, hits) == w
  {
  }

  /**
   The right button alternates the hand: with a fruit in hand a right click
   is exactly eating, whatever is under the crosshair, and with an empty hand a right click on
   a fruit that is ready picks it, so the hand is full.
   */
  lemma RightClickAlternatesHand(w: WorldState, hits: seq<Id>)
    requires WellFormed(w)
    requires forall h :: h in hits ==> h in w.objects
    ensures w.heldItem.Some? ==> MouseDown(w, true, RIGHT_BUTTON, hits) == Eat(w)
    ensures w.heldItem.None? && hits != [] && CanCollect(w.entities[hits[0]]) ==>
      && MouseDown(w, true, RIGHT_BUTTON, hits).heldItem.Some?
      && hits[0] !in MouseDown(w, true, RIGHT_BUTTON, hits).objects
  {
    if w.heldItem.None? && hits != [] && CanCollect(w.entities[hits[0]]) {
      CollectKeepsWellFormed(w, hits[0]);
    }
  }

  /** A queued fruit growing back keeps the registries well formed. */
  lemma RespawnKeepsWellFormed(w: WorldState)
    requires WellFormed(w) && w.pendingRespawns != []
    ensures WellFormed(Respawn(w))
  {
    RegisterKeepsWellFormed(w.(pendingRespawns := w.pendingRespawns[1..]), Fruit(w.pendingRespawns[0]), true);
  }

  /**
   A listed fruit that is picked with nothing else waiting grows back at the
   same place: once its timer fires there are as many fruits as before, the
   last of them a new collectable fruit at the picked fruit's position, and
   nothing is left waiting.
   */
  lemma CollectThenRespawn(w: WorldState, fruit: Id)
    requires WellFormed(w) && fruit in w.fruits && w.pendingRespawns == []
    requires CanCollect(w.entities[fruit])
    ensures var r := Respawn(Collect(w, fruit));
      && |r.fruits| == |w.fruits|
      && r.pendingRespawns == []
      && r.fruits[|r.fruits| - 1] !in w.entities
      && r.entities[r.fruits[|r.fruits| - 1]] == Fruit(w.entities[fruit].pos)
  {
    Registry.RemoveFirstCounts(w.fruits, fruit);
  }

  /**
   Hanging fruit appends the new fruits, under consecutive fresh handles, to
   both the registry and the fruit list; the hand and the queue of fruits to
   grow back are untouched.
   */
  lemma {:induction false} PlantFruitsLists(w: WorldState, center: Pos, offsets: seq<Pos>)
    ensures var r := PlantFruits(w, center, offsets);
      && r.objects == w.objects + Handles(w.nextId, |offsets|)
      && r.fruits == w.fruits + Handles(w.nextId, |offsets|)
      && r.nextId == w.nextId + |offsets|
      && r.heldItem == w.heldItem && r.pendingRespawns == w.pendingRespawns
    decreases |offsets|
  {
    if offsets != [] {
      var w1 := Register(w, Fruit(Shift(center, offsets[0])), true);
      PlantFruitsLists(w1, center, offsets[1..]);
      assert Handles(w.nextId, |offsets|) == [w.nextId] + Handles(w.nextId + 1, |offsets| - 1);
      assert w1.objects + Handles(w.nextId + 1, |offsets| - 1) == w.objects + Handles(w.nextId, |offsets|);
      assert w1.fruits + Handles(w.nextId + 1, |offsets| - 1) == w.fruits + Handles(w.nextId, |offsets|);
    }
  }

  /** Hanging fruit keeps the registries well formed. */
  lemma {:induction false} PlantFruitsKeepsWellFormed(w: WorldState, center: Pos, offsets: seq<Pos>)
    requires WellFormed(w)
    ensures WellFormed(PlantFruits(w, center, offsets))
    decreases |offsets|
  {
    if offsets != [] {
      RegisterKeepsWellFormed(w, Fruit(Shift(center, offsets[0])), true);
      PlantFruitsKeepsWellFormed(Register(w, Fruit(Shift(center, offsets[0])), true), center, offsets[1..]);
    }
  }

  /**
   Hanging fruit changes no existing object, and the new handles hold one
   fruit each, at the canopy centre moved by its offset.
   */
  lemma {:induction false} PlantFruitsEntities(w: WorldState, center: Pos, offsets: seq<Pos>)
    requires forall id :: id in w.entities ==> id < w.nextId
    ensures var r := PlantFruits(w, center, offsets);
      && (forall id :: id in w.entities ==> id in r.entities && r.entities[id] == w.entities[id])
      && FruitsAround(r.entities, w.nextId, center, offsets)
    decreases |offsets|
  {
    if offsets != [] {
      var w1 := Register(w, Fruit(Shift(center, offsets[0])), true);
      PlantFruitsEntities(w1, center, offsets[1..]);
      var r := PlantFruits(w, center, offsets);
      forall id | w.nextId <= id < w.nextId + |offsets|
        ensures id in r.entities && r.entities[id] == Fruit(Shift(center, offsets[id - w.nextId]))
      {
        if id > w.nextId {
          assert offsets[1..][id - (w.nextId + 1)] == offsets[id - w.nextId];
        }
      }
    }
  }

  /**
   Planting a tree appends the trunk, the leaves and then the fruits, under
   consecutive fresh handles, to the registry in that order, and only the
   fruits to the fruit list.
   */
  lemma TreeLists(w: WorldState, x: real, z: real, offsets: seq<Pos>)
    ensures var r := Tree(w, x, z, offsets);
      && r.objects == w.objects + Handles(w.nextId, 2 + |offsets|)
      && r.fruits == w.fruits + Handles(w.nextId + 2, |offsets|)
      && r.nextId == w.nextId + 2 + |offsets|
  {
    var trunk := Register(w, Block(Pos(x, 2.0, z)), false);
    var leaves := Register(trunk, Block(Pos(x, 5.0, z)), false);
    PlantFruitsLists(leaves, Pos(x, 5.0, z), offsets);
    assert Handles(w.nextId, 2 + |offsets|) == [w.nextId, w.nextId + 1] + Handles(w.nextId + 2, |offsets|);
  }

  /** Planting a tree keeps the registries well formed. */
  lemma TreeKeepsWellFormed(w: WorldState, x: real, z: real, offsets: seq<Pos>)
    requires WellFormed(w)
    ensures WellFormed(Tree(w, x, z, offsets))
  {
    var trunk := Register(w, Block(Pos(x, 2.0, z)), false);
    RegisterKeepsWellFormed(w, Block(Pos(x, 2.0, z)), false);
    RegisterKeepsWellFormed(trunk, Block(Pos(x, 5.0, z)), false);
    PlantFruitsKeepsWellFormed(Register(trunk, Block(Pos(x, 5.0, z)), false), Pos(x, 5.0, z), offsets);
  }

  /**
   Planting a tree changes no existing object: the trunk stands at height 2
   and the leaves at height 5 above (x, z), and the fruits hang around the
   leaves.
   */
  lemma TreeEntities(w: WorldState, x: real, z: real, offsets: seq<Pos>)
    requires forall id :: id in w.entities ==> id < w.nextId
    ensures var r := Tree(w, x, z, offsets);
      && (forall id :: id in w.entities ==> id in r.entities && r.entities[id] == w.entities[id])
      && w.nextId in r.entities && r.entities[w.nextId] == Block(Pos(x, 2.0, z))
      && w.nextId + 1 in r.entities && r.entities[w.nextId + 1] == Block(Pos(x, 5.0, z))
      && FruitsAround(r.entities, w.nextId + 2, Pos(x, 5.0, z), offsets)
  {
    var trunk := Register(w, Block(Pos(x, 2.0, z)), false);
    var leaves := Register(trunk, Block(Pos(x, 5.0, z)), false);
    PlantFruitsEntities(leaves, Pos(x, 5.0, z), offsets);
  }

  class Game {
    /** Whether the pointer is captured (mouse look active). */
    var locked: bool
    var moveForward: bool
    var moveBackward: bool
    var moveLeft: bool
    var moveRight: bool
    var canJump: bool
    var isJumping: bool
    /** Eye height and vertical speed, in steps of 1/SCALE units. */
    var y: int
    var vy: int
    /** The horizontal velocity of the last frame, in steps of 1/SCALE units. */
    var vx: int
    var vz: int
    /** The camera moves made so far, one per frame while the pointer is captured. */
    var moves: seq<Move>
    /** Every object the crosshair can hit. */
    var objects: seq<Id>
    var fruits: seq<Id>
    /** The properties of every object ever placed in the world. */
    var entities: map<Id, Entity>
    /** The fruit in the player's hand, a handle of its own attached to the camera. */
    var heldItem: Option<Id>
    /** Where collected fruits will grow back, oldest first. */
    var pendingRespawns: seq<Pos>
    /** The next unused handle. */
    var nextId: Id

    ghost function Intents(): Input.Intent
      reads this`moveForward, this`moveBackward, this`moveLeft, this`moveRight
    {
      Input.Intent(moveForward, moveBackward, moveLeft, moveRight)
    }

    ghost function Kinetics(): Physics.Body
      reads this`y, this`vy, this`canJump, this`isJumping
    {
      Physics.Body(y, vy, canJump, isJumping)
    }

    ghost function World(): WorldState
      reads this`objects, this`fruits, this`entities, this`heldItem, this`pendingRespawns, this`nextId
    {
      WorldState(objects, fruits, entities, heldItem, pendingRespawns, nextId)
    }

    /** The registries are well formed and the vertical state is consistent. */
    ghost predicate Valid()
      reads this`objects, this`fruits, this`entities, this`heldItem, this`pendingRespawns, this`nextId
      reads this`y, this`vy, this`canJump, this`isJumping
    {
      WellFormed(World()) && Physics.Consistent(Kinetics())
    }

    /** The state before the world is populated: standing at rest, empty hands, no objects. */
    constructor ()
      ensures Valid()
      ensures !locked && Intents() == Input.Idle && Kinetics() == Physics.Rest
      ensures vx == 0 && vz == 0 && moves == []
      ensures World() == WorldState([], [], map[], None, [], 0)
    {
      locked := false;
      moveForward, moveBackward, moveLeft, moveRight := false, false, false, false;
      canJump, isJumping := true, false;
      y, vy := Physics.PLAYER_HEIGHT, 0;
      vx, vz := 0, 0;
      moves := [];
      objects, fruits, entities := [], [], map[];
      heldItem := None;
      pendingRespawns := [];
      nextId := 0;
    }

    /** The pointer is captured (the start button was pressed). */
    method Lock()
      modifies this`locked
      ensures locked
    {
      locked := true;
    }

    /** The pointer is released. */
    method Unlock()
      modifies this`locked
      ensures !locked
    {
      locked := false;
    }

    /** Places a new block in the world and registers it as a target. */
    method AddBlock(pos: Pos) returns (id: Id)
      requires Valid()
      modifies this`objects, this`entities, this`nextId
      ensures Valid()
      ensures id == old(nextId) && id !in old(entities)
      ensures World() == Register(old(World()), Block(pos), false)
    {
      RegisterKeepsWellFormed(World(), Block(pos), false);
      id := nextId;
      nextId := nextId + 1;
      entities := entities[id := Block(pos)];
      objects := objects + [id];
    }

    /** Places a new collectable fruit and appends it to both the fruit list and the registry. */
    method CreateFruit(pos: Pos) returns (id: Id)
      requires Valid()
      modifies this`objects, this`fruits, this`entities, this`nextId
      ensures Valid()
      ensures id == old(nextId) && id !in old(entities)
      ensures World() == Register(old(World()), Fruit(pos), true)
    {
      RegisterKeepsWellFormed(World(), Fruit(pos), true);
      id := nextId;
      nextId := nextId + 1;
      entities := entities[id := Fruit(pos)];
      fruits := fruits + [id];
      objects := objects + [id];
    }

    /** Hangs one fruit per offset around a canopy centre, in the order of the offsets. */
    method AddFruitsToTree(center: Pos, offsets: seq<Pos>)
      requires Valid()
      requires FruitOffsets(offsets)
      modifies this`objects, this`fruits, this`entities, this`nextId
      ensures Valid()
      ensures World() == PlantFruits(old(World()), center, offsets)
    {
      for i := 0 to |offsets|
        invariant Valid()
        invariant PlantFruits(World(), center, offsets[i..]) == PlantFruits(old(World()), center, offsets)
      {
        assert offsets[i..][1..] == offsets[i + 1..];
        var _ := CreateFruit(Shift(center, offsets[i]));
      }
    }

    /** A tree at (x, z): a trunk block, a leaves block above it, and fruit around the leaves. */
    method CreateTree(x: real, z: real, offsets: seq<Pos>)
      requires Valid()
      requires FruitOffsets(offsets)
      modifies this`objects, this`fruits, this`entities, this`nextId
      ensures Valid()
      ensures World() == Tree(old(World()), x, z, offsets)
    {
      var _ := AddBlock(Pos(x, 2.0, z));
      var _ := AddBlock(Pos(x, 5.0, z));
      AddFruitsToTree(Pos(x, 5.0, z), offsets);
    }

    /**
     Breaks the object: cuts its first occurrence out of the registry, which,
     since handles are listed once, removes it for good. The fruit list, the
     object's properties and the held fruit are untouched.
     */
    method DestroyBlock(block: Id)
      requires Valid()
      modifies this`objects
      ensures Valid()
      ensures World() == Destroy(old(World()), block)
    {
      UnlistObject(block);
    }

    /** Cuts the first occurrence of `x` out of the registry (`indexOf`, then `splice`). */
    method UnlistObject(x: Id)
      requires Valid()
      modifies this`objects
      ensures Valid()
      ensures objects == Registry.RemoveFirst(old(objects), x)
      ensures x !in objects
    {
      DestroyKeepsWellFormed(World(), x);
      var index := Registry.IndexOf(objects, x);
      if index > -1 {
        objects := objects[..index] + objects[index + 1..];
      }
    }

    /** Cuts the first occurrence of `x` out of the fruit list. */
    method UnlistFruit(x: Id)
      requires Valid()
      modifies this`fruits
      ensures Valid()
      ensures fruits == Registry.RemoveFirst(old(fruits), x)
      ensures x !in fruits
    {
      UnlistFruitKeepsWellFormed(World(), x);
      var index := Registry.IndexOf(fruits, x);
      if index > -1 {
        fruits := fruits[..index] + fruits[index + 1..];
      }
    }

    /** An empty hand receives a new fruit handle; a full hand keeps its fruit. */
    method FillHand()
      requires Valid()
      modifies this`heldItem, this`nextId
      ensures Valid()
      ensures old(heldItem).None? ==> heldItem == Some(old(nextId)) && nextId == old(nextId) + 1
      ensures old(heldItem).Some? ==> heldItem == old(heldItem) && nextId == old(nextId)
    {
      if heldItem.None? {
        heldItem := Some(nextId);
        nextId := nextId + 1;
      }
    }

    /**
     Picks a fruit that is ready to be picked: it leaves the registry and the
     fruit list, a new fruit handle goes into an empty hand (a full hand keeps
     its fruit), and the fruit's position joins the queue of fruits to grow
     back. A fruit that is not ready changes nothing.
     */
    method CollectFruit(fruit: Id)
      requires Valid() && fruit in entities
      modifies this`objects, this`fruits, this`heldItem, this`pendingRespawns, this`nextId
      ensures Valid()
      ensures World() == Collect(old(World()), fruit)
    {
      if entities[fruit].isCollectable {
        UnlistObject(fruit);
        UnlistFruit(fruit);
        FillHand();
        QueueRespawn(entities[fruit].pos);
      }
    }

    /** Starts the timer that grows a fruit back at `pos`: it joins the end of the queue. */
    method QueueRespawn(pos: Pos)
      requires Valid()
      modifies this`pendingRespawns
      ensures Valid()
      ensures pendingRespawns == old(pendingRespawns) + [pos]
    {
      pendingRespawns := pendingRespawns + [pos];
    }

    /** Eats the held fruit, if any: the hand is empty afterwards. */
    method EatFruit()
      requires Valid()
      modifies this`heldItem
      ensures Valid()
      ensures World() == Eat(old(World()))
    {
      if heldItem.Some? {
        heldItem := None;
      }
    }

    /**
     A mouse button goes down while the crosshair is over `hits`, nearest
     first. Nothing happens unless the pointer is captured. The left button
     breaks the nearest object, whatever it is. The right button eats the held
     fruit if there is one, and otherwise picks the nearest object if it is a
     fruit ready to be picked. Other buttons, and a left or right click on
     nothing, change nothing.
     */
    method OnMouseDown(button: int, hits: seq<Id>)
      requires Valid()
      requires forall h :: h in hits ==> h in objects
      modifies this`objects, this`fruits, this`heldItem, this`pendingRespawns, this`nextId
      ensures Valid()
      ensures World() == MouseDown(old(World()), locked, button, hits)
    {
      if !locked {
        return;
      }
      if button == LEFT_BUTTON {
        if |hits| > 0 {
          DestroyBlock(hits[0]);
        }
      } else if button == RIGHT_BUTTON {
        if heldItem.Some? {
          EatFruit();
        } else {
          if |hits| > 0 {
            var target := hits[0];
            if entities[target].isFruit && entities[target].isCollectable {
              CollectFruit(target);
            }
          }
        }
      }
    }

    /**
     A key goes down: a movement key sets its intent, Space starts a jump if
     one is armed, and any other key changes nothing.
     */
    method OnKeyDown(code: string)
      requires Valid()
      modifies this`moveForward, this`moveBackward, this`moveLeft, this`moveRight
      modifies this`vy, this`canJump, this`isJumping
      ensures Valid()
      ensures Intents() == Input.Pressed(old(Intents()), Input.ControlOf(code))
      ensures Kinetics() == if Input.ControlOf(code) == Input.JumpKey then Physics.Jump(old(Kinetics())) else old(Kinetics())
    {
      var control := Input.ControlOf(code);
      if control == Input.JumpKey {
        StartJump();
      } else {
        Press(control);
      }
    }

    /** The jump key: an impulse when a jump is armed, and nothing while one is under way. */
    method StartJump()
      requires Valid()
      modifies this`vy, this`canJump, this`isJumping
      ensures Valid()
      ensures Kinetics() == Physics.Jump(old(Kinetics()))
    {
      Physics.ConsistentPreserved(Kinetics());
      if canJump {
        vy := Physics.JUMP_FORCE;
        canJump := false;
        isJumping := true;
      }
    }

    /** A key of `control` goes down: a movement control sets its intent. */
    method Press(control: Input.Control)
      modifies this`moveForward, this`moveBackward, this`moveLeft, this`moveRight
      ensures Intents() == Input.Pressed(old(Intents()), control)
    {
      match control
      case Forward =>
        moveForward := true;
      case Backward =>
        moveBackward := true;
      case Left =>
        moveLeft := true;
      case Right =>
        moveRight := true;
      case JumpKey =>
      case Unbound =>
    }

    /** A key goes up: a movement key clears its intent; any other key changes nothing. */
    method OnKeyUp(code: string)
      modifies this`moveForward, this`moveBackward, this`moveLeft, this`moveRight
      ensures Intents() == Input.Released(old(Intents()), Input.ControlOf(code))
    {
      match Input.ControlOf(code)
      case Forward =>
        moveForward := false;
      case Backward =>
        moveBackward := false;
      case Left =>
        moveLeft := false;
      case Right =>
        moveRight := false;
      case JumpKey =>
      case Unbound =>
    }

    /**
     One frame of movement: without the pointer nothing changes; with it, the
     vertical step and then the horizontal step.
     */
    method UpdateMovement()
      requires Valid()
      modifies this`y, this`vy, this`canJump, this`isJumping, this`vx, this`vz, this`moves
      ensures Valid()
      ensures !locked ==> unchanged(this`y, this`vy, this`canJump, this`isJumping, this`vx, this`vz, this`moves)
      ensures locked ==> Kinetics() == Physics.Gravity(old(Kinetics()))
      ensures locked ==> vx == Physics.AxisVelocity(moveLeft, moveRight)
      ensures locked ==> vz == Physics.AxisVelocity(moveForward, moveBackward)
      ensures locked ==> moves == old(moves) + [Move(vx, vz)]
    {
      if locked {
        ApplyGravity();
        ApplyIntents();
      }
    }

    /** The vertical step: gravity while airborne, otherwise the clamp to the resting height that re-arms the jump. */
    method ApplyGravity()
      requires Valid()
      modifies this`y, this`vy, this`canJump, this`isJumping
      ensures Valid()
      ensures Kinetics() == Physics.Gravity(old(Kinetics()))
    {
      Physics.ConsistentPreserved(Kinetics());
      if y > Physics.PLAYER_HEIGHT || vy > 0 {
        vy := vy - Physics.GRAVITY;
        y := y + vy;
      } else {
        y := Physics.PLAYER_HEIGHT;
        vy := 0;
        canJump := true;
        isJumping := false;
      }
    }

    /**
     The horizontal step: the velocity is rebuilt from the held keys, the later
     key of each opposing pair overriding the earlier, and handed to the camera.
     */
    method ApplyIntents()
      modifies this`vx, this`vz, this`moves
      ensures vx == Physics.AxisVelocity(moveLeft, moveRight)
      ensures vz == Physics.AxisVelocity(moveForward, moveBackward)
      ensures moves == old(moves) + [Move(vx, vz)]
    {
      vx := 0;
      vz := 0;
      if moveForward {
        vz := -Physics.STEP;
      }
      if moveBackward {
        vz := Physics.STEP;
      }
      if moveLeft {
        vx := -Physics.STEP;
      }
      if moveRight {
        vx := Physics.STEP;
      }
      moves := moves + [Move(vx, vz)];
    }

    /**
     The oldest pending timer fires: a new collectable fruit grows at the
     queued position, appended to the fruit list and the registry.
     */
    method FireRespawn() returns (id: Id)
      requires Valid() && pendingRespawns != []
      modifies this`objects, this`fruits, this`entities, this`pendingRespawns, this`nextId
      ensures Valid()
      ensures id == old(nextId) && id !in old(entities)
      ensures World() == Respawn(old(World()))
    {
      var pos := pendingRespawns[0];
      pendingRespawns := pendingRespawns[1..];
      id := CreateFruit(pos);
    }
  }
}
