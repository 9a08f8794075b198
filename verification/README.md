# Voxel explorer game state, in Dafny

A model of the game-state core of `app.js`, a first-person voxel game built on
three.js. In the game the player walks over a block world, breaks blocks with
the left mouse button, and picks fruit from trees with the right button. A
fruit in hand is eaten with the next right click, and a picked fruit grows back
at the same place after 30 seconds. The model covers the state the game keeps
at top level and the handlers that change it:

- **Registry** (`registry.dfy`): the ordered handle lists `objects` and
  `fruits`, with the JavaScript `indexOf` (first occurrence, or -1) and the
  `splice(index, 1)` the game uses to cut a handle out.
- **Physics** (`physics.dfy`): the vertical step of a frame (gravity, or the
  clamp to the resting eye height that re-arms the jump), the jump impulse,
  and the horizontal velocity chosen from the held movement keys. Lengths are
  fixed-point integers with 20 steps per world unit. GRAVITY 0.15 is 3 steps,
  JUMP_FORCE 0.8 is 16, PLAYER_HEIGHT 2 is 40, and the per-frame step 0.1 is 2.
  Every constant is therefore exact, and the arithmetic is the source's
  arithmetic without rounding.
- **Input** (`input.dfy`): the key codes the game binds (arrow keys and
  W/S/A/D for movement, Space for the jump) and the four movement intents a
  key press sets and a key release clears.
- **Game** (`game.dfy`): the class `Game`, whose fields are the game's
  top-level variables (lines 5-28). Its methods are the event handlers and
  world-building functions.
  - Each method that changes the registries is proved equal to a pure
    function on `WorldState`: `Register`, `Destroy`, `Collect`, `Eat`,
    `MouseDown`, `Respawn`, `PlantFruits` and `Tree`.
  - Each method that changes the player's state is proved equal to a function
    of the Physics or Input module.
  - Every method keeps the invariant `Valid()`:
    - every listed handle names a known object;
    - no handle is listed twice;
    - fruit handles name fruits;
    - handles in use are below the handle counter;
    - the held fruit is never a world object;
    - the vertical state is consistent (a jump is armed exactly when none is
      under way, an armed jump means standing still at rest height, and below
      rest height the player is falling).

The engine is outside the model:
- A scene object is a natural-number handle. The properties the game reads off
  it (`isFruit`, `isCollectable`, `position`) live in a map `entities`.
- The ray cast of `checkIntersection` is a parameter of `OnMouseDown`: the
  objects under the crosshair, nearest first, all of them listed in `objects`.
- The camera-relative moves `controls.moveRight` / `controls.moveForward` are
  recorded in `moves` as the pair of arguments passed.
- The respawn timers all share one delay. They are a first-in first-out queue
  of positions, `pendingRespawns`, and `FireRespawn` is the oldest timer
  firing.
- The pointer lock is the boolean `locked`, set by `Lock` and cleared by
  `Unlock`.

Observations on the code as written, which the model keeps as they are:
- A left click breaks the nearest object whatever it is. When it is a fruit,
  the handle leaves `objects` but stays in `fruits`, and it is never scheduled
  to grow back.
- `collectFruit` with a fruit already in hand still removes the fruit and
  schedules its respawn. Only the new hand item is skipped. In play this path
  is not reached: with a full hand the right click eats instead (lines
  285-288), and line 294 is the only call of `collectFruit`.
- The forward key sets the forward velocity to -0.1 and passes that to
  `controls.moveForward`. Under the three.js convention that a positive
  distance moves along the view direction, W walks backward and S forward.
  This cannot be shown inside the model, because the controls library is not
  part of it. The model records the arguments exactly as passed.

## Model

| member | source | states |
|---|---|---|
| Registry.IndexOf | app.js:195-196 | the index `indexOf` returns is -1 exactly when the handle is absent; otherwise it holds the handle and no earlier index does |
| Registry.RemoveFirstCounts | app.js:195-202 | cutting out the first occurrence removes exactly one copy when the handle is listed (the length drops by one and the multiset loses one copy) and leaves the list unchanged when it is not |
| Registry.FirstOccurrenceUnique | app.js:311-312 | any index holding the first occurrence is the one `indexOf` finds |
| Registry.RemoveFirstShifts | app.js:311-314 | the splice keeps the order of the other handles: the ones before the cut stay in place, the ones after it move one place forward |
| Registry.RemoveFirstSubset | app.js:311-314 | the splice never introduces a handle, and every handle other than the removed one keeps its membership |
| Registry.RemoveFirstDistinct | app.js:311-314 | in a list without duplicates the handle is gone after one removal, a second removal changes nothing, and the list stays duplicate-free |
| Registry.RemoveFirstUndoesAppend | app.js:174-175 | removing a handle just pushed onto a list that did not hold it restores the list |
| Registry.AppendFreshDistinct | app.js:174-175 | pushing a handle that is not listed keeps the list duplicate-free |
| Physics.LandingTime | app.js:397-405 | every state reaches the clamp branch after a finite number of frames (the function is total, and its result is a frame count at which the clamp branch applies) |
| Physics.GravityCases | app.js:397-405 | a frame at or below rest height and not rising lands at rest with the jump re-armed; otherwise the speed drops by GRAVITY, the height moves by the new speed, and the flags are kept |
| Physics.ConsistentPreserved | app.js:359-405 | a frame and a jump both keep the vertical state consistent |
| Physics.BelowRestLandsNext | app.js:397-405 | from any consistent state below rest height the next frame is at rest |
| Physics.JumpOnlyWhenArmed | app.js:359-365 | Space gives the JUMP_FORCE impulse and marks the jump under way only when it is armed; during a jump it changes nothing |
| Physics.RunLast | app.js:392-405 | running n+1 frames is running n frames and then one more |
| Physics.LandingTimeIsFirst | app.js:397-405 | no frame before the landing time takes the clamp branch |
| Physics.ComesToRest | app.js:397-405 | from any state the player is at rest, jump re-armed, from one frame after the landing time on |
| Physics.JumpFromRest | app.js:18-20 | with the game's constants a jump from rest rises to 3.75 units, is in the air for 10 frames, and is at rest again on the 11th |
| Physics.AxisVelocity | app.js:407-413 | each horizontal component is one of -0.1, 0 and 0.1: 0.1 exactly when the positive key (backward, right) is held, -0.1 exactly when only the negative one is held, and 0 when neither is held |
| Input.Bindings | app.js:341-366 | each movement intent is bound to exactly its arrow key and its letter key, the jump to exactly Space, and every other code to nothing |
| Input.PressAndReleaseTouchOneIntent | app.js:341-389 | a key down sets exactly its own movement flag, a key up clears exactly that flag, other flags keep their values, and Space and unbound keys change no flag |
| Input.ReleaseUndoesPress | app.js:341-389 | key down then key up leaves the flags as key up alone would, so a flag that was clear is clear again |
| Game.RegisterKeepsWellFormed | app.js:166-177 | a new object takes an unused handle, is appended to the end of each list it joins, and leaves every existing entry and object unchanged; the registries stay well formed |
| Game.DestroyUndoesRegister | app.js:308-315 | breaking a block just placed restores the registry |
| Game.DestroyKeepsWellFormed | app.js:308-315 | breaking removes exactly one copy of the target, and the target is gone for good (a second break changes nothing); every other object stays a target; breaking an absent target changes nothing; the registries stay well formed |
| Game.UnlistFruitKeepsWellFormed | app.js:199-202 | cutting a handle out of the fruit list keeps the registries well formed and keeps the other fruits listed |
| Game.CollectKeepsWellFormed | app.js:192-215 | picking a ready fruit removes exactly one copy from each list; the hand is full afterwards, and a fruit already in hand stays; exactly the fruit's position joins the end of the respawn queue; no object changes; a fruit that is not ready changes nothing |
| Game.EatKeepsWellFormed | app.js:228-234 | eating empties the hand, never touches either list, and does nothing with an empty hand |
| Game.MouseDownNoOps | app.js:272-299 | clicks change nothing while the pointer is free, with buttons other than left and right, on a left click on nothing, and on a right click with an empty hand on nothing or on something that is not a ready fruit |
| Game.MouseDownKeepsWellFormed | app.js:272-299 | a click keeps the registries well formed and changes no object; no handle but the nearest hit changes its membership in either list; a left click on something removes the nearest hit |
| Game.RightClickAlternatesHand | app.js:283-297 | with a fruit in hand a right click is exactly `Eat`, even when a fruit is under the crosshair; with an empty hand a right click on a ready fruit picks it |
| Game.RespawnKeepsWellFormed | app.js:210-213 | a fruit growing back keeps the registries well formed |
| Game.CollectThenRespawn | app.js:192-213 | a fruit picked with nothing else waiting grows back as a new collectable fruit at the same position; the number of fruits is restored and the queue is empty |
| Game.PlantFruitsLists | app.js:180-189 | hanging fruit appends consecutive fresh handles to both the registry and the fruit list and leaves the hand and the respawn queue alone |
| Game.PlantFruitsKeepsWellFormed | app.js:180-189 | hanging fruit keeps the registries well formed |
| Game.PlantFruitsEntities | app.js:180-189 | hanging fruit changes no existing object, and each new handle holds a fruit at the canopy centre moved by its offset |
| Game.TreeLists | app.js:122-141 | a tree appends trunk, leaves and fruits to the registry in that order under consecutive fresh handles, and only the fruits to the fruit list |
| Game.TreeKeepsWellFormed | app.js:122-141 | planting a tree keeps the registries well formed |
| Game.TreeEntities | app.js:122-141 | the trunk stands at height 2 and the leaves at height 5 above (x, z), the fruits hang around the leaves, and no existing object changes |
| Game.Game.constructor | app.js:5-28 | the initial state: pointer free, no intents, standing at rest with the jump armed, empty hand, empty registries |
| Game.Game.Lock | app.js:243-246 | the start button captures the pointer |
| Game.Game.Unlock | app.js:256-259 | releasing the pointer clears the lock |
| Game.Game.AddBlock | app.js:97-100 | a placed block is registered as the newest target under a fresh handle |
| Game.Game.CreateFruit | app.js:166-177 | the new state is `Register` of the old with a collectable fruit, so the fruit ends both lists; the registries stay well formed |
| Game.Game.AddFruitsToTree | app.js:180-189 | the loop's final state is `PlantFruits` of the initial one |
| Game.Game.CreateTree | app.js:122-141 | the new state is `Tree` of the old one |
| Game.Game.DestroyBlock | app.js:308-315 | the new state is `Destroy` of the old: only `objects` changes |
| Game.Game.UnlistObject | app.js:195-198 | `indexOf` then `splice` on the registry gives `RemoveFirst` |
| Game.Game.UnlistFruit | app.js:199-202 | `indexOf` then `splice` on the fruit list gives `RemoveFirst` |
| Game.Game.FillHand | app.js:204-207 | an empty hand gets a fresh handle; a full hand keeps its fruit |
| Game.Game.QueueRespawn | app.js:210-213 | starting a timer appends the position to the respawn queue |
| Game.Game.CollectFruit | app.js:192-215 | the new state is `Collect` of the old one |
| Game.Game.EatFruit | app.js:228-234 | the new state is `Eat` of the old one |
| Game.Game.OnMouseDown | app.js:272-299 | the new state is `MouseDown` of the old one, given the lock state, button and hits |
| Game.Game.OnKeyDown | app.js:341-367 | the intents become `Pressed` of the old intents for the key's control; the vertical state becomes `Jump` of the old one for Space and is otherwise unchanged |
| Game.Game.StartJump | app.js:359-365 | the vertical state becomes `Jump` of the old one |
| Game.Game.Press | app.js:342-358 | the intents become `Pressed` of the old ones |
| Game.Game.OnKeyUp | app.js:370-389 | the intents become `Released` of the old intents for the key's control; nothing else changes |
| Game.Game.UpdateMovement | app.js:392-418 | without the pointer nothing changes; with it, the vertical state becomes `Gravity` of the old one, the velocity is `AxisVelocity` of the held keys, and one move is recorded |
| Game.Game.ApplyGravity | app.js:397-405 | the vertical state becomes `Gravity` of the old one, and it stays consistent |
| Game.Game.ApplyIntents | app.js:407-416 | the horizontal velocity is `AxisVelocity` of the held keys, and exactly that move is recorded |
| Game.Game.FireRespawn | app.js:210-213 | the new state is `Respawn` of the old one: the oldest queued position grows a new collectable fruit, appended to both lists |

## Left out

- Scene, camera, renderer, lights, the resize handler and the animation loop
  (`init`, `animate`; lines 31-83 and 421-444): rendering only.
- The ground loop (`createGround`, lines 86-103): a fixed 200 by 200 grid of
  `AddBlock(Pos(x, -0.5, z))` calls for whole x and z in [-100, 100), left out
  for its size (40,000 blocks).
- The cube loop (`createCubes`, lines 106-119) and the thirty-tree loop
  (`createTrees`, lines 144-151): they only repeat `AddBlock` and `CreateTree`
  at `Math.random` positions, and those draws are parameters. `AddFruitsToTree` and `CreateTree` take the fruit offsets as a
  list, and their precondition restricts it to the range the source draws
  from: 3 to 5 fruits, each component in [-1, 1).
- The ray math of `checkIntersection` (lines 302-305): the hits are an input
  whose elements are listed objects.
- The camera-relative trigonometry of `controls.moveRight` and
  `controls.moveForward` (lines 415-416): the model records their arguments.
- `playArmAnimation` (lines 318-338) and `createArm`: timing, trigonometry and
  animation frames.
- The held fruit's mesh (`createHeldFruit`, lines 218-225): the model gives it
  a fresh handle that never becomes a world object.
- The 30-second delay of the respawn timers (line 28): timers are a queue in
  firing order, not wall-clock time.
- Hover highlighting (`currentIntersected`), the start-screen DOM toggling,
  console logging and the try/catch shells (lines 237-269): interface plumbing.
- Floating point: the physics constants are exact scaled integers, and
  positions are exact reals, so the rounding of JavaScript doubles is not
  modelled.
