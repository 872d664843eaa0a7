# jsettlers map objects and texture map, in Dafny

This project models two parts of the jsettlers game.

**The map-object manager (`MapObjectsManager`).** It places objects such as trees,
corn, stones, arrows, building marks and material stacks on a grid of tiles.

- **Footprints.** Each object blocks the tiles of its footprint, a list of
  offsets from its anchor tile. Placement is all or nothing: every footprint
  tile must exist and be unblocked. A placed object blocks its footprint, and
  removing it unblocks the footprint again.
- **Slots.** A tile holds at most one object per object type.
- **The timing queue.** Events are ordered by their time in milliseconds.
  Every tick (`timerEvent`) polls each event whose time lies strictly before
  the game time. A polled event either removes its object or advances the
  object's state.
- **Lifecycles.** Planting, cutting and placing objects schedule these events:
  growth, decomposition and removal of trees and corn, the cut-off stone, the
  arrow's hit and decay, and self-deleting objects.
- **Material stacks.** Each tile carries at most one stack of one material. A
  push adds a unit unless the stack is full. A pop takes a unit unless it is
  empty, and removes the stack when it becomes empty.

**The texture map (`TextureMap.getIndex`).** It finds an image name in a
constant table with `Arrays.binarySearch` and returns the paired texture
index. An unknown name is an `IllegalArgumentException`.

Files:

- `java_ints.dfy` (module `JavaInts`): Java `int` wrap-around and the `(short)` cast.
- `map_objects.dfy` (module `MapObjects`): the data model and the pure
  specification of placement, removal, the blocking loop and the stacks, and
  the invariant `WellFormed`. Java object identity is an arena: `objects`
  maps an identifier to the object's current state, and a tile's slots hold
  identifiers.
- `timing_queue.dfy` (module `TimingQueue`): `TimeEvent`, its order, insertion
  into the queue, the number of events a tick fires, what firing a sequence
  of events does, and the corn schedule.
- `objects_manager.dfy` (module `ObjectsManager`): the class
  `MapObjectsManager`. Its fields are the grid, the object arena and the
  timing queue. Each method is proved against the specification functions.
  `Valid()` means the objects are well formed and the queue is sorted,
  fireable and within Java `int` range. Every public operation of the Java
  class keeps it: `RemoveMapObject` and `RemoveMapObjectType` keep it
  whenever it held before, since `PopMaterial` calls `RemoveMapObject`
  halfway through its own update, and the other public operations require
  and ensure it. The internal steps `SetBlockedForObject`, `AddMapObject`,
  `PaintEarth` and `Fire` are proved against their specification functions
  only, and their callers re-establish `Valid()`.
- `texture_map.dfy` (module `TextureMap`): `String.compareTo`,
  `Arrays.binarySearch`, `getIndex`, and a linear reference lookup that
  `getIndex` is proved to agree with.

Quirks of the Java code that the model keeps as written:

- `cutStone` takes the exhausted stone off its tile with the tile's own
  `removeMapObjectType`, not the manager's. The stone's footprint therefore
  stays blocked (`CutStoneKeepsTilesBlocked`).
- `plantTree` and `addSelfDeletingMapObject` queue their event even when the
  placement fails, and `plantTree` always reports success.
- `pushMaterial` stores a new stack without the blocking check and without
  blocking its footprint. `popMaterial` removes an emptied stack through
  `removeMapObject`, which unblocks that footprint. This is why
  `PopUndoesPush` assumes the stack's footprint was free.
- Stale events are not cancelled. A removal event for an object that is
  already gone changes nothing. A stale state event still advances the
  object's state.
- `TimeEvent.compareTo` subtracts two `int`s. It orders by time only while
  the difference fits in an `int`, which holds for all non-negative event
  times (`CompareToOrdersByTime`). Outside that range it wraps
  (`CompareToWrapsForDistantTimes`).
- An event time is `(int) (gameTime + duration * 1000)`. Java's cast of a too
  large floating-point value saturates, so event times are clamped at
  `INT_MAX` (`EventTime`).

## Model

| member | source | states |
|---|---|---|
| JavaInts.WrapInt | jsettlers.logic.objects/jsettlers/logic/objects/MapObjectsManager.java:251-253 | the result is a Java int and differs from the input by a multiple of 2^32, and is the input itself when that is already an int |
| JavaInts.ToShort | jsettlers.logic.objects/jsettlers/logic/objects/MapObjectsManager.java:91 | the `(short)` cast: the result is a Java short congruent to the input modulo 2^16, and is the input itself when that is already a short |
| MapObjects.UpdateCovered | jsettlers.logic.objects/jsettlers/logic/objects/MapObjectsManager.java:185-192 | every in-range tile designated by the footprint gets the update, every other tile is unchanged, and no tile is added or dropped |
| MapObjects.UpdateCoveredStep | jsettlers.logic.objects/jsettlers/logic/objects/MapObjectsManager.java:186-191 | one more footprint offset updates exactly one more tile, if it is in range |
| MapObjects.Attach | jsettlers.logic.objects/jsettlers/logic/objects/MapObjectsManager.java:162 | tile.addMapObject: the anchor tile stores the object under the type, and its flags, its other slots and every other tile stay as they were |
| MapObjects.Detach | jsettlers.logic.objects/jsettlers/logic/objects/MapObjectsManager.java:97 | tile.removeMapObjectType: the type's slot is emptied, and the tile's flags, its other slots and every other tile stay as they were |
| MapObjects.AfterAdd | jsettlers.logic.objects/jsettlers/logic/objects/MapObjectsManager.java:154-166 | if a footprint tile is missing or blocked, nothing changes; otherwise the anchor tile stores the object under its type, every footprint tile is blocked, and nothing else changes |
| MapObjects.AfterRemove | jsettlers.logic.objects/jsettlers/logic/objects/MapObjectsManager.java:177-183 | if the anchor tile does not hold the object, nothing changes; otherwise its slot is emptied, its footprint unblocked, and nothing else changes |
| MapObjects.AfterRemoveType | jsettlers.logic.objects/jsettlers/logic/objects/MapObjectsManager.java:168-175 | with no object of that type on the tile, nothing changes; otherwise the slot is emptied and the stored object's footprint unblocked |
| MapObjects.RemoveUndoesAdd | jsettlers.logic.objects/jsettlers/logic/objects/MapObjectsManager.java:154-183 | placing an object on a free footprint and then removing it gives back exactly the grid before |
| MapObjects.RemoveIsIdempotent | jsettlers.logic.objects/jsettlers/logic/objects/MapObjectsManager.java:177-183 | a second removal of the same object changes nothing, so a stale removal event is harmless |
| MapObjects.RemoveTypeIsRemove | jsettlers.logic.objects/jsettlers/logic/objects/MapObjectsManager.java:168-183 | removing by the type an object is stored under is the same as removing that object |
| MapObjects.UnblockFreeIsIdentity | jsettlers.logic.objects/jsettlers/logic/objects/MapObjectsManager.java:185-192 | unblocking a footprint whose tiles are already unblocked changes nothing |
| MapObjects.AddKeepsWellFormed | jsettlers.logic.objects/jsettlers/logic/objects/MapObjectsManager.java:154-166 | placing an object at its own position keeps tiles and objects consistent |
| MapObjects.RemoveKeepsWellFormed | jsettlers.logic.objects/jsettlers/logic/objects/MapObjectsManager.java:177-183 | removing an object keeps tiles and objects consistent |
| MapObjects.RemoveTypeKeepsWellFormed | jsettlers.logic.objects/jsettlers/logic/objects/MapObjectsManager.java:168-175 | removing by type keeps tiles and objects consistent |
| MapObjects.AfterPush | jsettlers.logic.objects/jsettlers/logic/objects/MapObjectsManager.java:277-291 | succeeds exactly when canPush holds; on failure nothing changes; on success the tile's stack has that material and one more unit, either a new stack of one unit under a fresh identifier or the old stack incremented, while no blocked flag, no other slot, no other tile and no other object changes |
| MapObjects.AfterPop | jsettlers.logic.objects/jsettlers/logic/objects/MapObjectsManager.java:293-309 | succeeds exactly when canPop holds; on failure nothing changes; on success the stack keeps its material with one unit less and no other object changes; the grid is unchanged unless that was the last unit, in which case the stack leaves its tile and its footprint is unblocked, as removeMapObject does |
| MapObjects.PushKeepsWellFormed | jsettlers.logic.objects/jsettlers/logic/objects/MapObjectsManager.java:277-291 | a push never takes a stack past its capacity and keeps tiles and objects consistent |
| MapObjects.PopKeepsWellFormed | jsettlers.logic.objects/jsettlers/logic/objects/MapObjectsManager.java:293-309 | a pop never leaves an empty stack on a tile and keeps tiles and objects consistent |
| MapObjects.PopUndoesPush | jsettlers.logic.objects/jsettlers/logic/objects/MapObjectsManager.java:277-309 | after a successful push a pop of the same material succeeds, and it gives back the grid and every object that existed before |
| TimingQueue.EventTime | jsettlers.logic.objects/jsettlers/logic/objects/MapObjectsManager.java:235 | the event time is the clock plus the duration, saturated at INT_MAX, and never before the clock |
| TimingQueue.EventTimeMonotone | jsettlers.logic.objects/jsettlers/logic/objects/MapObjectsManager.java:235 | a longer duration never gives an earlier event |
| TimingQueue.CompareToOrdersByTime | jsettlers.logic.objects/jsettlers/logic/objects/MapObjectsManager.java:250-253 | for non-negative int times, the sign of TimingQueue.CompareTo is the order of the event times, in all three cases both ways |
| TimingQueue.CompareToWrapsForDistantTimes | jsettlers.logic.objects/jsettlers/logic/objects/MapObjectsManager.java:250-253 | outside that range the subtraction wraps: an event at INT_MAX compares below an event at -1 |
| TimingQueue.Enqueue | jsettlers.logic.objects/jsettlers/logic/objects/MapObjectsManager.java:35 | offer keeps the queue sorted by time and adds exactly the new event |
| TimingQueue.DueCount | jsettlers.logic.objects/jsettlers/logic/objects/MapObjectsManager.java:47-57 | the events a tick polls: every one of them is outdated, and the next one, if any, is not |
| TimingQueue.LeftEventsAreNotDue | jsettlers.logic.objects/jsettlers/logic/objects/MapObjectsManager.java:43-59 | on a sorted queue, every event a tick leaves behind is due at or after the game time |
| TimingQueue.SecondTickFiresNothing | jsettlers.logic.objects/jsettlers/logic/objects/MapObjectsManager.java:43-59 | a second tick at the same game time fires nothing |
| TimingQueue.DueCountMonotone | jsettlers.logic.objects/jsettlers/logic/objects/MapObjectsManager.java:238-240 | a later tick fires at least as many events as an earlier one |
| TimingQueue.FiresOneTickLate | jsettlers.logic.objects/jsettlers/logic/objects/MapObjectsManager.java:238-240 | TimingQueue.IsOutDated is strict: an event is not fired at its own time and is fired one millisecond later |
| TimingQueue.AfterFire | jsettlers.logic.objects/jsettlers/logic/objects/MapObjectsManager.java:49-54 | a removal event touches no object; if the object's tile still holds it, its slot is emptied and its footprint unblocked with every other slot and flag unchanged, and a stale removal leaves the grid as it was; any other event advances its object's state counter once, changes nothing else about that object or any other, and leaves the grid alone |
| TimingQueue.FireKeepsWellFormed | jsettlers.logic.objects/jsettlers/logic/objects/MapObjectsManager.java:49-54 | firing an event keeps tiles and objects consistent |
| TimingQueue.CornEvents | jsettlers.logic.objects/jsettlers/logic/objects/MapObjectsManager.java:116-118 | plantCorn's three events all concern the corn, only the last is a removal, and their times are in order, never before the clock and within int range |
| TimingQueue.AfterFireAll | jsettlers.logic.objects/jsettlers/logic/objects/MapObjectsManager.java:48-57 | firing a sequence of events never creates or drops an object and never changes any object's type, position, footprint or contents |
| TimingQueue.FireAllCountsStateEvents | jsettlers.logic.objects/jsettlers/logic/objects/MapObjectsManager.java:48-57 | each event is consumed once: an object's state advances exactly once per state event for it |
| TimingQueue.StateEventsKeepGrid | jsettlers.logic.objects/jsettlers/logic/objects/MapObjectsManager.java:50-54 | events that are not removals never touch the grid |
| TimingQueue.FireAllSnoc | jsettlers.logic.objects/jsettlers/logic/objects/MapObjectsManager.java:48-57 | polling one more event extends the fired prefix by exactly that event |
| TimingQueue.DueCountStep | jsettlers.logic.objects/jsettlers/logic/objects/MapObjectsManager.java:48 | the loop goes on exactly while the head is outdated, and stops at the due count |
| TimingQueue.CornEventsContents | jsettlers.logic.objects/jsettlers/logic/objects/MapObjectsManager.java:116-118 | plantCorn's schedule is exactly growth and decomposition state events and one removal event, at the cumulative times |
| TimingQueue.CornEventsFireAtBoundaries | jsettlers.logic.objects/jsettlers/logic/objects/MapObjectsManager.java:116-118 | the corn schedule is sorted, and a tick fires exactly the corn events whose time lies strictly behind it |
| TimingQueue.CornLifecycle | jsettlers.logic.objects/jsettlers/logic/objects/MapObjectsManager.java:108-120 | a planted corn stays on its tile through its first two events, advancing its state twice, and is gone with its footprint unblocked after the third |
| TimingQueue.CornGrowthStages | jsettlers.logic.objects/jsettlers/logic/objects/MapObjectsManager.java:116-117 | the growth and decomposition events advance the corn's state twice and leave the grid alone |
| TimingQueue.EnqueueKeepsQueueValid | jsettlers.logic.objects/jsettlers/logic/objects/MapObjectsManager.java:35 | adding an event for an existing object at a valid time keeps the queue sorted and fireable |
| ObjectsManager.TreeTile | jsettlers.logic.objects/jsettlers/logic/objects/MapObjectsManager.java:135 | the tile cutTree looks at is a pair of shorts, one left and one up whenever that fits in a short |
| ObjectsManager.StoneTile | jsettlers.logic.objects/jsettlers/logic/objects/MapObjectsManager.java:91 | the tile cutStone looks at is a pair of shorts, two left and one up whenever that fits in a short |
| ObjectsManager.TreePlantPos | jsettlers.logic.objects/jsettlers/logic/objects/MapObjectsManager.java:76 | PLANTABLE_TREE plants in the same column, one down whenever that fits in a short |
| ObjectsManager.MapObjectsManager.Offer | jsettlers.logic.objects/jsettlers/logic/objects/MapObjectsManager.java:104 | timingQueue.offer: the queue becomes the ordered insertion of the event, and stays valid |
| ObjectsManager.MapObjectsManager.constructor | jsettlers.logic.objects/jsettlers/logic/objects/MapObjectsManager.java:37-40 | a new manager has an empty timing queue over the given grid and objects |
| ObjectsManager.MapObjectsManager.SetBlockedForObject | jsettlers.logic.objects/jsettlers/logic/objects/MapObjectsManager.java:185-192 | the loop sets the blocked flag of every in-range footprint tile and changes nothing else |
| ObjectsManager.MapObjectsManager.AddMapObject | jsettlers.logic.objects/jsettlers/logic/objects/MapObjectsManager.java:154-166 | returns whether the footprint was free, and the grid becomes the all-or-nothing placement |
| ObjectsManager.MapObjectsManager.RemoveMapObject | jsettlers.logic.objects/jsettlers/logic/objects/MapObjectsManager.java:177-183 | the grid becomes the removal of the object, a no-op when the tile does not hold it; a valid manager stays valid |
| ObjectsManager.MapObjectsManager.RemoveMapObjectType | jsettlers.logic.objects/jsettlers/logic/objects/MapObjectsManager.java:168-175 | the grid becomes the removal by type; a valid manager stays valid |
| ObjectsManager.MapObjectsManager.TimerEvent | jsettlers.logic.objects/jsettlers/logic/objects/MapObjectsManager.java:43-59 | polls exactly the due prefix of the queue, fires it in order, leaves the rest of the queue untouched, and leaves no event earlier than the game time |
| ObjectsManager.MapObjectsManager.PollAndFire | jsettlers.logic.objects/jsettlers/logic/objects/MapObjectsManager.java:49-54 | one loop pass: the head is polled and fired |
| ObjectsManager.MapObjectsManager.Fire | jsettlers.logic.objects/jsettlers/logic/objects/MapObjectsManager.java:50-54 | removes the event's object or advances its state, as the event says |
| ObjectsManager.MapObjectsManager.ExecuteSearchType | jsettlers.logic.objects/jsettlers/logic/objects/MapObjectsManager.java:66-88 | each handled type has its operation's full effect at its own tile: CUTTABLE_TREE cuts at TreeTile(pos), CUTTABLE_STONE at StoneTile(pos), PLANTABLE_TREE plants at TreePlantPos(pos), and the corn cases act at pos, each with the events it queues; cutting a tree or corn reports whether the tile existed and cutOff succeeded, cutting a stone and planting always report success, and an unknown type reports failure and changes nothing |
| ObjectsManager.MapObjectsManager.PlantTree | jsettlers.logic.objects/jsettlers/logic/objects/MapObjectsManager.java:101-106 | creates a growing tree, places it if it fits, queues exactly one growth state event whether or not it fits, and reports success |
| ObjectsManager.MapObjectsManager.PaintEarth | jsettlers.logic.objects/jsettlers/logic/objects/MapObjectsManager.java:109-113 | the anchor and every in-range neighbour become earth, and nothing else changes |
| ObjectsManager.MapObjectsManager.PlantCorn | jsettlers.logic.objects/jsettlers/logic/objects/MapObjectsManager.java:108-120 | paints the area, places the growing corn, and adds exactly the three corn events to the still sorted queue |
| ObjectsManager.MapObjectsManager.CutCorn | jsettlers.logic.objects/jsettlers/logic/objects/MapObjectsManager.java:122-132 | with no tile, fails and changes nothing; otherwise cuts the corn and queues one removal event exactly when cutOff succeeded, and returns that result |
| ObjectsManager.MapObjectsManager.CutTree | jsettlers.logic.objects/jsettlers/logic/objects/MapObjectsManager.java:134-144 | the same for the tree one tile left and up |
| ObjectsManager.MapObjectsManager.CutStone | jsettlers.logic.objects/jsettlers/logic/objects/MapObjectsManager.java:90-99 | cuts the stone; once it cannot be cut any more, places a self-deleting cut-off stone with its removal event and takes the stone off its tile without unblocking |
| ObjectsManager.CutStoneKeepsTilesBlocked | jsettlers.logic.objects/jsettlers/logic/objects/MapObjectsManager.java:96-97 | after cutStone's last cut the stone is gone from its tile, yet every tile that was blocked stays blocked |
| ObjectsManager.MapObjectsManager.AddSelfDeletingMapObject | jsettlers.logic.objects/jsettlers/logic/objects/MapObjectsManager.java:213-217 | places the object if it fits, and queues its removal after the duration whether or not it fits |
| ObjectsManager.MapObjectsManager.AddArrowObject | jsettlers.logic.objects/jsettlers/logic/objects/MapObjectsManager.java:198-203 | places the arrow on its target if it fits, and queues a state event after `endTime` and a removal event after `endTime` plus its decay delay |
| ObjectsManager.MapObjectsManager.AddStone | jsettlers.logic.objects/jsettlers/logic/objects/MapObjectsManager.java:194-196 | places a stone of the given capacity if it fits, and queues nothing |
| ObjectsManager.MapObjectsManager.AddSimpleMapObject | jsettlers.logic.objects/jsettlers/logic/objects/MapObjectsManager.java:205-207 | places a standard object, blocking its own tile only when asked, and queues nothing |
| ObjectsManager.MapObjectsManager.AddBuildingWorkAreaObject | jsettlers.logic.objects/jsettlers/logic/objects/MapObjectsManager.java:209-211 | places a work-area mark if it fits, and queues nothing |
| ObjectsManager.MapObjectsManager.AddBuildingTo | jsettlers.logic.objects/jsettlers/logic/objects/MapObjectsManager.java:317-319 | places the building if its footprint is free, and queues nothing |
| ObjectsManager.MapObjectsManager.SetConstructionMarking | jsettlers.logic.objects/jsettlers/logic/objects/MapObjectsManager.java:257-269 | a negative value removes the mark by type; otherwise an existing mark takes the value, or a new mark with the value is placed |
| ObjectsManager.MapObjectsManager.CanPush | jsettlers.logic.objects/jsettlers/logic/objects/MapObjectsManager.java:271-275 | true exactly when the tile has no stack, or one of that material below capacity; changes nothing |
| ObjectsManager.MapObjectsManager.CanPop | jsettlers.logic.objects/jsettlers/logic/objects/MapObjectsManager.java:311-315 | true exactly when the tile has a non-empty stack of that material; changes nothing |
| ObjectsManager.MapObjectsManager.PushMaterial | jsettlers.logic.objects/jsettlers/logic/objects/MapObjectsManager.java:277-291 | returns canPush, and the state becomes the push |
| ObjectsManager.MapObjectsManager.PopMaterial | jsettlers.logic.objects/jsettlers/logic/objects/MapObjectsManager.java:293-309 | returns canPop, and the state becomes the pop, which removes an emptied stack |
| TextureMap.CompareZeroIffEqual | jsettlers.common/src/jsettlers/common/images/TextureMap.java:10 | TextureMap.JavaCompare, String.compareTo, is zero exactly for equal strings |
| TextureMap.CompareAntisymmetric | jsettlers.common/src/jsettlers/common/images/TextureMap.java:10 | swapping the operands of String.compareTo negates the result |
| TextureMap.CompareTransitive | jsettlers.common/src/jsettlers/common/images/TextureMap.java:10 | String.compareTo order is transitive |
| TextureMap.NamesStrictlyAscending | jsettlers.common/src/jsettlers/common/images/TextureMap.java:17-27 | the names table is strictly ascending in String.compareTo order, as Arrays.binarySearch requires |
| TextureMap.BinarySearch | jsettlers.common/src/jsettlers/common/images/TextureMap.java:10 | returns a position holding the key, or -(insertion point + 1) when no position in range holds it, where every entry before the insertion point compares below the key and every entry from it on compares above |
| TextureMap.GetIndex | jsettlers.common/src/jsettlers/common/images/TextureMap.java:9-15 | succeeds exactly for names in the table, with the index paired with the name; an unknown name is an error with the exception's message |
| TextureMap.GetIndexIsLinearLookup | jsettlers.common/src/jsettlers/common/images/TextureMap.java:9-15 | for every name, getIndex agrees with a linear scan of the paired tables |
| TextureMap.LinearLookupFinds | jsettlers.common/src/jsettlers/common/images/TextureMap.java:14 | in a table without duplicates the scan answers the partner of the name's position |
| TextureMap.LinearLookupMisses | jsettlers.common/src/jsettlers/common/images/TextureMap.java:11-13 | the scan fails exactly for names not in the table |
| TextureMap.GetIndexInRange | jsettlers.common/src/jsettlers/common/images/TextureMap.java:17-38 | the two tables have equal length, and every returned index lies in 0..8 |

## Left out

- `jsettlers.main/jsettlers/main/ManagedJSettlers.java`, `PlaceTemplateTool.java` and
  `TimeSyncSenderTimerTask.java` are not part of this model. They are user
  interface, editor and network code.
- Timer registration (`Timer100Milli.add`, `Timer100Milli.remove`, `kill`) is
  thread plumbing and is left out.
- The game clock `NetworkTimer.getGameTime()` is the parameter `now` or
  `gameTime`. The results of the object classes' `cutOff()` and `canBeCut()`
  are boolean parameters.
- An object keeps the type it was created with, since `changeState()` is
  a counter. A planted tree stays under `TreeGrowing` and a planted corn
  under `CornGrowing`, while ObjectsManager.MapObjectsManager.CutTree and
  ObjectsManager.MapObjectsManager.CutCorn look up `TreeAdult` and
  `CornAdult`. So the model cannot follow one tree or corn from planting to
  cutting. Growth moving an object to its adult slot happens inside the
  object classes, which are not part of this model.
- ObjectsManager.StandardTiles: `StandardMapObject.getBlockedTiles` is not
  part of this model. Its footprint is assumed to be the anchor tile when
  the object blocks, and empty otherwise.
- TextureMap.JavaCompare compares Unicode scalar values, whereas
  `String.compareTo` compares UTF-16 code units. The two orders differ only
  for supplementary characters, which the `names` table does not contain.
- The object classes' internals are left out: `Tree`, `Corn`, `Stone`,
  `ArrowObject`, `SelfDeletingMapObject`, `StackMapObject`. `changeState()`
  is a counter of calls, and `cutOff()` is a counter too. An object keeps the
  type it was created with. Footprints, durations, the stack capacity and
  the neighbour offsets are given constants (a `Catalog`), since their values
  are not in the Java code.
- TimingQueue.EventTime: durations are whole milliseconds, and the sum is
  exact. In the Java code `duration` is a `float`, so the whole sum
  `gameTime + duration * 1000` is computed in `float` before the saturating
  cast. Once the game time passes 2^24 ms (about 4.7 hours) the clock itself
  is rounded to `float` precision. The Java event time can then differ from
  clock + duration and can even fall before the clock: game time 16 777 217
  with duration 0 gives 16 777 216. EventTime's `t == now + durationMs` and
  `now <= t` match the Java code only for game times below 2^24 ms.
- The arrow's `strength` and shooter position, and the work area's
  `progress`, are not modelled. They do not affect what the manager does.
- MapObjects.Attach: a tile's object list is modelled as one slot per object
  type. A second object of the same type replaces the first in the slot,
  where the tile's own list might keep both.
- TimingQueue.Enqueue: `PriorityQueue` may order events with equal times
  either way. The model puts a new event after the events with equal times,
  which is one of the orders it may produce.
- The `System.err` message for an unknown search type is left out; only the
  `false` result is modelled.
- ObjectsManager.MapObjectsManager.CutCorn,
  ObjectsManager.MapObjectsManager.CutTree and
  ObjectsManager.MapObjectsManager.CutStone require that the object they
  look up is present. The Java code dereferences it without a null check, so a
  missing object is a `NullPointerException` there.
- ObjectsManager.MapObjectsManager.PushMaterial,
  ObjectsManager.MapObjectsManager.PopMaterial,
  ObjectsManager.MapObjectsManager.CanPush and
  ObjectsManager.MapObjectsManager.CanPop require the tile to exist and its
  stack slot to hold a material stack. These are what the Java code's tile
  lookup and cast assume.
- ObjectsManager.MapObjectsManager.SetConstructionMarking requires the tile
  to exist, for the same reason. It also requires that a stored
  construction mark is a `ConstructionMarkObject`, which is the cast at
  line 260 of MapObjectsManager.java.
- ObjectsManager.MapObjectsManager.AddMapObject and MapObjects.AfterAdd
  require the anchor tile to exist whenever the footprint is free. The
  `getTile(pos).addMapObject` at line 162 would throw otherwise. The same
  requires sits on ObjectsManager.MapObjectsManager.Place,
  ObjectsManager.MapObjectsManager.PlantTree,
  ObjectsManager.MapObjectsManager.AddStone,
  ObjectsManager.MapObjectsManager.AddSimpleMapObject,
  ObjectsManager.MapObjectsManager.AddBuildingWorkAreaObject,
  ObjectsManager.MapObjectsManager.AddBuildingTo and, for PLANTABLE_TREE,
  ObjectsManager.MapObjectsManager.ExecuteSearchType.
- ObjectsManager.MapObjectsManager.RemoveMapObject,
  ObjectsManager.MapObjectsManager.RemoveMapObjectType and
  ObjectsManager.MapObjectsManager.PlantCorn require the tile to exist.
  `getTile(pos)` is dereferenced at lines 169, 178 and 109-110.
- ObjectsManager.MapObjectsManager.AddSelfDeletingMapObject and
  ObjectsManager.MapObjectsManager.AddArrowObject require the tile to
  exist. The Java code would fail only later, when the removal event fires
  and calls `removeMapObject` (line 51). The model keeps every queued
  removal event fireable instead.
- ObjectsManager.MapObjectsManager.Fire and TimingQueue.AfterFire require
  the object of a removal event to sit on an existing tile, which is the
  dereference at line 51. The queue invariant keeps this true for every
  queued event.
- Offsets are added to anchors without the `short` wrap of `ShortPoint2D`.
  Tile lookups outside the grid count as missing tiles.
- `plantCorn` paints through `MapNeighboursArea` and `MapShapeFilter`. The
  neighbourhood is a given list of offsets, and the filter is the grid's own
  range.
