/**
 * MapObjectsManager: places and removes map objects on the grid, keeps the
 * blocked flags of their footprints, runs the timing queue once per tick,
 * schedules the lifecycles of trees, corn, stones, arrows and self-deleting
 * objects, and keeps one material stack per tile.
 *
 * The game clock (NetworkTimer.getGameTime) is the parameter `now` or
 * `gameTime`; the results of the object classes' own cutOff() and canBeCut()
 * are parameters too.
 */
module ObjectsManager {
  import opened JavaInts
  import opened MapObjects
  import opened TimingQueue

  /**
   * The constants of the object classes that the manager uses: durations in
   * milliseconds, the stack capacity, each class's blocked tiles, and the
   * neighbour offsets of MapNeighboursArea.
   */
  datatype Catalog = Catalog(
    treeGrowth: nat,
    treeDecompose: nat,
    cornGrowth: nat,
    cornDecompose: nat,
    cornRemove: nat,
    stoneDecompose: nat,
    arrowDecompose: nat,
    stackCapacity: nat,
    treeTiles: seq<Offset>,
    cornTiles: seq<Offset>,
    stoneTiles: seq<Offset>,
    arrowTiles: seq<Offset>,
    selfDeletingTiles: seq<Offset>,
    constructionMarkTiles: seq<Offset>,
    workAreaTiles: seq<Offset>,
    stackTiles: seq<Offset>,
    neighbours: seq<Offset>)

  /** ESearchType: the five kinds executeSearchType handles, and any other. */
  datatype SearchType =
    | CuttableTree
    | CuttableStone
    | PlantableTree
    | CuttableCorn
    | PlantableCorn
    | OtherSearch(name: string)

  /** The player byte cutStone gives the cut-off stone. */
  const NO_PLAYER: int := -1

  /** The tile cutTree looks at: one left and one up, through `(short)` casts. */
  function TreeTile(pos: Pos): (r: Pos)
    ensures IsShort(r.x) && IsShort(r.y)
    ensures IsShort(pos.x - 1) && IsShort(pos.y - 1) ==> r == Pos(pos.x - 1, pos.y - 1)
  {
    Pos(ToShort(pos.x - 1), ToShort(pos.y - 1))
  }

  /** The tile cutStone looks at: two left and one up, through `(short)` casts. */
  function StoneTile(pos: Pos): (r: Pos)
    ensures IsShort(r.x) && IsShort(r.y)
    ensures IsShort(pos.x - 2) && IsShort(pos.y - 1) ==> r == Pos(pos.x - 2, pos.y - 1)
  {
    Pos(ToShort(pos.x - 2), ToShort(pos.y - 1))
  }

  /** The anchor PLANTABLE_TREE plants at: one down, stored in a ShortPoint2D. */
  function TreePlantPos(pos: Pos): (r: Pos)
    ensures r.x == pos.x && IsShort(r.y)
    ensures IsShort(pos.y + 1) ==> r.y == pos.y + 1
  {
    Pos(pos.x, ToShort(pos.y + 1))
  }

  /** The footprint of a StandardMapObject: its own tile when it blocks, nothing otherwise. */
  function StandardTiles(blocking: bool): seq<Offset>
  {
    if blocking then [Offset(0, 0)] else []
  }

  class MapObjectsManager {
    const catalog: Catalog
    var grid: Grid
    var objects: map<ObjId, MapObject>
    var nextId: nat
    var timingQueue: seq<TimeEvent>

    /** The grid and the map objects as one value. */
    ghost function State(): World
      reads this
    {
      World(grid, objects, nextId)
    }

    ghost predicate Valid()
      reads this
    {
      catalog.stackCapacity >= 1
      && WellFormed(State(), catalog.stackCapacity)
      && QueueValid(timingQueue, State())
    }

    constructor (catalog: Catalog, grid: Grid, objects: map<ObjId, MapObject>, nextId: nat)
      requires catalog.stackCapacity >= 1
      requires WellFormed(World(grid, objects, nextId), catalog.stackCapacity)
      ensures Valid()
      ensures this.catalog == catalog && this.grid == grid && this.objects == objects
      ensures this.nextId == nextId && timingQueue == []
    {
      this.catalog := catalog;
      this.grid := grid;
      this.objects := objects;
      this.nextId := nextId;
      this.timingQueue := [];
    }

    // -------------------------------------------------------------------------
    // Placement and removal

    /** setBlockedForObject: sets the flag of every in-range footprint tile. */
    method SetBlockedForObject(pos: Pos, id: ObjId, blocked: bool)
      requires id in objects
      modifies this`grid
      ensures grid == UpdateCovered(old(grid), pos, objects[id].blockedTiles, SetBlocked(blocked))
    {
      var fp := objects[id].blockedTiles;
      var i := 0;
      while i < |fp|
        invariant 0 <= i <= |fp|
        invariant grid == UpdateCovered(old(grid), pos, fp[..i], SetBlocked(blocked))
      {
        UpdateCoveredStep(old(grid), pos, fp, i, SetBlocked(blocked));
        var p := Shift(pos, fp[i]);
        if p in grid {
          grid := grid[p := grid[p].(blocked := blocked)];
        }
        i := i + 1;
      }
      assert fp[..|fp|] == fp;
    }

    /**
     * addMapObject: fails, changing nothing, when a footprint tile is out of
     * range or blocked; otherwise the anchor tile stores the object and its
     * footprint is blocked.
     */
    method AddMapObject(pos: Pos, id: ObjId) returns (ok: bool)
      requires id in objects
      requires Free(grid, pos, objects[id].blockedTiles) ==> pos in grid
      modifies this`grid
      ensures ok == Free(old(grid), pos, objects[id].blockedTiles)
      ensures grid == AfterAdd(old(grid), pos, id, objects[id])
    {
      var fp := objects[id].blockedTiles;
      var i := 0;
      while i < |fp|
        invariant 0 <= i <= |fp|
        invariant forall j :: 0 <= j < i ==> Shift(pos, fp[j]) in grid && !grid[Shift(pos, fp[j])].blocked
      {
        var p := Shift(pos, fp[i]);
        if p !in grid || grid[p].blocked {
          return false;
        }
        i := i + 1;
      }
      grid := Attach(grid, pos, objects[id].objectType, id);
      SetBlockedForObject(pos, id, true);
      return true;
    }

    /**
     * removeMapObject: when the tile holds the object it is detached and its
     * footprint unblocked; otherwise nothing changes.
     */
    method RemoveMapObject(pos: Pos, id: ObjId)
      requires pos in grid && id in objects
      modifies this`grid
      ensures grid == AfterRemove(old(grid), pos, id, objects[id])
      ensures old(Valid()) ==> Valid()
    {
      ghost var w := State();
      ghost var wasValid := Valid();
      var t := objects[id].objectType;
      var removed := t in grid[pos].slots && grid[pos].slots[t] == id;
      if removed {
        grid := Detach(grid, pos, t);
        SetBlockedForObject(pos, id, false);
      }
      if wasValid {
        RemoveKeepsWellFormed(w, pos, id, catalog.stackCapacity);
        QueueValidTransfers(timingQueue, w, State());
      }
    }

    /**
     * removeMapObjectType: the object the tile stores under the type, if
     * any, is detached and its footprint unblocked.
     */
    method RemoveMapObjectType(pos: Pos, t: ObjectType)
      requires pos in grid
      requires t in grid[pos].slots ==> grid[pos].slots[t] in objects
      modifies this`grid
      ensures grid == AfterRemoveType(old(grid), objects, pos, t)
      ensures old(Valid()) ==> Valid()
    {
      ghost var w := State();
      ghost var wasValid := Valid();
      if t in grid[pos].slots {
        var removed := grid[pos].slots[t];
        grid := Detach(grid, pos, t);
        SetBlockedForObject(pos, removed, false);
      }
      if wasValid {
        RemoveTypeKeepsWellFormed(w, pos, t, catalog.stackCapacity);
        QueueValidTransfers(timingQueue, w, State());
      }
    }

    /** Allocation of a new map object (a Java `new`). */
    method NewObject(o: MapObject) returns (id: ObjId)
      requires Valid()
      requires o.variant.MaterialStack? ==> o.variant.count <= catalog.stackCapacity
      modifies this`objects, this`nextId
      ensures Valid()
      ensures id == old(nextId) && id !in old(objects)
      ensures objects == old(objects)[id := o] && nextId == old(nextId) + 1
    {
      NewObjectKeepsWellFormed(State(), o, catalog.stackCapacity);
      QueueValidTransfers(timingQueue, State(), World(grid, objects[nextId := o], nextId + 1));
      id := nextId;
      objects := objects[id := o];
      nextId := nextId + 1;
    }

    /** Places a new object (creation followed by addMapObject), keeping the invariant. */
    method Place(pos: Pos, o: MapObject) returns (id: ObjId, ok: bool)
      requires Valid() && o.pos == pos
      requires o.variant.MaterialStack? ==> 1 <= o.variant.count <= catalog.stackCapacity
      requires Free(grid, pos, o.blockedTiles) ==> pos in grid
      modifies this`grid, this`objects, this`nextId
      ensures Valid()
      ensures id == old(nextId) && id !in old(objects)
      ensures objects == old(objects)[id := o] && nextId == old(nextId) + 1
      ensures ok == Free(old(grid), pos, o.blockedTiles)
      ensures grid == AfterAdd(old(grid), pos, id, o)
    {
      id := NewObject(o);
      ghost var w := State();
      ok := AddMapObject(pos, id);
      AddKeepsWellFormed(w, pos, id, catalog.stackCapacity);
      QueueValidTransfers(timingQueue, w, State());
    }

    /** timingQueue.offer / timingQueue.add. */
    method Offer(e: TimeEvent)
      requires Valid()
      requires e.subject in objects && (e.shouldRemove ==> objects[e.subject].pos in grid)
      requires 0 <= e.eventTime <= INT_MAX
      modifies this`timingQueue
      ensures Valid()
      ensures timingQueue == Enqueue(old(timingQueue), e)
    {
      EnqueueKeepsQueueValid(timingQueue, State(), e);
      timingQueue := Enqueue(timingQueue, e);
    }

    // -------------------------------------------------------------------------
    // The tick

    /** One pass of timerEvent's loop body: poll the head event and fire it. */
    method PollAndFire()
      requires Valid() && timingQueue != []
      modifies this`grid, this`objects, this`timingQueue
      ensures Valid()
      ensures timingQueue == old(timingQueue)[1..]
      ensures State() == AfterFire(old(State()), old(timingQueue)[0])
    {
      ghost var w := State();
      QueueValidTail(timingQueue, w);
      var curr := timingQueue[0];
      timingQueue := timingQueue[1..];
      Fire(curr);
      QueueValidTransfers(timingQueue, w, State());
    }

    /** Firing one event: a removal event removes its object, any other advances its state. */
    method Fire(e: TimeEvent)
      requires WellFormed(State(), catalog.stackCapacity)
      requires e.subject in objects && (e.shouldRemove ==> objects[e.subject].pos in grid)
      modifies this`grid, this`objects
      ensures WellFormed(State(), catalog.stackCapacity)
      ensures State() == AfterFire(old(State()), e)
    {
      ghost var w := State();
      if e.shouldRemove {
        RemoveMapObject(objects[e.subject].pos, e.subject);
      } else {
        objects := objects[e.subject := objects[e.subject].(stateChanges := objects[e.subject].stateChanges + 1)];
      }
      FireKeepsWellFormed(w, e, catalog.stackCapacity);
    }


    /**
     * timerEvent: polls, in queue order, every event whose time lies strictly
     * before the game time, removing the object of a removal event and
     * advancing the state of the object of any other event.
     */
    method TimerEvent(gameTime: int)
      requires Valid()
      modifies this`grid, this`objects, this`timingQueue
      ensures Valid()
      ensures var n := DueCount(old(timingQueue), gameTime);
        timingQueue == old(timingQueue)[n..]
        && State() == AfterFireAll(old(State()), old(timingQueue)[..n])
      ensures forall i :: 0 <= i < |timingQueue| ==> timingQueue[i].eventTime >= gameTime
    {
      ghost var q0 := timingQueue;
      ghost var w0 := State();
      ghost var n := 0;
      while timingQueue != [] && IsOutDated(timingQueue[0], gameTime)
        invariant Valid()
        invariant 0 <= n <= |q0| && timingQueue == q0[n..]
        invariant n <= DueCount(q0, gameTime)
        invariant Fireable(w0, q0[..n])
        invariant State() == AfterFireAll(w0, q0[..n])
        decreases |timingQueue|
      {
        assert timingQueue[0] == q0[n] && IsOutDated(q0[n], gameTime);
        DueCountStep(q0, gameTime, n);
        FireAllSnoc(w0, q0, n);
        PollAndFire();
        n := n + 1;
      }
      assert n < |q0| ==> q0[n] == timingQueue[0];
      DueCountStep(q0, gameTime, n);
      LeftEventsAreNotDue(q0, gameTime);
    }

    // -------------------------------------------------------------------------
    // Lifecycles

    /** plantTree: places a growing tree, schedules its growth event whether or not it was placed. */
    method PlantTree(pos: Pos, now: int) returns (ok: bool)
      requires Valid()
      requires Free(grid, pos, catalog.treeTiles) ==> pos in grid
      requires 0 <= now <= INT_MAX
      modifies this`grid, this`objects, this`nextId, this`timingQueue
      ensures Valid() && ok
      ensures var tree := MapObject(TreeGrowing, pos, catalog.treeTiles, Tree, 0, 0);
        objects == old(objects)[old(nextId) := tree] && nextId == old(nextId) + 1
        && grid == AfterAdd(old(grid), pos, old(nextId), tree)
        && timingQueue == Enqueue(old(timingQueue), TimeEvent(old(nextId), EventTime(now, catalog.treeGrowth), false))
    {
      var tree := MapObject(TreeGrowing, pos, catalog.treeTiles, Tree, 0, 0);
      var id, _ := Place(pos, tree);
      Offer(TimeEvent(id, EventTime(now, catalog.treeGrowth), false));
      ok := true;
    }

    /** plantCorn's first half: the anchor tile and its in-range neighbours become earth. */
    method PrepareCornField(pos: Pos)
      requires Valid() && pos in grid
      modifies this`grid
      ensures Valid()
      ensures grid == UpdateCovered(old(grid), pos, [Offset(0, 0)] + catalog.neighbours, SetLandscape(Earth))
    {
      ghost var w := State();
      PaintEarth(pos);
      SameSlotsKeepWellFormed(w, grid, catalog.stackCapacity);
      QueueValidTransfers(timingQueue, w, State());
    }

    /** The painting loop itself. */
    method PaintEarth(pos: Pos)
      requires pos in grid
      modifies this`grid
      ensures grid == UpdateCovered(old(grid), pos, [Offset(0, 0)] + catalog.neighbours, SetLandscape(Earth))
    {
      ghost var offs := [Offset(0, 0)] + catalog.neighbours;
      UpdateCoveredStep(old(grid), pos, offs, 0, SetLandscape(Earth));
      assert offs[..0] == [] && Shift(pos, offs[0]) == pos;
      grid := grid[pos := grid[pos].(landscape := Earth)];
      var i := 0;
      while i < |catalog.neighbours|
        invariant 0 <= i <= |catalog.neighbours|
        invariant grid == UpdateCovered(old(grid), pos, offs[..i + 1], SetLandscape(Earth))
      {
        UpdateCoveredStep(old(grid), pos, offs, i + 1, SetLandscape(Earth));
        assert offs[i + 1] == catalog.neighbours[i];
        var cur := Shift(pos, catalog.neighbours[i]);
        if cur in grid {
          grid := grid[cur := grid[cur].(landscape := Earth)];
        }
        i := i + 1;
      }
      assert offs[..|catalog.neighbours| + 1] == offs;
    }

    /**
     * plantCorn: turns the anchor tile and its in-range neighbours to earth,
     * places a growing corn, and schedules its growth, decomposition and
     * removal events at once.
     */
    method PlantCorn(pos: Pos, now: int) returns (ok: bool)
      requires Valid() && pos in grid
      requires 0 <= now <= INT_MAX
      modifies this`grid, this`objects, this`nextId, this`timingQueue
      ensures Valid() && ok
      ensures var corn := MapObject(CornGrowing, pos, catalog.cornTiles, Corn, 0, 0);
        var earthed := UpdateCovered(old(grid), pos, [Offset(0, 0)] + catalog.neighbours, SetLandscape(Earth));
        objects == old(objects)[old(nextId) := corn] && nextId == old(nextId) + 1
        && grid == AfterAdd(earthed, pos, old(nextId), corn)
        && Sorted(timingQueue)
        && multiset(timingQueue) == multiset(old(timingQueue))
             + multiset(CornEvents(old(nextId), now, catalog.cornGrowth, catalog.cornDecompose, catalog.cornRemove))
    {
      PrepareCornField(pos);
      var corn := MapObject(CornGrowing, pos, catalog.cornTiles, Corn, 0, 0);
      var id, _ := Place(pos, corn);
      ScheduleCorn(id, now);
      ok := true;
    }

    /** plantCorn's last step: the growth, decomposition and removal events of a new corn. */
    method ScheduleCorn(id: ObjId, now: int)
      requires Valid() && id in objects && objects[id].pos in grid
      requires 0 <= now <= INT_MAX
      modifies this`timingQueue
      ensures Valid() && Sorted(timingQueue)
      ensures multiset(timingQueue) == multiset(old(timingQueue))
        + multiset(CornEvents(id, now, catalog.cornGrowth, catalog.cornDecompose, catalog.cornRemove))
    {
      var g, d, r := catalog.cornGrowth, catalog.cornDecompose, catalog.cornRemove;
      var e0, e1, e2 := TimeEvent(id, EventTime(now, g), false), TimeEvent(id, EventTime(now, g + d), false), TimeEvent(id, EventTime(now, g + d + r), true);
      Offer(e0);
      Offer(e1);
      Offer(e2);
      CornEventsContents(id, now, g, d, r);
    }

    /**
     * cutCorn: without a tile, false; otherwise the adult corn is cut, and
     * when cutOff() reports it done a removal event is scheduled and the
     * result is true.
     */
    method CutCorn(pos: Pos, now: int, cutOff: bool) returns (ok: bool)
      requires Valid()
      requires pos in grid ==> CornAdult in grid[pos].slots
      requires 0 <= now <= INT_MAX
      modifies this`objects, this`timingQueue
      ensures Valid()
      ensures ok == (pos in old(grid) && cutOff)
      ensures pos !in old(grid) ==> objects == old(objects) && timingQueue == old(timingQueue)
      ensures pos in old(grid) ==>
        var id := old(grid)[pos].slots[CornAdult];
        objects == old(objects)[id := old(objects)[id].(cutOffs := old(objects)[id].cutOffs + 1)]
        && timingQueue ==
             if cutOff then Enqueue(old(timingQueue), TimeEvent(id, EventTime(now, catalog.cornRemove), true))
             else old(timingQueue)
    {
      ok := CutAndSchedule(pos, CornAdult, now, catalog.cornRemove, cutOff);
    }

    /**
     * cutTree: like cutCorn for the adult tree on the tile one left and one
     * up, with the tree's decomposition delay.
     */
    method CutTree(pos: Pos, now: int, cutOff: bool) returns (ok: bool)
      requires Valid()
      requires TreeTile(pos) in grid ==> TreeAdult in grid[TreeTile(pos)].slots
      requires 0 <= now <= INT_MAX
      modifies this`objects, this`timingQueue
      ensures Valid()
      ensures ok == (TreeTile(pos) in old(grid) && cutOff)
      ensures TreeTile(pos) !in old(grid) ==> objects == old(objects) && timingQueue == old(timingQueue)
      ensures TreeTile(pos) in old(grid) ==>
        var id := old(grid)[TreeTile(pos)].slots[TreeAdult];
        objects == old(objects)[id := old(objects)[id].(cutOffs := old(objects)[id].cutOffs + 1)]
        && timingQueue ==
             if cutOff then Enqueue(old(timingQueue), TimeEvent(id, EventTime(now, catalog.treeDecompose), true))
             else old(timingQueue)
    {
      ok := CutAndSchedule(TreeTile(pos), TreeAdult, now, catalog.treeDecompose, cutOff);
    }

    /** The object's own cutOff(): its cut counter advances. */
    method CountCut(id: ObjId)
      requires Valid() && id in objects
      modifies this`objects
      ensures Valid()
      ensures objects == old(objects)[id := old(objects)[id].(cutOffs := old(objects)[id].cutOffs + 1)]
    {
      ghost var w := State();
      objects := objects[id := objects[id].(cutOffs := objects[id].cutOffs + 1)];
      QueueValidTransfers(timingQueue, w, State());
    }

    /** The shared body of cutCorn and cutTree. */
    method CutAndSchedule(tilePos: Pos, t: ObjectType, now: int, delay: nat, cutOff: bool) returns (ok: bool)
      requires Valid()
      requires tilePos in grid ==> t in grid[tilePos].slots
      requires 0 <= now <= INT_MAX
      modifies this`objects, this`timingQueue
      ensures Valid()
      ensures ok == (tilePos in old(grid) && cutOff)
      ensures tilePos !in old(grid) ==> objects == old(objects) && timingQueue == old(timingQueue)
      ensures tilePos in old(grid) ==>
        var id := old(grid)[tilePos].slots[t];
        objects == old(objects)[id := old(objects)[id].(cutOffs := old(objects)[id].cutOffs + 1)]
        && timingQueue ==
             if cutOff then Enqueue(old(timingQueue), TimeEvent(id, EventTime(now, delay), true))
             else old(timingQueue)
    {
      if tilePos in grid {
        var id := grid[tilePos].slots[t];
        CountCut(id);
        if cutOff {
          Offer(TimeEvent(id, EventTime(now, delay), true));
          return true;
        }
      }
      return false;
    }

    /**
     * cutStone: cuts the stone on the tile two left and one up; when it can
     * no longer be cut a self-deleting cut-off stone is placed at `pos` and
     * the stone is taken off its tile directly, so its footprint stays
     * blocked.
     */
    method CutStone(pos: Pos, now: int, canStillBeCut: bool)
      requires Valid()
      requires StoneTile(pos) in grid && Stone in grid[StoneTile(pos)].slots
      requires !canStillBeCut ==> pos in grid && 0 <= now <= INT_MAX
      modifies this`grid, this`objects, this`nextId, this`timingQueue
      ensures Valid()
      ensures var id := old(grid)[StoneTile(pos)].slots[Stone];
        var cut := old(objects)[id].(cutOffs := old(objects)[id].cutOffs + 1);
        var marker := MapObject(CutOffStone, pos, catalog.selfDeletingTiles, SelfDeleting(NO_PLAYER), 0, 0);
        if canStillBeCut then
          grid == old(grid) && objects == old(objects)[id := cut] && nextId == old(nextId)
          && timingQueue == old(timingQueue)
        else
          grid == Detach(AfterAdd(old(grid), pos, old(nextId), marker), StoneTile(pos), Stone)
          && objects == old(objects)[id := cut][old(nextId) := marker] && nextId == old(nextId) + 1
          && timingQueue == Enqueue(old(timingQueue), TimeEvent(old(nextId), EventTime(now, catalog.stoneDecompose), true))
    {
      var sp := StoneTile(pos);
      var id := grid[sp].slots[Stone];
      CountCut(id);
      if !canStillBeCut {
        LeaveCutOffStone(pos, sp, now);
      }
    }

    /** cutStone's last step: a cut-off stone appears and the stone leaves its tile, still blocking. */
    method LeaveCutOffStone(pos: Pos, sp: Pos, now: int)
      requires Valid() && pos in grid && sp in grid
      requires 0 <= now <= INT_MAX
      modifies this`grid, this`objects, this`nextId, this`timingQueue
      ensures Valid()
      ensures var marker := MapObject(CutOffStone, pos, catalog.selfDeletingTiles, SelfDeleting(NO_PLAYER), 0, 0);
        grid == Detach(AfterAdd(old(grid), pos, old(nextId), marker), sp, Stone)
        && objects == old(objects)[old(nextId) := marker] && nextId == old(nextId) + 1
        && timingQueue == Enqueue(old(timingQueue), TimeEvent(old(nextId), EventTime(now, catalog.stoneDecompose), true))
    {
      AddSelfDeletingMapObject(pos, CutOffStone, catalog.stoneDecompose, NO_PLAYER, now);
      ghost var w := State();
      DetachKeepsWellFormed(w, sp, Stone, catalog.stackCapacity);
      grid := Detach(grid, sp, Stone);
      QueueValidTransfers(timingQueue, w, State());
    }

    /**
     * addSelfDeletingMapObject: places the object and schedules its removal
     * after `duration` milliseconds whether or not it was placed.
     */
    method AddSelfDeletingMapObject(pos: Pos, t: ObjectType, duration: nat, player: int, now: int)
      requires Valid() && pos in grid
      requires 0 <= now <= INT_MAX
      modifies this`grid, this`objects, this`nextId, this`timingQueue
      ensures Valid()
      ensures var o := MapObject(t, pos, catalog.selfDeletingTiles, SelfDeleting(player), 0, 0);
        objects == old(objects)[old(nextId) := o] && nextId == old(nextId) + 1
        && grid == AfterAdd(old(grid), pos, old(nextId), o)
        && timingQueue == Enqueue(old(timingQueue), TimeEvent(old(nextId), EventTime(now, duration), true))
    {
      var o := MapObject(t, pos, catalog.selfDeletingTiles, SelfDeleting(player), 0, 0);
      var id, _ := Place(pos, o);
      Offer(TimeEvent(id, EventTime(now, duration), true));
    }

    /**
     * addArrowObject: places the arrow at the target's tile and schedules a
     * state event after `endTime` and its removal a decomposition delay later.
     */
    method AddArrowObject(target: Pos, endTime: nat, now: int)
      requires Valid() && target in grid
      requires 0 <= now <= INT_MAX
      modifies this`grid, this`objects, this`nextId, this`timingQueue
      ensures Valid()
      ensures var arrow := MapObject(Arrow, target, catalog.arrowTiles, ArrowShot, 0, 0);
        objects == old(objects)[old(nextId) := arrow] && nextId == old(nextId) + 1
        && grid == AfterAdd(old(grid), target, old(nextId), arrow)
        && timingQueue == Enqueue(Enqueue(old(timingQueue), TimeEvent(old(nextId), EventTime(now, endTime), false)),
                                  TimeEvent(old(nextId), EventTime(now, endTime + catalog.arrowDecompose), true))
    {
      var arrow := MapObject(Arrow, target, catalog.arrowTiles, ArrowShot, 0, 0);
      var id, _ := Place(target, arrow);
      Offer(TimeEvent(id, EventTime(now, endTime), false));
      Offer(TimeEvent(id, EventTime(now, endTime + catalog.arrowDecompose), true));
    }

    /** addStone: places a stone deposit of the given capacity; no event. */
    method AddStone(pos: Pos, capacity: int)
      requires Valid()
      requires Free(grid, pos, catalog.stoneTiles) ==> pos in grid
      modifies this`grid, this`objects, this`nextId, this`timingQueue
      ensures Valid() && timingQueue == old(timingQueue)
      ensures var stone := MapObject(Stone, pos, catalog.stoneTiles, StoneDeposit(capacity), 0, 0);
        objects == old(objects)[old(nextId) := stone] && nextId == old(nextId) + 1
        && grid == AfterAdd(old(grid), pos, old(nextId), stone)
    {
      var stone := MapObject(Stone, pos, catalog.stoneTiles, StoneDeposit(capacity), 0, 0);
      var _, _ := Place(pos, stone);
    }

    /** addSimpleMapObject: places a standard object that blocks its own tile when `blocking`. */
    method AddSimpleMapObject(pos: Pos, t: ObjectType, blocking: bool, player: int)
      requires Valid()
      requires Free(grid, pos, StandardTiles(blocking)) ==> pos in grid
      modifies this`grid, this`objects, this`nextId, this`timingQueue
      ensures Valid() && timingQueue == old(timingQueue)
      ensures var o := MapObject(t, pos, StandardTiles(blocking), Standard(player), 0, 0);
        objects == old(objects)[old(nextId) := o] && nextId == old(nextId) + 1
        && grid == AfterAdd(old(grid), pos, old(nextId), o)
    {
      var o := MapObject(t, pos, StandardTiles(blocking), Standard(player), 0, 0);
      var _, _ := Place(pos, o);
    }

    /** addBuildingWorkAreaObject: places a work-area mark (its progress value is not modelled). */
    method AddBuildingWorkAreaObject(pos: Pos)
      requires Valid()
      requires Free(grid, pos, catalog.workAreaTiles) ==> pos in grid
      modifies this`grid, this`objects, this`nextId, this`timingQueue
      ensures Valid() && timingQueue == old(timingQueue)
      ensures var o := MapObject(BuildingWorkAreaMark, pos, catalog.workAreaTiles, WorkAreaMark, 0, 0);
        objects == old(objects)[old(nextId) := o] && nextId == old(nextId) + 1
        && grid == AfterAdd(old(grid), pos, old(nextId), o)
    {
      var o := MapObject(BuildingWorkAreaMark, pos, catalog.workAreaTiles, WorkAreaMark, 0, 0);
      var _, _ := Place(pos, o);
    }

    /** addBuildingTo: places a building of the given type and footprint. */
    method AddBuildingTo(pos: Pos, t: ObjectType, blockedTiles: seq<Offset>)
      requires Valid()
      requires Free(grid, pos, blockedTiles) ==> pos in grid
      modifies this`grid, this`objects, this`nextId, this`timingQueue
      ensures Valid() && timingQueue == old(timingQueue)
      ensures var o := MapObject(t, pos, blockedTiles, Building, 0, 0);
        objects == old(objects)[old(nextId) := o] && nextId == old(nextId) + 1
        && grid == AfterAdd(old(grid), pos, old(nextId), o)
    {
      var o := MapObject(t, pos, blockedTiles, Building, 0, 0);
      var _, _ := Place(pos, o);
    }

    /**
     * setConstructionMarking: a value of at least 0 updates the tile's mark
     * or places a new one; a negative value removes the mark.
     */
    method SetConstructionMarking(pos: Pos, value: int)
      requires Valid() && pos in grid && -128 <= value <= 127
      requires ConstructionMark in grid[pos].slots ==>
                 objects[grid[pos].slots[ConstructionMark]].variant.ConstructionMarker?
      modifies this`grid, this`objects, this`nextId, this`timingQueue
      ensures Valid() && timingQueue == old(timingQueue)
      ensures value < 0 ==>
        grid == AfterRemoveType(old(grid), old(objects), pos, ConstructionMark)
        && objects == old(objects) && nextId == old(nextId)
      ensures value >= 0 && ConstructionMark in old(grid)[pos].slots ==>
        var id := old(grid)[pos].slots[ConstructionMark];
        grid == old(grid) && nextId == old(nextId)
        && objects == old(objects)[id := old(objects)[id].(variant := ConstructionMarker(value))]
      ensures value >= 0 && ConstructionMark !in old(grid)[pos].slots ==>
        var mark := MapObject(ConstructionMark, pos, catalog.constructionMarkTiles, ConstructionMarker(value), 0, 0);
        objects == old(objects)[old(nextId) := mark] && nextId == old(nextId) + 1
        && grid == AfterAdd(old(grid), pos, old(nextId), mark)
    {
      if value >= 0 {
        if ConstructionMark !in grid[pos].slots {
          var mark := MapObject(ConstructionMark, pos, catalog.constructionMarkTiles, ConstructionMarker(value), 0, 0);
          var _, _ := Place(pos, mark);
        } else {
          var id := grid[pos].slots[ConstructionMark];
          ghost var w := State();
          objects := objects[id := objects[id].(variant := ConstructionMarker(value))];
          QueueValidTransfers(timingQueue, w, State());
        }
      } else {
        ghost var w := State();
        RemoveMapObjectType(pos, ConstructionMark);
        RemoveTypeKeepsWellFormed(w, pos, ConstructionMark, catalog.stackCapacity);
        QueueValidTransfers(timingQueue, w, State());
      }
    }

    /**
     * executeSearchType: dispatches on the search type; cutting a stone and
     * planting always report success, an unknown type reports failure and
     * changes nothing.
     */
    method ExecuteSearchType(pos: Pos, searchType: SearchType, now: int, cutOff: bool, canStillBeCut: bool)
      returns (ok: bool)
      requires Valid() && 0 <= now <= INT_MAX
      requires searchType == CuttableTree ==>
        (TreeTile(pos) in grid ==> TreeAdult in grid[TreeTile(pos)].slots)
      requires searchType == CuttableStone ==>
        StoneTile(pos) in grid && Stone in grid[StoneTile(pos)].slots
        && (!canStillBeCut ==> pos in grid)
      requires searchType == PlantableTree ==>
        (Free(grid, TreePlantPos(pos), catalog.treeTiles) ==> TreePlantPos(pos) in grid)
      requires searchType == CuttableCorn ==>
        (pos in grid ==> CornAdult in grid[pos].slots)
      requires searchType == PlantableCorn ==>
        pos in grid
      modifies this`grid, this`objects, this`nextId, this`timingQueue
      ensures Valid()
      ensures searchType == CuttableTree ==> ok == (TreeTile(pos) in old(grid) && cutOff)
      ensures searchType == CuttableCorn ==> ok == (pos in old(grid) && cutOff)
      ensures searchType in {CuttableStone, PlantableTree, PlantableCorn} ==> ok
      ensures searchType == CuttableTree ==>
        grid == old(grid) && nextId == old(nextId)
        && (TreeTile(pos) !in old(grid) ==> objects == old(objects) && timingQueue == old(timingQueue))
        && (TreeTile(pos) in old(grid) ==>
              var id := old(grid)[TreeTile(pos)].slots[TreeAdult];
              objects == old(objects)[id := old(objects)[id].(cutOffs := old(objects)[id].cutOffs + 1)]
              && timingQueue ==
                   if cutOff then Enqueue(old(timingQueue), TimeEvent(id, EventTime(now, catalog.treeDecompose), true))
                   else old(timingQueue))
      ensures searchType == CuttableStone ==>
        var id := old(grid)[StoneTile(pos)].slots[Stone];
        var cut := old(objects)[id].(cutOffs := old(objects)[id].cutOffs + 1);
        var marker := MapObject(CutOffStone, pos, catalog.selfDeletingTiles, SelfDeleting(NO_PLAYER), 0, 0);
        if canStillBeCut then
          grid == old(grid) && objects == old(objects)[id := cut] && nextId == old(nextId)
          && timingQueue == old(timingQueue)
        else
          grid == Detach(AfterAdd(old(grid), pos, old(nextId), marker), StoneTile(pos), Stone)
          && objects == old(objects)[id := cut][old(nextId) := marker] && nextId == old(nextId) + 1
          && timingQueue == Enqueue(old(timingQueue), TimeEvent(old(nextId), EventTime(now, catalog.stoneDecompose), true))
      ensures searchType == PlantableTree ==>
        var tree := MapObject(TreeGrowing, TreePlantPos(pos), catalog.treeTiles, Tree, 0, 0);
        objects == old(objects)[old(nextId) := tree] && nextId == old(nextId) + 1
        && grid == AfterAdd(old(grid), TreePlantPos(pos), old(nextId), tree)
        && timingQueue == Enqueue(old(timingQueue), TimeEvent(old(nextId), EventTime(now, catalog.treeGrowth), false))
      ensures searchType == CuttableCorn ==>
        grid == old(grid) && nextId == old(nextId)
        && (pos !in old(grid) ==> objects == old(objects) && timingQueue == old(timingQueue))
        && (pos in old(grid) ==>
              var id := old(grid)[pos].slots[CornAdult];
              objects == old(objects)[id := old(objects)[id].(cutOffs := old(objects)[id].cutOffs + 1)]
              && timingQueue ==
                   if cutOff then Enqueue(old(timingQueue), TimeEvent(id, EventTime(now, catalog.cornRemove), true))
                   else old(timingQueue))
      ensures searchType == PlantableCorn ==>
        var corn := MapObject(CornGrowing, pos, catalog.cornTiles, Corn, 0, 0);
        var earthed := UpdateCovered(old(grid), pos, [Offset(0, 0)] + catalog.neighbours, SetLandscape(Earth));
        objects == old(objects)[old(nextId) := corn] && nextId == old(nextId) + 1
        && grid == AfterAdd(earthed, pos, old(nextId), corn)
        && Sorted(timingQueue)
        && multiset(timingQueue) == multiset(old(timingQueue))
             + multiset(CornEvents(old(nextId), now, catalog.cornGrowth, catalog.cornDecompose, catalog.cornRemove))
      ensures searchType.OtherSearch? ==>
        !ok && grid == old(grid) && objects == old(objects) && nextId == old(nextId)
        && timingQueue == old(timingQueue)
    {
      match searchType
      case CuttableTree =>
        ok := CutTree(pos, now, cutOff);
      case CuttableStone =>
        CutStone(pos, now, canStillBeCut);
        ok := true;
      case PlantableTree =>
        ok := PlantTree(TreePlantPos(pos), now);
      case CuttableCorn =>
        ok := CutCorn(pos, now, cutOff);
      case PlantableCorn =>
        ok := PlantCorn(pos, now);
      case OtherSearch(_) =>
        ok := false;
    }

    // -------------------------------------------------------------------------
    // Material stacks

    /** canPush: no stack on the tile, or a stack of that material that is not full. */
    method CanPush(pos: Pos, m: Material) returns (ok: bool)
      requires Valid() && pos in grid && StackTyped(State(), pos)
      ensures ok == CanPushAt(State(), pos, m, catalog.stackCapacity)
      ensures ok <==>
        StackObject !in grid[pos].slots
        || (objects[grid[pos].slots[StackObject]].variant.material == m
            && objects[grid[pos].slots[StackObject]].variant.count < catalog.stackCapacity)
    {
      var tile := grid[pos];
      if StackObject !in tile.slots {
        ok := true;
      } else {
        var s := objects[tile.slots[StackObject]].variant;
        ok := s.material == m && !IsFull(s.count, catalog.stackCapacity);
      }
    }

    /** canPop: a stack of that material that is not empty. */
    method CanPop(pos: Pos, m: Material) returns (ok: bool)
      requires Valid() && pos in grid && StackTyped(State(), pos)
      ensures ok == CanPopAt(State(), pos, m)
      ensures ok <==>
        StackObject in grid[pos].slots
        && objects[grid[pos].slots[StackObject]].variant.material == m
        && objects[grid[pos].slots[StackObject]].variant.count > 0
    {
      var tile := grid[pos];
      if StackObject !in tile.slots {
        ok := false;
      } else {
        var s := objects[tile.slots[StackObject]].variant;
        ok := s.material == m && !IsEmpty(s.count);
      }
    }

    /**
     * pushMaterial: succeeds exactly when canPush held, creating a stack of
     * one unit (stored without a blocking check) or adding one unit.
     */
    method PushMaterial(pos: Pos, m: Material) returns (ok: bool)
      requires Valid() && pos in grid && StackTyped(State(), pos)
      modifies this`grid, this`objects, this`nextId
      ensures Valid()
      ensures ok == CanPushAt(old(State()), pos, m, catalog.stackCapacity)
      ensures State() == AfterPush(old(State()), pos, m, catalog.stackCapacity, catalog.stackTiles).world
    {
      ghost var w := State();
      ghost var r := AfterPush(w, pos, m, catalog.stackCapacity, catalog.stackTiles);
      PushKeepsWellFormed(w, pos, m, catalog.stackCapacity, catalog.stackTiles);
      PushKeepsQueueValid(timingQueue, w, pos, m, catalog.stackCapacity, catalog.stackTiles);
      if StackObject !in grid[pos].slots {
        var id := nextId;
        objects := objects[id := MapObject(StackObject, pos, catalog.stackTiles, MaterialStack(m, 1), 0, 0)];
        nextId := nextId + 1;
        grid := Attach(grid, pos, StackObject, id);
        ok := true;
      } else {
        var id := grid[pos].slots[StackObject];
        var s := objects[id];
        if s.variant.material != m || IsFull(s.variant.count, catalog.stackCapacity) {
          ok := false;
        } else {
          objects := objects[id := s.(variant := s.variant.(count := s.variant.count + 1))];
          ok := true;
        }
      }
      assert State() == r.world;
    }

    /**
     * popMaterial: succeeds exactly when canPop held, taking one unit; a
     * stack that becomes empty is removed through removeMapObject.
     */
    method PopMaterial(pos: Pos, m: Material) returns (ok: bool)
      requires Valid() && pos in grid && StackTyped(State(), pos)
      modifies this`grid, this`objects
      ensures Valid()
      ensures ok == CanPopAt(old(State()), pos, m)
      ensures State() == AfterPop(old(State()), pos, m).world
    {
      ghost var w := State();
      ghost var r := AfterPop(w, pos, m);
      PopKeepsWellFormed(w, pos, m, catalog.stackCapacity);
      PopKeepsQueueValid(timingQueue, w, pos, m);
      if StackObject !in grid[pos].slots {
        ok := false;
      } else {
        var id := grid[pos].slots[StackObject];
        var s := objects[id];
        if s.variant.material != m || IsEmpty(s.variant.count) {
          ok := false;
        } else {
          objects := objects[id := s.(variant := s.variant.(count := s.variant.count - 1))];
          if IsEmpty(objects[id].variant.count) {
            RemoveMapObject(pos, id);
          }
          ok := true;
        }
      }
      assert State() == r.world;
    }
  }

  /**
   * cutStone takes the exhausted stone off its tile by type, not through
   * removeMapObject: the stone is gone, yet every tile that was blocked,
   * its own footprint included, stays blocked.
   */
  lemma CutStoneKeepsTilesBlocked(g: Grid, pos: Pos, sp: Pos, id: ObjId, marker: MapObject)
    requires pos in g && sp in g
    ensures var r := Detach(AfterAdd(g, pos, id, marker), sp, Stone);
      Stone !in r[sp].slots
      && forall p :: p in g && g[p].blocked ==> p in r && r[p].blocked
  {
  }
}
