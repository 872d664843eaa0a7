/**
 * The map objects and the tile grid that MapObjectsManager works on, and the
 * pure specification of what its placement, removal and material-stack
 * operations do to them.
 *
 * Java object identity is modelled by an arena: every map object has an
 * identifier, `World.objects` maps identifiers to the object's current state,
 * and a tile refers to its objects by identifier.
 */
module MapObjects {

  type ObjId = nat

  datatype Option<T> = None | Some(value: T)

  /** A tile coordinate (ISPosition2D). */
  datatype Pos = Pos(x: int, y: int)

  /** A RelativePoint: an offset from an object's anchor tile. */
  datatype Offset = Offset(dx: int, dy: int)

  /** RelativePoint.calculatePoint: the tile an offset designates from an anchor. */
  function Shift(p: Pos, o: Offset): Pos
  {
    Pos(p.x + o.dx, p.y + o.dy)
  }

  datatype Landscape = Earth | OtherLandscape(name: string)

  /** EMapObjectType: the key under which a tile stores an object. */
  datatype ObjectType =
    | Stone
    | CutOffStone
    | TreeGrowing
    | TreeAdult
    | CornGrowing
    | CornAdult
    | Arrow
    | StackObject
    | ConstructionMark
    | BuildingWorkAreaMark
    | OtherType(name: string)

  type Material = string

  /** The concrete class of a map object, with the part of its state the manager reads or writes. */
  datatype Variant =
    | Tree
    | Corn
    | StoneDeposit(capacity: int)
    | ArrowShot
    | SelfDeleting(player: int)
    | Standard(player: int)
    | WorkAreaMark
    | ConstructionMarker(value: int)
    | MaterialStack(material: Material, count: nat)
    | Building

  /**
   * A map object. `blockedTiles` is what getBlockedTiles() returns; the two
   * counters record how often the manager called changeState() and cutOff()
   * on it, whose internal effects belong to the object classes.
   */
  datatype MapObject = MapObject(
    objectType: ObjectType,
    pos: Pos,
    blockedTiles: seq<Offset>,
    variant: Variant,
    stateChanges: nat,
    cutOffs: nat)

  /** A tile: its landscape, its blocked flag and at most one object per object type. */
  datatype Tile = Tile(landscape: Landscape, blocked: bool, slots: map<ObjectType, ObjId>)

  /** The grid: a coordinate is in range exactly when it is a key. */
  type Grid = map<Pos, Tile>

  datatype World = World(grid: Grid, objects: map<ObjId, MapObject>, nextId: nat)

  // ---------------------------------------------------------------------------
  // Tiles covered by a footprint

  datatype TileUpdate = SetBlocked(blocked: bool) | SetLandscape(landscape: Landscape)

  function Apply(u: TileUpdate, t: Tile): Tile
  {
    match u
    case SetBlocked(b) => t.(blocked := b)
    case SetLandscape(l) => t.(landscape := l)
  }

  /** The tiles a sequence of offsets designates from an anchor. */
  function Covered(pos: Pos, offs: seq<Offset>): set<Pos>
  {
    set i | 0 <= i < |offs| :: Shift(pos, offs[i])
  }

  lemma CoveredSnoc(pos: Pos, offs: seq<Offset>)
    requires offs != []
    ensures Covered(pos, offs) == Covered(pos, offs[..|offs| - 1]) + {Shift(pos, offs[|offs| - 1])}
  {
    var init := offs[..|offs| - 1];
    forall p | p in Covered(pos, offs)
      ensures p in Covered(pos, init) + {Shift(pos, offs[|offs| - 1])}
    {
      var i :| 0 <= i < |offs| && p == Shift(pos, offs[i]);
      if i < |offs| - 1 {
        assert init[i] == offs[i];
      }
    }
    forall p | p in Covered(pos, init)
      ensures p in Covered(pos, offs)
    {
      var i :| 0 <= i < |init| && p == Shift(pos, init[i]);
      assert offs[i] == init[i];
    }
  }

  /**
   * The loop of setBlockedForObject (and of plantCorn's landscape painting):
   * every in-range tile designated by `offs` is updated, every other tile is
   * left as it was.
   */
  function UpdateCovered(g: Grid, pos: Pos, offs: seq<Offset>, u: TileUpdate): (r: Grid)
    ensures r.Keys == g.Keys
    ensures forall p :: p in g ==> r[p] == if p in Covered(pos, offs) then Apply(u, g[p]) else g[p]
    decreases |offs|
  {
    if offs == [] then g
    else
      var r0 := UpdateCovered(g, pos, offs[..|offs| - 1], u);
      var p := Shift(pos, offs[|offs| - 1]);
      CoveredSnoc(pos, offs);
      if p in r0 then r0[p := Apply(u, r0[p])] else r0
  }

  /** One more offset of a footprint updates one more tile, if it is in range. */
  lemma UpdateCoveredStep(g: Grid, pos: Pos, offs: seq<Offset>, i: nat, u: TileUpdate)
    requires i < |offs|
    ensures var r0 := UpdateCovered(g, pos, offs[..i], u);
      var p := Shift(pos, offs[i]);
      UpdateCovered(g, pos, offs[..i + 1], u) == if p in r0 then r0[p := Apply(u, r0[p])] else r0
  {
    assert offs[..i + 1][..i] == offs[..i];
  }

  /** Every footprint tile exists and is not blocked: the check at the head of addMapObject. */
  predicate Free(g: Grid, pos: Pos, fp: seq<Offset>)
  {
    forall i :: 0 <= i < |fp| ==> Shift(pos, fp[i]) in g && !g[Shift(pos, fp[i])].blocked
  }

  lemma FreeCovered(g: Grid, pos: Pos, fp: seq<Offset>, p: Pos)
    requires Free(g, pos, fp) && p in Covered(pos, fp)
    ensures p in g && !g[p].blocked
  {
  }

  /** The tile at `pos` stores the object `id` under the type `t`. */
  predicate Holds(g: Grid, pos: Pos, t: ObjectType, id: ObjId)
  {
    pos in g && t in g[pos].slots && g[pos].slots[t] == id
  }

  /** tile.addMapObject: the object takes the slot of its type. */
  function Attach(g: Grid, pos: Pos, t: ObjectType, id: ObjId): (r: Grid)
    requires pos in g
    ensures r.Keys == g.Keys && Holds(r, pos, t, id)
    ensures r[pos].blocked == g[pos].blocked && r[pos].landscape == g[pos].landscape
    ensures r[pos].slots - {t} == g[pos].slots - {t}
    ensures forall p :: p in g && p != pos ==> r[p] == g[p]
  {
    g[pos := g[pos].(slots := g[pos].slots[t := id])]
  }

  /** tile.removeMapObjectType: the slot of the type is emptied. */
  function Detach(g: Grid, pos: Pos, t: ObjectType): (r: Grid)
    requires pos in g
    ensures r.Keys == g.Keys && t !in r[pos].slots
    ensures r[pos].blocked == g[pos].blocked && r[pos].landscape == g[pos].landscape
    ensures r[pos].slots.Keys == g[pos].slots.Keys - {t}
    ensures forall k :: k in r[pos].slots ==> r[pos].slots[k] == g[pos].slots[k]
    ensures forall p :: p in g && p != pos ==> r[p] == g[p]
  {
    g[pos := g[pos].(slots := g[pos].slots - {t})]
  }

  // ---------------------------------------------------------------------------
  // addMapObject, removeMapObject, removeMapObjectType

  /**
   * addMapObject(pos, o): all or nothing. When every footprint tile exists
   * and is unblocked the anchor tile stores the object and every footprint
   * tile becomes blocked; otherwise nothing changes.
   */
  function AfterAdd(g: Grid, pos: Pos, id: ObjId, o: MapObject): (r: Grid)
    requires Free(g, pos, o.blockedTiles) ==> pos in g
    ensures r.Keys == g.Keys
    ensures !Free(g, pos, o.blockedTiles) ==> r == g
    ensures Free(g, pos, o.blockedTiles) ==>
      Holds(r, pos, o.objectType, id)
      && (forall p :: p in Covered(pos, o.blockedTiles) ==> p in r && r[p].blocked)
      && (forall p :: p in g ==>
            r[p].landscape == g[p].landscape
            && r[p].slots == (if p == pos then g[p].slots[o.objectType := id] else g[p].slots)
            && r[p].blocked == (p in Covered(pos, o.blockedTiles) || g[p].blocked))
  {
    if Free(g, pos, o.blockedTiles) then
      UpdateCovered(Attach(g, pos, o.objectType, id), pos, o.blockedTiles, SetBlocked(true))
    else
      g
  }

  /** The tile-level effect of removing an object held at `pos` under `t`. */
  function Unplace(g: Grid, pos: Pos, t: ObjectType, fp: seq<Offset>): Grid
    requires pos in g
  {
    UpdateCovered(Detach(g, pos, t), pos, fp, SetBlocked(false))
  }

  /**
   * removeMapObject(pos, o): when the tile at `pos` holds the object, it is
   * detached and every tile of its footprint becomes unblocked; otherwise
   * (the object was never placed or is already gone) nothing changes.
   */
  function AfterRemove(g: Grid, pos: Pos, id: ObjId, o: MapObject): (r: Grid)
    requires pos in g
    ensures r.Keys == g.Keys
    ensures !Holds(g, pos, o.objectType, id) ==> r == g
    ensures Holds(g, pos, o.objectType, id) ==>
      !Holds(r, pos, o.objectType, id)
      && (forall p :: p in g ==>
            r[p].landscape == g[p].landscape
            && r[p].slots == (if p == pos then g[p].slots - {o.objectType} else g[p].slots)
            && r[p].blocked == (p !in Covered(pos, o.blockedTiles) && g[p].blocked))
  {
    if Holds(g, pos, o.objectType, id) then Unplace(g, pos, o.objectType, o.blockedTiles) else g
  }

  /**
   * removeMapObjectType(pos, t): whatever object the tile stores under `t`
   * is detached and its footprint unblocked; with no such object nothing
   * changes.
   */
  function AfterRemoveType(g: Grid, objects: map<ObjId, MapObject>, pos: Pos, t: ObjectType): (r: Grid)
    requires pos in g
    requires t in g[pos].slots ==> g[pos].slots[t] in objects
    ensures r.Keys == g.Keys
    ensures t !in g[pos].slots ==> r == g
    ensures t in g[pos].slots ==>
      t !in r[pos].slots
      && (forall p :: p in g ==>
            r[p].landscape == g[p].landscape
            && r[p].slots == (if p == pos then g[p].slots - {t} else g[p].slots)
            && r[p].blocked ==
                 (p !in Covered(pos, objects[g[pos].slots[t]].blockedTiles) && g[p].blocked))
  {
    if t in g[pos].slots then Unplace(g, pos, t, objects[g[pos].slots[t]].blockedTiles) else g
  }

  /** Unblocking a footprint whose tiles are all unblocked already changes nothing. */
  lemma UnblockFreeIsIdentity(g: Grid, pos: Pos, fp: seq<Offset>)
    requires Free(g, pos, fp)
    ensures UpdateCovered(g, pos, fp, SetBlocked(false)) == g
  {
    var r := UpdateCovered(g, pos, fp, SetBlocked(false));
    forall p | p in g
      ensures r[p] == g[p]
    {
      if p in Covered(pos, fp) {
        FreeCovered(g, pos, fp, p);
      }
    }
  }

  /** Emptying a slot that was just filled gives back the grid before. */
  lemma DetachAfterAttach(g: Grid, pos: Pos, t: ObjectType, id: ObjId)
    requires pos in g && t !in g[pos].slots
    ensures Detach(Attach(g, pos, t, id), pos, t) == g
  {
    assert g[pos].slots[t := id] - {t} == g[pos].slots;
  }

  /**
   * Blocking symmetry: placing an object on a free footprint and then
   * removing it gives back exactly the grid before, whatever its footprint.
   */
  lemma {:induction false} RemoveUndoesAdd(g: Grid, pos: Pos, id: ObjId, o: MapObject)
    requires pos in g && Free(g, pos, o.blockedTiles) && o.objectType !in g[pos].slots
    ensures Holds(AfterAdd(g, pos, id, o), pos, o.objectType, id)
    ensures AfterRemove(AfterAdd(g, pos, id, o), pos, id, o) == g
  {
    var g1 := AfterAdd(g, pos, id, o);
    var g2 := AfterRemove(g1, pos, id, o);
    forall p | p in g
      ensures g2[p] == g[p]
    {
      if p in Covered(pos, o.blockedTiles) {
        FreeCovered(g, pos, o.blockedTiles, p);
      }
      if p == pos {
        assert g[p].slots[o.objectType := id] - {o.objectType} == g[p].slots;
      }
    }
  }

  /** A second removal of the same object changes nothing: stale removals are harmless. */
  lemma RemoveIsIdempotent(g: Grid, pos: Pos, id: ObjId, o: MapObject)
    requires pos in g
    ensures AfterRemove(AfterRemove(g, pos, id, o), pos, id, o) == AfterRemove(g, pos, id, o)
  {
  }

  // ---------------------------------------------------------------------------
  // Consistency of tiles, objects and stacks

  /** Every object a tile stores exists, has the type of its slot and that tile as position. */
  predicate SlotsConsistent(w: World)
  {
    forall p, t :: p in w.grid && t in w.grid[p].slots ==>
      w.grid[p].slots[t] in w.objects
      && w.objects[w.grid[p].slots[t]].objectType == t
      && w.objects[w.grid[p].slots[t]].pos == p
  }

  /**
   * The invariant of the manager's objects: tiles and objects agree, fresh
   * identifiers are unused, every material stack holds between 0 and
   * `capacity` units, and a stack that a tile stores is never empty.
   */
  predicate WellFormed(w: World, capacity: nat)
  {
    SlotsConsistent(w)
    && (forall id :: id in w.objects ==> id < w.nextId)
    && (forall id :: id in w.objects && w.objects[id].variant.MaterialStack? ==>
          w.objects[id].variant.count <= capacity)
    && HeldStacksNonEmpty(w)
  }

  /** A material stack that some tile stores holds at least one unit. */
  predicate HeldStacksNonEmpty(w: World)
  {
    forall p, t ::
      (p in w.grid && t in w.grid[p].slots && w.grid[p].slots[t] in w.objects
       && w.objects[w.grid[p].slots[t]].variant.MaterialStack?)
      ==> w.objects[w.grid[p].slots[t]].variant.count >= 1
  }

  /** Grid changes that leave every tile's slots alone keep the invariant. */
  lemma SameSlotsKeepWellFormed(w: World, g: Grid, capacity: nat)
    requires WellFormed(w, capacity)
    requires g.Keys == w.grid.Keys && forall p :: p in g ==> g[p].slots == w.grid[p].slots
    ensures WellFormed(w.(grid := g), capacity)
  {
  }

  /** A new object, not yet stored by any tile, keeps the invariant. */
  lemma NewObjectKeepsWellFormed(w: World, o: MapObject, capacity: nat)
    requires WellFormed(w, capacity)
    requires o.variant.MaterialStack? ==> o.variant.count <= capacity
    ensures WellFormed(World(w.grid, w.objects[w.nextId := o], w.nextId + 1), capacity)
  {
  }

  /** Placing an object at its own position keeps the invariant. */
  lemma AddKeepsWellFormed(w: World, pos: Pos, id: ObjId, capacity: nat)
    requires WellFormed(w, capacity)
    requires id in w.objects && w.objects[id].pos == pos
    requires w.objects[id].variant.MaterialStack? ==> w.objects[id].variant.count >= 1
    requires Free(w.grid, pos, w.objects[id].blockedTiles) ==> pos in w.grid
    ensures WellFormed(w.(grid := AfterAdd(w.grid, pos, id, w.objects[id])), capacity)
  {
    var o := w.objects[id];
    var w1 := w.(grid := AfterAdd(w.grid, pos, id, o));
    if Free(w.grid, pos, o.blockedTiles) {
      forall p, t | p in w1.grid && t in w1.grid[p].slots
        ensures w1.grid[p].slots[t] in w1.objects
        ensures w1.objects[w1.grid[p].slots[t]].objectType == t
        ensures w1.objects[w1.grid[p].slots[t]].pos == p
        ensures w1.objects[w1.grid[p].slots[t]].variant.MaterialStack? ==>
                  w1.objects[w1.grid[p].slots[t]].variant.count >= 1
      {
        if p == pos && t == o.objectType {
          assert w1.grid[p].slots[t] == id;
        } else {
          assert t in w.grid[p].slots && w1.grid[p].slots[t] == w.grid[p].slots[t];
        }
      }
    }
  }

  /** A grid change that only empties slots keeps the invariant. */
  lemma FewerSlotsKeepWellFormed(w: World, g: Grid, capacity: nat)
    requires WellFormed(w, capacity) && g.Keys == w.grid.Keys
    requires forall p :: p in g ==> g[p].slots.Keys <= w.grid[p].slots.Keys
    requires forall p, t :: p in g && t in g[p].slots ==> g[p].slots[t] == w.grid[p].slots[t]
    ensures WellFormed(w.(grid := g), capacity)
  {
    var w1 := w.(grid := g);
    forall p, t | p in g && t in g[p].slots
      ensures g[p].slots[t] in w.objects
      ensures w.objects[g[p].slots[t]].objectType == t && w.objects[g[p].slots[t]].pos == p
      ensures w.objects[g[p].slots[t]].variant.MaterialStack? ==> w.objects[g[p].slots[t]].variant.count >= 1
    {
      assert t in w.grid[p].slots;
    }
  }

  /** Detaching an object keeps the invariant. */
  lemma RemoveKeepsWellFormed(w: World, pos: Pos, id: ObjId, capacity: nat)
    requires WellFormed(w, capacity) && pos in w.grid && id in w.objects
    ensures WellFormed(w.(grid := AfterRemove(w.grid, pos, id, w.objects[id])), capacity)
  {
    FewerSlotsKeepWellFormed(w, AfterRemove(w.grid, pos, id, w.objects[id]), capacity);
  }

  /** Detaching by type keeps the invariant. */
  lemma RemoveTypeKeepsWellFormed(w: World, pos: Pos, t: ObjectType, capacity: nat)
    requires WellFormed(w, capacity) && pos in w.grid
    ensures WellFormed(w.(grid := AfterRemoveType(w.grid, w.objects, pos, t)), capacity)
  {
    if t in w.grid[pos].slots {
      RemoveTypeIsRemove(w.grid, w.objects, pos, w.grid[pos].slots[t]);
      RemoveKeepsWellFormed(w, pos, w.grid[pos].slots[t], capacity);
    }
  }

  /** Emptying a slot without touching any blocked flag keeps the invariant. */
  lemma DetachKeepsWellFormed(w: World, pos: Pos, t: ObjectType, capacity: nat)
    requires WellFormed(w, capacity) && pos in w.grid
    ensures WellFormed(w.(grid := Detach(w.grid, pos, t)), capacity)
  {
    FewerSlotsKeepWellFormed(w, Detach(w.grid, pos, t), capacity);
  }

  /** removeMapObjectType of the type an object is stored under is removeMapObject of that object. */
  lemma RemoveTypeIsRemove(g: Grid, objects: map<ObjId, MapObject>, pos: Pos, id: ObjId)
    requires id in objects && Holds(g, pos, objects[id].objectType, id)
    ensures AfterRemoveType(g, objects, pos, objects[id].objectType) == AfterRemove(g, pos, id, objects[id])
  {
  }

  // ---------------------------------------------------------------------------
  // Material stacks: canPush, pushMaterial, canPop, popMaterial

  datatype Step = Step(ok: bool, world: World)

  /** StackMapObject.isFull. */
  predicate IsFull(count: nat, capacity: nat) { count >= capacity }

  /** StackMapObject.isEmpty. */
  predicate IsEmpty(count: nat) { count == 0 }

  /** The stack object a tile stores, if any. */
  function StackAt(w: World, pos: Pos): Option<ObjId>
    requires pos in w.grid
  {
    if StackObject in w.grid[pos].slots then Some(w.grid[pos].slots[StackObject]) else None
  }

  /** What the Java code's cast to StackMapObject demands of the STACK_OBJECT slot. */
  predicate StackTyped(w: World, pos: Pos)
    requires pos in w.grid
  {
    StackAt(w, pos).Some? ==>
      StackAt(w, pos).value in w.objects
      && w.objects[StackAt(w, pos).value].objectType == StackObject
      && w.objects[StackAt(w, pos).value].variant.MaterialStack?
  }

  /** The number of units stacked on a tile; 0 without a stack. */
  function StackCount(w: World, pos: Pos): nat
    requires pos in w.grid && StackTyped(w, pos)
  {
    match StackAt(w, pos)
    case None => 0
    case Some(id) => w.objects[id].variant.count
  }

  /** canPush: there is no stack, or one of the same material that is not full. */
  predicate CanPushAt(w: World, pos: Pos, m: Material, capacity: nat)
    requires pos in w.grid && StackTyped(w, pos)
  {
    match StackAt(w, pos)
    case None => true
    case Some(id) =>
      w.objects[id].variant.material == m && !IsFull(w.objects[id].variant.count, capacity)
  }

  /** canPop: there is a stack of that material and it is not empty. */
  predicate CanPopAt(w: World, pos: Pos, m: Material)
    requires pos in w.grid && StackTyped(w, pos)
  {
    match StackAt(w, pos)
    case None => false
    case Some(id) =>
      w.objects[id].variant.material == m && !IsEmpty(w.objects[id].variant.count)
  }

  /**
   * pushMaterial: without a stack a new one of one unit is stored on the tile
   * (without any blocking check); with a matching stack that is not full one
   * unit is added; otherwise nothing changes.
   */
  function AfterPush(w: World, pos: Pos, m: Material, capacity: nat, stackTiles: seq<Offset>): (r: Step)
    requires pos in w.grid && StackTyped(w, pos)
    requires w.nextId !in w.objects
    ensures r.ok == CanPushAt(w, pos, m, capacity)
    ensures !r.ok ==> r.world == w
    ensures r.ok ==>
      r.world.grid.Keys == w.grid.Keys && StackTyped(r.world, pos)
      && StackAt(r.world, pos).Some?
      && r.world.objects[StackAt(r.world, pos).value].variant.material == m
      && StackCount(r.world, pos) == StackCount(w, pos) + 1
      && (forall p :: p in w.grid ==> r.world.grid[p].blocked == w.grid[p].blocked)
    ensures r.ok ==>
      (forall p :: p in w.grid && p != pos ==> r.world.grid[p] == w.grid[p])
      && r.world.grid[pos].landscape == w.grid[pos].landscape
      && r.world.grid[pos].slots - {StackObject} == w.grid[pos].slots - {StackObject}
      && (forall id :: id in w.objects && StackAt(w, pos) != Some(id) ==>
            id in r.world.objects && r.world.objects[id] == w.objects[id])
    ensures r.ok && StackAt(w, pos).Some? ==>
      var id := StackAt(w, pos).value;
      r.world.grid == w.grid && r.world.nextId == w.nextId && r.world.objects.Keys == w.objects.Keys
      && r.world.objects[id] == w.objects[id].(variant := MaterialStack(m, w.objects[id].variant.count + 1))
    ensures r.ok && StackAt(w, pos).None? ==>
      StackAt(r.world, pos) == Some(w.nextId) && r.world.nextId == w.nextId + 1
      && r.world.objects.Keys == w.objects.Keys + {w.nextId}
      && r.world.objects[w.nextId] == MapObject(StackObject, pos, stackTiles, MaterialStack(m, 1), 0, 0)
  {
    match StackAt(w, pos)
    case None =>
      var id := w.nextId;
      var s := MapObject(StackObject, pos, stackTiles, MaterialStack(m, 1), 0, 0);
      Step(true, World(Attach(w.grid, pos, StackObject, id), w.objects[id := s], w.nextId + 1))
    case Some(id) =>
      var s := w.objects[id];
      if s.variant.material != m || IsFull(s.variant.count, capacity) then Step(false, w)
      else Step(true, w.(objects := w.objects[id := s.(variant := s.variant.(count := s.variant.count + 1))]))
  }

  /**
   * popMaterial: with a matching stack that is not empty one unit is taken;
   * a stack that becomes empty is removed from its tile through
   * removeMapObject; otherwise nothing changes.
   */
  function AfterPop(w: World, pos: Pos, m: Material): (r: Step)
    requires pos in w.grid && StackTyped(w, pos)
    ensures r.ok == CanPopAt(w, pos, m)
    ensures !r.ok ==> r.world == w
    ensures r.ok ==>
      r.world.grid.Keys == w.grid.Keys && StackTyped(r.world, pos)
      && StackCount(r.world, pos) == StackCount(w, pos) - 1
      && (StackAt(r.world, pos).None? <==> StackCount(w, pos) == 1)
    ensures r.ok ==>
      var id := StackAt(w, pos).value;
      var o := w.objects[id];
      r.world.nextId == w.nextId && r.world.objects.Keys == w.objects.Keys
      && r.world.objects[id] == o.(variant := MaterialStack(m, o.variant.count - 1))
      && (forall other :: other in w.objects && other != id ==> r.world.objects[other] == w.objects[other])
      && (o.variant.count > 1 ==> r.world.grid == w.grid)
      && (o.variant.count == 1 ==>
            forall p :: p in w.grid ==>
              r.world.grid[p].landscape == w.grid[p].landscape
              && r.world.grid[p].slots == (if p == pos then w.grid[p].slots - {StackObject} else w.grid[p].slots)
              && r.world.grid[p].blocked == (p !in Covered(pos, o.blockedTiles) && w.grid[p].blocked))
  {
    match StackAt(w, pos)
    case None => Step(false, w)
    case Some(id) =>
      var s := w.objects[id];
      if s.variant.material != m || IsEmpty(s.variant.count) then Step(false, w)
      else
        var s' := s.(variant := s.variant.(count := s.variant.count - 1));
        var objects := w.objects[id := s'];
        if IsEmpty(s'.variant.count) then Step(true, World(AfterRemove(w.grid, pos, id, s'), objects, w.nextId))
        else Step(true, w.(objects := objects))
  }

  /** Pushing never overfills a stack and keeps the invariant. */
  lemma PushKeepsWellFormed(w: World, pos: Pos, m: Material, capacity: nat, stackTiles: seq<Offset>)
    requires WellFormed(w, capacity) && pos in w.grid && StackTyped(w, pos) && capacity >= 1
    ensures WellFormed(AfterPush(w, pos, m, capacity, stackTiles).world, capacity)
  {
    match StackAt(w, pos)
    case None =>
      NewStackKeepsWellFormed(w, pos, MapObject(StackObject, pos, stackTiles, MaterialStack(m, 1), 0, 0), capacity);
    case Some(id) =>
  }

  /** A new stack of at least one unit stored on an empty stack slot keeps the invariant. */
  lemma NewStackKeepsWellFormed(w: World, pos: Pos, s: MapObject, capacity: nat)
    requires WellFormed(w, capacity) && pos in w.grid && StackObject !in w.grid[pos].slots
    requires s.objectType == StackObject && s.pos == pos
    requires s.variant.MaterialStack? && 1 <= s.variant.count <= capacity
    ensures WellFormed(World(Attach(w.grid, pos, StackObject, w.nextId), w.objects[w.nextId := s], w.nextId + 1), capacity)
  {
    var w1 := World(Attach(w.grid, pos, StackObject, w.nextId), w.objects[w.nextId := s], w.nextId + 1);
    forall p, t | p in w1.grid && t in w1.grid[p].slots
      ensures w1.grid[p].slots[t] in w1.objects
      ensures w1.objects[w1.grid[p].slots[t]].objectType == t
      ensures w1.objects[w1.grid[p].slots[t]].pos == p
      ensures w1.objects[w1.grid[p].slots[t]].variant.MaterialStack? ==>
                w1.objects[w1.grid[p].slots[t]].variant.count >= 1
    {
      if p != pos || t != StackObject {
        assert w1.grid[p].slots[t] == w.grid[p].slots[t];
      }
    }
  }

  /** Popping never takes a stack below zero and keeps the invariant. */
  lemma PopKeepsWellFormed(w: World, pos: Pos, m: Material, capacity: nat)
    requires WellFormed(w, capacity) && pos in w.grid && StackTyped(w, pos)
    ensures WellFormed(AfterPop(w, pos, m).world, capacity)
  {
    match StackAt(w, pos)
    case None =>
    case Some(id) =>
      var s := w.objects[id];
      if s.variant.material == m && !IsEmpty(s.variant.count) {
        var s' := s.(variant := s.variant.(count := s.variant.count - 1));
        if IsEmpty(s'.variant.count) {
          EmptiedStackKeepsWellFormed(w, pos, id, s', capacity);
        } else {
          SameShapeKeepsWellFormed(w, id, s', capacity);
        }
      }
  }

  /** An emptied stack taken off its tile (popMaterial's last unit) keeps the invariant. */
  lemma EmptiedStackKeepsWellFormed(w: World, pos: Pos, id: ObjId, o: MapObject, capacity: nat)
    requires WellFormed(w, capacity) && pos in w.grid && Holds(w.grid, pos, StackObject, id)
    requires o.objectType == StackObject && o.pos == pos && o.variant.MaterialStack? && o.variant.count == 0
    ensures WellFormed(World(AfterRemove(w.grid, pos, id, o), w.objects[id := o], w.nextId), capacity)
  {
    var w2 := World(AfterRemove(w.grid, pos, id, o), w.objects[id := o], w.nextId);
    forall p, t | p in w2.grid && t in w2.grid[p].slots
      ensures w2.grid[p].slots[t] in w2.objects
      ensures w2.objects[w2.grid[p].slots[t]].objectType == t
      ensures w2.objects[w2.grid[p].slots[t]].pos == p
      ensures w2.objects[w2.grid[p].slots[t]].variant.MaterialStack? ==>
                w2.objects[w2.grid[p].slots[t]].variant.count >= 1
    {
      assert t in w.grid[p].slots && w2.grid[p].slots[t] == w.grid[p].slots[t];
      assert w.objects[w.grid[p].slots[t]].pos == p && w.objects[w.grid[p].slots[t]].objectType == t;
      assert w.grid[p].slots[t] != id;
    }
  }

  /** Changing an object's counters or contents, but not its type or position, keeps the invariant. */
  lemma SameShapeKeepsWellFormed(w: World, id: ObjId, o: MapObject, capacity: nat)
    requires WellFormed(w, capacity) && id in w.objects
    requires o.objectType == w.objects[id].objectType && o.pos == w.objects[id].pos
    requires o.variant.MaterialStack? ==> 1 <= o.variant.count <= capacity
    ensures WellFormed(w.(objects := w.objects[id := o]), capacity)
  {
    var w1 := w.(objects := w.objects[id := o]);
    forall p, t | p in w1.grid && t in w1.grid[p].slots
      ensures w1.grid[p].slots[t] in w1.objects
      ensures w1.objects[w1.grid[p].slots[t]].objectType == t
      ensures w1.objects[w1.grid[p].slots[t]].pos == p
      ensures w1.objects[w1.grid[p].slots[t]].variant.MaterialStack? ==>
                w1.objects[w1.grid[p].slots[t]].variant.count >= 1
    {
    }
  }

  /**
   * Pushing a unit and popping it again gives back the grid and every object
   * that existed before; a stack that was created by the push is removed
   * again by the pop (provided its own footprint was unblocked).
   */
  lemma {:induction false} PopUndoesPush(w: World, pos: Pos, m: Material, capacity: nat, stackTiles: seq<Offset>)
    requires WellFormed(w, capacity) && pos in w.grid && StackTyped(w, pos)
    requires CanPushAt(w, pos, m, capacity)
    requires StackAt(w, pos).None? ==> Free(w.grid, pos, stackTiles)
    ensures var w1 := AfterPush(w, pos, m, capacity, stackTiles).world;
      pos in w1.grid && StackTyped(w1, pos) && CanPopAt(w1, pos, m)
      && var w2 := AfterPop(w1, pos, m).world;
         w2.grid == w.grid
         && (forall id :: id in w.objects ==> id in w2.objects && w2.objects[id] == w.objects[id])
  {
    if StackAt(w, pos).None? {
      PopUndoesNewStack(w, pos, m, capacity, stackTiles);
    } else {
      PopUndoesIncrement(w, pos, m, capacity, stackTiles);
    }
  }

  /** The case of PopUndoesPush where the push created the stack. */
  lemma PopUndoesNewStack(w: World, pos: Pos, m: Material, capacity: nat, stackTiles: seq<Offset>)
    requires WellFormed(w, capacity) && pos in w.grid && StackTyped(w, pos)
    requires StackAt(w, pos).None? && Free(w.grid, pos, stackTiles)
    ensures var w1 := AfterPush(w, pos, m, capacity, stackTiles).world;
      pos in w1.grid && StackTyped(w1, pos) && CanPopAt(w1, pos, m)
      && var w2 := AfterPop(w1, pos, m).world;
         w2.grid == w.grid
         && (forall id :: id in w.objects ==> id in w2.objects && w2.objects[id] == w.objects[id])
  {
    var w1 := AfterPush(w, pos, m, capacity, stackTiles).world;
    var id := w.nextId;
    assert id !in w.objects;
    assert w1.grid == Attach(w.grid, pos, StackObject, id);
    var w2 := AfterPop(w1, pos, m).world;
    assert w2.grid == Unplace(w1.grid, pos, StackObject, stackTiles);
    DetachAfterAttach(w.grid, pos, StackObject, id);
    UnblockFreeIsIdentity(w.grid, pos, stackTiles);
  }

  /** The case of PopUndoesPush where the push added a unit to an existing stack. */
  lemma PopUndoesIncrement(w: World, pos: Pos, m: Material, capacity: nat, stackTiles: seq<Offset>)
    requires WellFormed(w, capacity) && pos in w.grid && StackTyped(w, pos)
    requires StackAt(w, pos).Some? && CanPushAt(w, pos, m, capacity)
    ensures var w1 := AfterPush(w, pos, m, capacity, stackTiles).world;
      pos in w1.grid && StackTyped(w1, pos) && CanPopAt(w1, pos, m)
      && var w2 := AfterPop(w1, pos, m).world;
         w2.grid == w.grid
         && (forall id :: id in w.objects ==> id in w2.objects && w2.objects[id] == w.objects[id])
  {
    var id := StackAt(w, pos).value;
    var s := w.objects[id];
    assert s.variant.count >= 1;
    assert s.variant == MaterialStack(m, s.variant.count);
  }
}
