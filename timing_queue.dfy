/**
 * The timing queue of MapObjectsManager: TimeEvent, its ordering, and the
 * specification of what firing a prefix of the queue does to the map objects.
 */
module TimingQueue {
  import opened JavaInts
  import opened MapObjects

  /** A scheduled event: the object it concerns, its absolute time in milliseconds, and its action. */
  datatype TimeEvent = TimeEvent(subject: ObjId, eventTime: int, shouldRemove: bool)

  /** TimeEvent.isOutDated: strictly past, so an event is deferred on the tick of its own time. */
  predicate IsOutDated(e: TimeEvent, gameTime: int)
  {
    gameTime > e.eventTime
  }

  /**
   * The TimeEvent constructor's `(int) (gameTime + duration * 1000)`, for a
   * duration already in milliseconds: Java's cast of a too large floating
   * point value saturates, so the time never passes INT_MAX.
   */
  function EventTime(now: int, durationMs: nat): (t: int)
    requires 0 <= now <= INT_MAX
    ensures now <= t <= INT_MAX
    ensures t < INT_MAX ==> t == now + durationMs
    ensures now + durationMs <= INT_MAX ==> t == now + durationMs
  {
    if now + durationMs > INT_MAX then INT_MAX else now + durationMs
  }

  /** A longer duration never gives an earlier event. */
  lemma EventTimeMonotone(now: int, d1: nat, d2: nat)
    requires 0 <= now <= INT_MAX && d1 <= d2
    ensures EventTime(now, d1) <= EventTime(now, d2)
  {
  }

  /** TimeEvent.compareTo: the difference of the two times in Java `int` arithmetic. */
  function CompareTo(a: TimeEvent, b: TimeEvent): int
  {
    WrapInt(a.eventTime - b.eventTime)
  }

  /**
   * For event times that are non-negative Java ints, the subtracting
   * comparator never wraps, so the queue's order is the order of eventTime.
   */
  lemma CompareToOrdersByTime(a: TimeEvent, b: TimeEvent)
    requires 0 <= a.eventTime <= INT_MAX && 0 <= b.eventTime <= INT_MAX
    ensures CompareTo(a, b) < 0 <==> a.eventTime < b.eventTime
    ensures CompareTo(a, b) == 0 <==> a.eventTime == b.eventTime
    ensures CompareTo(a, b) > 0 <==> a.eventTime > b.eventTime
  {
  }

  /** Outside that range the comparator does wrap: a later event can compare as earlier. */
  lemma CompareToWrapsForDistantTimes()
    ensures CompareTo(TimeEvent(0, INT_MAX, false), TimeEvent(0, -1, false)) < 0
  {
  }

  /** The queue, as a sequence, in non-decreasing eventTime order. */
  predicate Sorted(q: seq<TimeEvent>)
  {
    forall i, j :: 0 <= i < j < |q| ==> q[i].eventTime <= q[j].eventTime
  }

  /**
   * PriorityQueue.offer/add: the queue gains exactly the new event and stays
   * ordered. Among equal times the new event goes last, one of the orders a
   * PriorityQueue may produce.
   */
  function Enqueue(q: seq<TimeEvent>, e: TimeEvent): (r: seq<TimeEvent>)
    requires Sorted(q)
    ensures Sorted(r)
    ensures multiset(r) == multiset(q) + multiset{e}
    ensures |r| == |q| + 1
  {
    if q == [] || e.eventTime < q[0].eventTime then
      ConsSorted(e, q);
      [e] + q
    else
      var rest := Enqueue(q[1..], e);
      assert q == [q[0]] + q[1..];
      HeadBoundsRest(q, e, rest);
      ConsSorted(q[0], rest);
      [q[0]] + rest
  }

  /** Prepending an event no later than every other keeps a queue ordered. */
  lemma ConsSorted(x: TimeEvent, q: seq<TimeEvent>)
    requires Sorted(q)
    requires forall k :: 0 <= k < |q| ==> x.eventTime <= q[k].eventTime
    ensures Sorted([x] + q)
  {
  }

  /** The head of an ordered queue is no later than the events of its tail with a later event added. */
  lemma HeadBoundsRest(q: seq<TimeEvent>, e: TimeEvent, rest: seq<TimeEvent>)
    requires Sorted(q) && q != [] && q[0].eventTime <= e.eventTime
    requires multiset(rest) == multiset(q[1..]) + multiset{e}
    ensures forall k :: 0 <= k < |rest| ==> q[0].eventTime <= rest[k].eventTime
  {
    forall k | 0 <= k < |rest|
      ensures q[0].eventTime <= rest[k].eventTime
    {
      assert rest[k] in multiset(rest);
      if rest[k] != e {
        assert rest[k] in multiset(q[1..]);
        var j :| 0 <= j < |q[1..]| && q[1..][j] == rest[k];
        assert q[j + 1] == rest[k];
      }
    }
  }

  /**
   * The number of events timerEvent polls: the length of the longest prefix
   * of outdated events. The event after that prefix, if any, is not outdated.
   */
  function DueCount(q: seq<TimeEvent>, gameTime: int): (n: nat)
    ensures n <= |q|
    ensures forall i :: 0 <= i < n ==> IsOutDated(q[i], gameTime)
    ensures n < |q| ==> !IsOutDated(q[n], gameTime)
  {
    if q == [] || !IsOutDated(q[0], gameTime) then 0 else 1 + DueCount(q[1..], gameTime)
  }

  /**
   * On an ordered queue every event left behind is due at or after the game
   * time: no event that is already outdated stays in the queue.
   */
  lemma LeftEventsAreNotDue(q: seq<TimeEvent>, gameTime: int)
    requires Sorted(q)
    ensures forall j :: DueCount(q, gameTime) <= j < |q| ==> q[j].eventTime >= gameTime
  {
  }

  /** A second tick at the same game time fires nothing. */
  lemma SecondTickFiresNothing(q: seq<TimeEvent>, gameTime: int)
    ensures DueCount(q[DueCount(q, gameTime)..], gameTime) == 0
  {
  }

  /** A later tick fires at least what an earlier one would have fired. */
  lemma DueCountMonotone(q: seq<TimeEvent>, t1: int, t2: int)
    requires Sorted(q) && t1 <= t2
    ensures DueCount(q, t1) <= DueCount(q, t2)
  {
  }

  /** An event at time T is not fired by a tick at T, and is fired by a tick at T + 1. */
  lemma FiresOneTickLate(e: TimeEvent)
    ensures DueCount([e], e.eventTime) == 0
    ensures DueCount([e], e.eventTime + 1) == 1
  {
  }

  // ---------------------------------------------------------------------------
  // Firing events

  /** Every event concerns an existing object, and a removal one placed inside the grid. */
  predicate Fireable(w: World, es: seq<TimeEvent>)
  {
    forall i :: 0 <= i < |es| ==>
      es[i].subject in w.objects
      && (es[i].shouldRemove ==> w.objects[es[i].subject].pos in w.grid)
  }

  /** Firing changes neither the grid's extent, nor the set of objects, nor any object's identity. */
  predicate SameFrame(w: World, r: World)
  {
    r.grid.Keys == w.grid.Keys && r.objects.Keys == w.objects.Keys && r.nextId == w.nextId
    && forall id :: id in w.objects ==>
         r.objects[id].objectType == w.objects[id].objectType
         && r.objects[id].pos == w.objects[id].pos
         && r.objects[id].blockedTiles == w.objects[id].blockedTiles
         && r.objects[id].variant == w.objects[id].variant
  }

  /**
   * One pass of timerEvent's loop body: a removal event removes its object
   * from the tile at the object's position (nothing if it is gone already),
   * any other event advances its object's state once.
   */
  function AfterFire(w: World, e: TimeEvent): (r: World)
    requires e.subject in w.objects
    requires e.shouldRemove ==> w.objects[e.subject].pos in w.grid
    ensures SameFrame(w, r)
    ensures e.shouldRemove ==>
      r.objects == w.objects
      && !Holds(r.grid, w.objects[e.subject].pos, w.objects[e.subject].objectType, e.subject)
    ensures e.shouldRemove ==>
      var o := w.objects[e.subject];
      (!Holds(w.grid, o.pos, o.objectType, e.subject) ==> r.grid == w.grid)
      && (Holds(w.grid, o.pos, o.objectType, e.subject) ==>
            forall p :: p in w.grid ==>
              r.grid[p].landscape == w.grid[p].landscape
              && r.grid[p].slots == (if p == o.pos then w.grid[p].slots - {o.objectType} else w.grid[p].slots)
              && r.grid[p].blocked == (p !in Covered(o.pos, o.blockedTiles) && w.grid[p].blocked))
    ensures !e.shouldRemove ==>
      r.grid == w.grid
      && r.objects[e.subject] == w.objects[e.subject].(stateChanges := w.objects[e.subject].stateChanges + 1)
      && forall id :: id in w.objects && id != e.subject ==> r.objects[id] == w.objects[id]
  {
    var o := w.objects[e.subject];
    if e.shouldRemove then
      w.(grid := AfterRemove(w.grid, o.pos, e.subject, o))
    else
      w.(objects := w.objects[e.subject := o.(stateChanges := o.stateChanges + 1)])
  }

  /** Firing an event keeps the invariant of the manager's objects. */
  lemma FireKeepsWellFormed(w: World, e: TimeEvent, capacity: nat)
    requires WellFormed(w, capacity)
    requires e.subject in w.objects && (e.shouldRemove ==> w.objects[e.subject].pos in w.grid)
    ensures WellFormed(AfterFire(w, e), capacity)
  {
    if e.shouldRemove {
      RemoveKeepsWellFormed(w, w.objects[e.subject].pos, e.subject, capacity);
    }
  }

  /** The number of state (non-removal) events for `id` in `es`. */
  function StateEvents(es: seq<TimeEvent>, id: ObjId): nat
  {
    if es == [] then 0
    else StateEvents(es[..|es| - 1], id) + (if es[|es| - 1].subject == id && !es[|es| - 1].shouldRemove then 1 else 0)
  }

  /**
   * Firing a sequence of events in order. Each event is consumed once: every
   * object's state advances exactly once per state event for it, and events
   * that only advance state never touch the grid.
   */
  function AfterFireAll(w: World, es: seq<TimeEvent>): (r: World)
    requires Fireable(w, es)
    ensures SameFrame(w, r)
    decreases |es|
  {
    if es == [] then w
    else
      var init := es[..|es| - 1];
      assert forall i :: 0 <= i < |init| ==> init[i] == es[i];
      var w0 := AfterFireAll(w, init);
      AfterFire(w0, es[|es| - 1])
  }

  /** Every object's state advances exactly once per state event for it. */
  lemma {:induction false} FireAllCountsStateEvents(w: World, es: seq<TimeEvent>, id: ObjId)
    requires Fireable(w, es) && id in w.objects
    ensures AfterFireAll(w, es).objects[id].stateChanges == w.objects[id].stateChanges + StateEvents(es, id)
    decreases |es|
  {
    if es != [] {
      var init := es[..|es| - 1];
      assert forall i :: 0 <= i < |init| ==> init[i] == es[i];
      FireAllCountsStateEvents(w, init, id);
    }
  }

  /** Events that only advance state never touch the grid. */
  lemma {:induction false} StateEventsKeepGrid(w: World, es: seq<TimeEvent>)
    requires Fireable(w, es)
    requires forall i :: 0 <= i < |es| ==> !es[i].shouldRemove
    ensures AfterFireAll(w, es).grid == w.grid
    decreases |es|
  {
    if es != [] {
      var init := es[..|es| - 1];
      assert forall i :: 0 <= i < |init| ==> init[i] == es[i];
      StateEventsKeepGrid(w, init);
    }
  }

  /** Below the due count, the next event is due: polling goes on past it. */
  lemma DueCountStep(q: seq<TimeEvent>, gameTime: int, n: nat)
    requires n <= DueCount(q, gameTime) && n <= |q|
    ensures n < |q| && IsOutDated(q[n], gameTime) ==> n + 1 <= DueCount(q, gameTime)
    ensures (n == |q| || !IsOutDated(q[n], gameTime)) ==> n == DueCount(q, gameTime)
  {
  }

  /** Firing one more event of a queue extends the fired prefix by that event. */
  lemma FireAllSnoc(w: World, q: seq<TimeEvent>, n: nat)
    requires n < |q| && Fireable(w, q[..n])
    requires q[n].subject in AfterFireAll(w, q[..n]).objects
    requires q[n].shouldRemove ==> AfterFireAll(w, q[..n]).objects[q[n].subject].pos in AfterFireAll(w, q[..n]).grid
    ensures Fireable(w, q[..n + 1])
    ensures AfterFireAll(w, q[..n + 1]) == AfterFire(AfterFireAll(w, q[..n]), q[n])
  {
    FireableSnoc(w, q, n, AfterFireAll(w, q[..n]));
    assert q[..n + 1][..n] == q[..n];
  }

  /** The prefix stays fireable when the next event can fire after it. */
  lemma FireableSnoc(w: World, q: seq<TimeEvent>, n: nat, w1: World)
    requires n < |q| && Fireable(w, q[..n]) && SameFrame(w, w1)
    requires q[n].subject in w1.objects
    requires q[n].shouldRemove ==> w1.objects[q[n].subject].pos in w1.grid
    ensures Fireable(w, q[..n + 1])
  {
    var s := q[..n + 1];
    forall i | 0 <= i < |s|
      ensures s[i].subject in w.objects
      ensures s[i].shouldRemove ==> w.objects[s[i].subject].pos in w.grid
    {
      if i < n {
        assert s[i] == q[..n][i];
      }
    }
  }

  /** The corn schedule of plantCorn: growth, decomposition, then removal. */
  function CornEvents(id: ObjId, now: int, growth: nat, decompose: nat, remove: nat): (r: seq<TimeEvent>)
    requires 0 <= now <= INT_MAX
    ensures |r| == 3 && r[0].subject == id && r[1].subject == id && r[2].subject == id
    ensures !r[0].shouldRemove && !r[1].shouldRemove && r[2].shouldRemove
    ensures now <= r[0].eventTime <= r[1].eventTime <= r[2].eventTime <= INT_MAX
  {
    EventTimeMonotone(now, growth, growth + decompose);
    EventTimeMonotone(now, growth + decompose, growth + decompose + remove);
    [TimeEvent(id, EventTime(now, growth), false),
     TimeEvent(id, EventTime(now, growth + decompose), false),
     TimeEvent(id, EventTime(now, growth + decompose + remove), true)]
  }

  /** The corn schedule holds its three events, once each. */
  lemma CornEventsContents(id: ObjId, now: int, growth: nat, decompose: nat, remove: nat)
    requires 0 <= now <= INT_MAX
    ensures multiset(CornEvents(id, now, growth, decompose, remove))
      == multiset{TimeEvent(id, EventTime(now, growth), false)}
         + multiset{TimeEvent(id, EventTime(now, growth + decompose), false)}
         + multiset{TimeEvent(id, EventTime(now, growth + decompose + remove), true)}
  {
    var es := CornEvents(id, now, growth, decompose, remove);
    assert es == [es[0]] + [es[1]] + [es[2]];
  }

  /** Each tick fires exactly the corn events whose boundary lies strictly behind it. */
  lemma {:induction false} CornEventsFireAtBoundaries(id: ObjId, now: int, growth: nat, decompose: nat, remove: nat, t: int)
    requires 0 <= now <= INT_MAX
    ensures Sorted(CornEvents(id, now, growth, decompose, remove))
    ensures DueCount(CornEvents(id, now, growth, decompose, remove), t)
         == if t > EventTime(now, growth + decompose + remove) then 3
            else if t > EventTime(now, growth + decompose) then 2
            else if t > EventTime(now, growth) then 1
            else 0
  {
    var es := CornEvents(id, now, growth, decompose, remove);
    var e0, e1, e2 := es[0], es[1], es[2];
    assert es[1..] == [e1, e2] && es[1..][1..] == [e2] && es[1..][1..][1..] == [];
    assert DueCount([e2], t) == if IsOutDated(e2, t) then 1 else 0;
    assert DueCount([e1, e2], t) == if IsOutDated(e1, t) then 1 + DueCount([e2], t) else 0;
  }

  /**
   * A planted corn stays on its tile through its growth and decomposition
   * events, advancing its state twice, and is gone, with its footprint
   * unblocked, once the removal event has fired.
   */
  lemma {:induction false} CornLifecycle(w: World, id: ObjId, now: int, growth: nat, decompose: nat, remove: nat)
    requires 0 <= now <= INT_MAX
    requires id in w.objects && w.objects[id].pos in w.grid
    requires Holds(w.grid, w.objects[id].pos, w.objects[id].objectType, id)
    ensures var es := CornEvents(id, now, growth, decompose, remove);
      Fireable(w, es)
      && AfterFireAll(w, es[..2]).grid == w.grid
      && AfterFireAll(w, es[..2]).objects[id].stateChanges == w.objects[id].stateChanges + 2
      && var o := w.objects[id];
         var r := AfterFireAll(w, es).grid;
         !Holds(r, o.pos, o.objectType, id)
         && forall p :: p in Covered(o.pos, o.blockedTiles) && p in r ==> !r[p].blocked
  {
    var es := CornEvents(id, now, growth, decompose, remove);
    CornGrowthStages(w, id, now, growth, decompose, remove);
    var w2 := AfterFireAll(w, es[..2]);
    assert es[..3][..2] == es[..2] && es[..3] == es;
    assert AfterFireAll(w, es) == AfterFire(w2, es[2]);
  }

  /** The first two corn events advance the corn's state twice and leave the grid alone. */
  lemma {:induction false} CornGrowthStages(w: World, id: ObjId, now: int, growth: nat, decompose: nat, remove: nat)
    requires 0 <= now <= INT_MAX
    requires id in w.objects && w.objects[id].pos in w.grid
    ensures var es := CornEvents(id, now, growth, decompose, remove);
      Fireable(w, es)
      && AfterFireAll(w, es[..2]).grid == w.grid
      && AfterFireAll(w, es[..2]).objects[id].stateChanges == w.objects[id].stateChanges + 2
  {
    var es := CornEvents(id, now, growth, decompose, remove);
    var grow := es[..2];
    assert grow == [es[0], es[1]] && grow[..1] == [es[0]] && [es[0]][..0] == [];
    assert StateEvents([], id) == 0;
    assert StateEvents([es[0]], id) == 1;
    assert StateEvents(grow, id) == 2;
    FireAllCountsStateEvents(w, grow, id);
    StateEventsKeepGrid(w, grow);
  }

  // ---------------------------------------------------------------------------
  // The queue invariant

  /** The queue is ordered, its events can fire, and their times are non-negative Java ints. */
  predicate QueueValid(q: seq<TimeEvent>, w: World)
  {
    Sorted(q) && Fireable(w, q)
    && forall i :: 0 <= i < |q| ==> 0 <= q[i].eventTime <= INT_MAX
  }

  /** Changes that keep every object's position and the grid's extent keep the queue valid. */
  lemma QueueValidTransfers(q: seq<TimeEvent>, w: World, r: World)
    requires QueueValid(q, w)
    requires r.grid.Keys == w.grid.Keys && w.objects.Keys <= r.objects.Keys
    requires forall id :: id in w.objects ==> r.objects[id].pos == w.objects[id].pos
    ensures QueueValid(q, r)
  {
  }

  /** A push keeps every object's position and the grid's extent, so the queue stays valid. */
  lemma PushKeepsQueueValid(q: seq<TimeEvent>, w: World, pos: Pos, m: Material, capacity: nat, stackTiles: seq<Offset>)
    requires QueueValid(q, w) && WellFormed(w, capacity) && pos in w.grid && StackTyped(w, pos)
    ensures QueueValid(q, AfterPush(w, pos, m, capacity, stackTiles).world)
  {
    assert w.nextId !in w.objects;
    QueueValidTransfers(q, w, AfterPush(w, pos, m, capacity, stackTiles).world);
  }

  /** A pop keeps every object's position and the grid's extent, so the queue stays valid. */
  lemma PopKeepsQueueValid(q: seq<TimeEvent>, w: World, pos: Pos, m: Material)
    requires QueueValid(q, w) && pos in w.grid && StackTyped(w, pos)
    ensures QueueValid(q, AfterPop(w, pos, m).world)
  {
    QueueValidTransfers(q, w, AfterPop(w, pos, m).world);
  }

  /** Polling the head keeps the rest of the queue valid. */
  lemma QueueValidTail(q: seq<TimeEvent>, w: World)
    requires QueueValid(q, w) && q != []
    ensures QueueValid(q[1..], w)
  {
  }

  /** Adding an event for an existing object at a valid time keeps the queue valid. */
  lemma EnqueueKeepsQueueValid(q: seq<TimeEvent>, w: World, e: TimeEvent)
    requires QueueValid(q, w)
    requires e.subject in w.objects && (e.shouldRemove ==> w.objects[e.subject].pos in w.grid)
    requires 0 <= e.eventTime <= INT_MAX
    ensures QueueValid(Enqueue(q, e), w)
  {
    var r := Enqueue(q, e);
    forall i | 0 <= i < |r|
      ensures r[i].subject in w.objects
      ensures r[i].shouldRemove ==> w.objects[r[i].subject].pos in w.grid
      ensures 0 <= r[i].eventTime <= INT_MAX
    {
      assert r[i] in multiset(r);
      if r[i] != e {
        assert r[i] in multiset(q);
        var j :| 0 <= j < |q| && q[j] == r[i];
      }
    }
  }
}
