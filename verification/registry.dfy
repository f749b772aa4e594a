/** The world's object registry: the set of live objects, each with its
    kind, and a FIFO queue of objects whose deletion was deferred until the
    end of the frame. */
module Registry {
  import opened WorldObjects

  datatype World = World(
    objects: map<ObjectId, ObjectKind>,
    deletionQueue: seq<ObjectId>,
    cutsceneStartTime: real)

  function Elems(s: seq<ObjectId>): set<ObjectId> {
    set x | x in s
  }

  lemma ElemsConcat(a: seq<ObjectId>, b: seq<ObjectId>)
    ensures Elems(a + b) == Elems(a) + Elems(b)
  {
    forall x | x in Elems(a + b)
      ensures x in Elems(a) + Elems(b)
    {
      var i :| 0 <= i < |a + b| && (a + b)[i] == x;
      if i < |a| { assert a[i] == x; } else { assert b[i - |a|] == x; }
    }
  }

  predicate NoDuplicates(s: seq<ObjectId>) {
    forall i, j :: 0 <= i < j < |s| ==> s[i] != s[j]
  }

  /** `d` can be obtained from `q` by dropping elements, keeping the order. */
  predicate Subsequence(d: seq<ObjectId>, q: seq<ObjectId>)
    decreases |q|
  {
    if d == [] then true
    else if q == [] then false
    else (d[0] == q[0] && Subsequence(d[1..], q[1..])) || Subsequence(d, q[1..])
  }

  /** The live objects of `after` are those of `before` minus `gone`, each
      with the kind it had. */
  predicate RemovedExactly(before: map<ObjectId, ObjectKind>, after: map<ObjectId, ObjectKind>, gone: set<ObjectId>) {
    && after.Keys == before.Keys - gone
    && forall k :: k in after ==> after[k] == before[k]
  }

  /** `GameWorld::destroyObject`: removes a live object; an object that is
      not live is ignored. */
  function DestroyObject(w: World, id: ObjectId): (r: World)
    ensures RemovedExactly(w.objects, r.objects, {id})
    ensures id !in w.objects ==> r == w
    ensures r.deletionQueue == w.deletionQueue && r.cutsceneStartTime == w.cutsceneStartTime
  {
    if id in w.objects then w.(objects := w.objects - {id}) else w
  }

  /** `GameWorld::destroyObjectQueued`: the object stays live; it is put at
      the back of the deletion queue. */
  function DestroyObjectQueued(w: World, id: ObjectId): (r: World)
    ensures r.objects == w.objects && r.cutsceneStartTime == w.cutsceneStartTime
    ensures |r.deletionQueue| == |w.deletionQueue| + 1
    ensures r.deletionQueue[..|w.deletionQueue|] == w.deletionQueue && r.deletionQueue[|w.deletionQueue|] == id
  {
    w.(deletionQueue := w.deletionQueue + [id])
  }

  /** The world after draining the queue and the objects actually destroyed,
      in the order they were destroyed. */
  datatype Drained = Drained(world: World, destroyed: seq<ObjectId>)

  /** `GameWorld::destroyQueuedObjects`: destroys the queue's entries front
      first until the queue is empty. An entry that is no longer live (it
      was queued twice) is skipped. */
  function DestroyQueuedObjects(w: World): (r: Drained)
    ensures r.world.deletionQueue == []
    ensures RemovedExactly(w.objects, r.world.objects, Elems(w.deletionQueue))
    ensures r.world.cutsceneStartTime == w.cutsceneStartTime
    ensures Elems(r.destroyed) == w.objects.Keys * Elems(w.deletionQueue)
    ensures NoDuplicates(r.destroyed)
    ensures Subsequence(r.destroyed, w.deletionQueue)
    decreases |w.deletionQueue|
  {
    if w.deletionQueue == [] then Drained(w, [])
    else
      var front := w.deletionQueue[0];
      var next := DestroyObject(w, front).(deletionQueue := w.deletionQueue[1..]);
      var rest := DestroyQueuedObjects(next);
      assert w.deletionQueue == [front] + w.deletionQueue[1..];
      assert Elems(w.deletionQueue) == {front} + Elems(w.deletionQueue[1..]);
      if front in w.objects then
        assert front !in Elems(rest.destroyed);
        ElemsConcat([front], rest.destroyed);
        assert Elems([front]) == {front};
        Drained(rest.world, [front] + rest.destroyed)
      else
        Drained(rest.world, rest.destroyed)
  }

  /** The position of the first occurrence of `x` in `q`. */
  function FirstIndex(q: seq<ObjectId>, x: ObjectId): (i: nat)
    requires x in q
    ensures i < |q| && q[i] == x
    ensures forall j :: 0 <= j < i ==> q[j] != x
  {
    if q[0] == x then 0 else 1 + FirstIndex(q[1..], x)
  }

  /** Every entry of `d` occurs in `q`, and `d` lists them in the order of
      their first occurrence in `q`. */
  predicate InFirstQueuedOrder(d: seq<ObjectId>, q: seq<ObjectId>) {
    && (forall k :: 0 <= k < |d| ==> d[k] in q)
    && (forall i, j :: 0 <= i < j < |d| ==> FirstIndex(q, d[i]) < FirstIndex(q, d[j]))
  }

  /** The drain destroys the live queued objects in the order in which they
      were first queued, whatever later duplicates the queue holds. */
  lemma {:induction false} DrainInFirstQueuedOrder(w: World)
    ensures InFirstQueuedOrder(DestroyQueuedObjects(w).destroyed, w.deletionQueue)
    decreases |w.deletionQueue|
  {
    var q := w.deletionQueue;
    if q != [] {
      var front := q[0];
      var next := DestroyObject(w, front).(deletionQueue := q[1..]);
      DrainInFirstQueuedOrder(next);
      var rest := DestroyQueuedObjects(next).destroyed;
      assert front !in next.objects;
      forall k | 0 <= k < |rest|
        ensures rest[k] != front
      {
        assert rest[k] in Elems(rest);
      }
      OrderAfterFront(q, rest);
      if front in w.objects {
        assert DestroyQueuedObjects(w).destroyed == [front] + rest;
      } else {
        assert DestroyQueuedObjects(w).destroyed == rest;
      }
    }
  }

  /** An order that holds behind the front of a queue still holds for the
      whole queue, also with the front put first. */
  lemma OrderAfterFront(q: seq<ObjectId>, d: seq<ObjectId>)
    requires |q| > 0 && InFirstQueuedOrder(d, q[1..])
    requires forall k :: 0 <= k < |d| ==> d[k] != q[0]
    ensures InFirstQueuedOrder(d, q) && InFirstQueuedOrder([q[0]] + d, q)
  {
    forall k | 0 <= k < |d|
      ensures d[k] in q && FirstIndex(q, d[k]) == 1 + FirstIndex(q[1..], d[k])
    {
      assert d[k] in q[1..];
    }
    var e := [q[0]] + d;
    forall k | 1 <= k < |e|
      ensures e[k] == d[k - 1]
    {
    }
  }

  /** Draining is FIFO: draining `q1 + q2` destroys what draining `q1`
      destroys, followed by what draining `q2` afterwards destroys, and
      leaves the same world. */
  lemma {:induction false} DrainIsFifo(w: World, q1: seq<ObjectId>, q2: seq<ObjectId>)
    ensures var whole := DestroyQueuedObjects(w.(deletionQueue := q1 + q2));
      var first := DestroyQueuedObjects(w.(deletionQueue := q1));
      var second := DestroyQueuedObjects(first.world.(deletionQueue := q2));
      whole.world == second.world && whole.destroyed == first.destroyed + second.destroyed
    decreases |q1|
  {
    if q1 == [] {
      assert q1 + q2 == q2;
    } else {
      var front := q1[0];
      var w1 := DestroyObject(w, front);
      assert (q1 + q2)[1..] == q1[1..] + q2;
      DrainIsFifo(w1, q1[1..], q2);
      assert w1.(deletionQueue := q1[1..] + q2) == DestroyObject(w.(deletionQueue := q1 + q2), front).(deletionQueue := (q1 + q2)[1..]);
      assert w1.(deletionQueue := q1[1..]) == DestroyObject(w.(deletionQueue := q1), front).(deletionQueue := q1[1..]);
    }
  }

  /** Queueing an object a second time changes nothing about the drained
      world: the second removal finds it gone. */
  lemma QueueTwiceHarmless(w: World, id: ObjectId)
    ensures DestroyQueuedObjects(DestroyObjectQueued(DestroyObjectQueued(w, id), id)).world
         == DestroyQueuedObjects(DestroyObjectQueued(w, id)).world
  {
  }

  /** A queued object stays live until the queue is drained, and is gone
      afterwards. */
  lemma QueuedObjectLiveUntilDrained(w: World, id: ObjectId)
    requires id in w.objects
    ensures id in DestroyObjectQueued(w, id).objects
    ensures id !in DestroyQueuedObjects(DestroyObjectQueued(w, id)).world.objects
  {
  }

  /** The objects of a given kind. */
  function OfKind(objects: map<ObjectId, ObjectKind>, kind: ObjectKind): set<ObjectId> {
    set k | k in objects && objects[k] == kind
  }

  /** `GameWorld::clearCutscene`, queueing part: every Cutscene object is
      queued for deletion once, in the iteration order of the object set,
      nothing is removed yet, and the cutscene start time becomes -1. */
  method ClearCutscene(w: World) returns (r: World)
    ensures r.objects == w.objects
    ensures r.cutsceneStartTime == -1.0
    ensures |r.deletionQueue| >= |w.deletionQueue| && r.deletionQueue[..|w.deletionQueue|] == w.deletionQueue
    ensures var added := r.deletionQueue[|w.deletionQueue|..];
      NoDuplicates(added) && Elems(added) == OfKind(w.objects, Cutscene)
  {
    var remaining := w.objects.Keys;
    var added: seq<ObjectId> := [];
    while remaining != {}
      invariant remaining <= w.objects.Keys
      invariant NoDuplicates(added)
      invariant Elems(added) !! remaining
      invariant Elems(added) == OfKind(w.objects, Cutscene) - remaining
      decreases remaining
    {
      var o :| o in remaining;
      if w.objects[o] == Cutscene {
        ElemsConcat(added, [o]);
        added := added + [o];
      }
      remaining := remaining - {o};
    }
    r := w.(deletionQueue := w.deletionQueue + added, cutsceneStartTime := -1.0);
    assert r.deletionQueue[|w.deletionQueue|..] == added;
  }

  /** `GameWorld::PhysicsTickCallback`, filter part: the objects whose
      vehicle physics is stepped, in iteration order. Every vehicle is
      stepped exactly once and nothing else is. */
  method PhysicsTick(objects: map<ObjectId, ObjectKind>) returns (ticked: seq<ObjectId>)
    ensures NoDuplicates(ticked)
    ensures Elems(ticked) == OfKind(objects, Vehicle)
  {
    var remaining := objects.Keys;
    ticked := [];
    while remaining != {}
      invariant remaining <= objects.Keys
      invariant NoDuplicates(ticked)
      invariant Elems(ticked) !! remaining
      invariant Elems(ticked) == OfKind(objects, Vehicle) - remaining
      decreases remaining
    {
      var o :| o in remaining;
      if objects[o] == Vehicle {
        ElemsConcat(ticked, [o]);
        ticked := ticked + [o];
      }
      remaining := remaining - {o};
    }
  }
}
