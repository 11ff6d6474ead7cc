/** The client's half of entity synchronisation: the receive thread fills queues, and once per frame
    the world drains them, destroying first and creating after, and asks for an update if the flag
    allows it. */
module SyncClient {
  import opened TextStream
  import opened SyncServer

  /** A `CreateEntityStruct`; mode 2 is an entity that a player controls. */
  datatype Create = Create(sessionid: nat, mode: nat)

  /** An `Entity` of the world, or a `RemoteControlledEntity`. */
  datatype Obj = Obj(sessionid: nat, mode: nat, remote: bool)

  /** `entity` is the session id of the client's own entity. */
  datatype Client = Client(
    objects: seq<Obj>, entity: Option<nat>, flag: nat, creates: seq<Create>, destroys: seq<nat>)

  const NEW_CLIENT := Client([], None, 1, [], [])

  function Ids(objects: seq<Obj>): (ids: seq<nat>)
    ensures |ids| == |objects| && forall i | 0 <= i < |ids| :: ids[i] == objects[i].sessionid
  {
    seq(|objects|, i requires 0 <= i < |objects| => objects[i].sessionid)
  }

  function Init<T>(s: seq<T>): seq<T>
    requires s != []
  {
    s[..|s| - 1]
  }

  function Last<T>(s: seq<T>): T
    requires s != []
  {
    s[|s| - 1]
  }

  // ---------------------------------------------------------------- the steps of a frame

  /** The loop over `objects` for one id: after a removal it passes over the element that has moved
      into the place. */
  function RemoveFrom(objects: seq<Obj>, id: nat, i: nat): seq<Obj>
    decreases |objects| - i
  {
    if i >= |objects| then objects
    else if objects[i].sessionid == id then RemoveFrom(objects[..i] + objects[i + 1..], id, i + 1)
    else RemoveFrom(objects, id, i + 1)
  }

  /** The client's own entity stays. */
  function RemoveId(objects: seq<Obj>, id: nat, own: Option<nat>): seq<Obj> {
    if own == Some(id) then objects else RemoveFrom(objects, id, 0)
  }

  /** The queue is popped from its end. */
  function DestroyAll(objects: seq<Obj>, queue: seq<nat>, own: Option<nat>): seq<Obj>
    decreases |queue|
  {
    if queue == [] then objects else DestroyAll(RemoveId(objects, Last(queue), own), Init(queue), own)
  }

  /** The first entity of mode 2 is the client's own; later ones are remote controlled. */
  function NewObject(c: Create, own: Option<nat>): Obj {
    if c.mode == 2 then
      if own == None then Obj(c.sessionid, 2, false) else Obj(c.sessionid, 0, true)
    else Obj(c.sessionid, c.mode, true)
  }

  function OwnAfter(c: Create, own: Option<nat>): Option<nat> {
    if c.mode == 2 && own == None then Some(c.sessionid) else own
  }

  function CreateAll(objects: seq<Obj>, own: Option<nat>, queue: seq<Create>): (seq<Obj>, Option<nat>)
    decreases |queue|
  {
    if queue == [] then (objects, own)
    else
      var c := Last(queue);
      CreateAll(objects + [NewObject(c, own)], OwnAfter(c, own), Init(queue))
  }

  /** Both queues are drained. */
  function Drained(c: Client): Client {
    var left := DestroyAll(c.objects, c.destroys, c.entity);
    var (objects, entity) := CreateAll(left, c.entity, c.creates);
    Client(objects, entity, c.flag, [], [])
  }

  /** `UpdateTimers` with the session timer due, and `UpdateSession`: a request only if the flag is up,
      which it lowers. */
  function Asked(c: Client, clip: real): (Client, Option<Request>) {
    if c.entity.Some? && c.flag == 1 then (c.(flag := 0), Some(Request(1, clip, Ids(c.objects)))) else (c, None)
  }

  function Frame(c: Client, due: bool, clip: real): (Client, Option<Request>) {
    if due then Asked(Drained(c), clip) else (Drained(c), None)
  }

  // ---------------------------------------------------------------- what the steps do to the ids

  ghost predicate Unique(objects: seq<Obj>) {
    Distinct(Ids(objects))
  }

  lemma {:induction false} RemoveFromNone(objects: seq<Obj>, id: nat, i: nat)
    requires forall k | i <= k < |objects| :: objects[k].sessionid != id
    ensures RemoveFrom(objects, id, i) == objects
    decreases |objects| - i
  {
    if i < |objects| {
      RemoveFromNone(objects, id, i + 1);
    }
  }

  lemma RemovedAt(ids: seq<nat>, i: nat)
    requires Distinct(ids) && i < |ids|
    ensures Distinct(ids[..i] + ids[i + 1..])
    ensures forall x :: x in ids[..i] + ids[i + 1..] <==> x in ids && x != ids[i]
  {
    var rest := ids[..i] + ids[i + 1..];
    assert forall k | 0 <= k < |rest| :: rest[k] == ids[if k < i then k else k + 1];
    forall x | x in ids && x != ids[i] ensures x in rest {
      var k :| 0 <= k < |ids| && ids[k] == x;
      assert rest[if k < i then k else k - 1] == x;
    }
  }

  /** Without twins in the list, the loop removes the id and nothing else. */
  lemma {:induction false} RemoveFromIs(objects: seq<Obj>, id: nat, i: nat)
    requires Unique(objects) && forall k | 0 <= k < i && k < |objects| :: objects[k].sessionid != id
    ensures Unique(RemoveFrom(objects, id, i))
    ensures forall x :: x in Ids(RemoveFrom(objects, id, i)) <==> x in Ids(objects) && x != id
    decreases |objects| - i
  {
    if i < |objects| {
      if objects[i].sessionid == id {
        var rest := objects[..i] + objects[i + 1..];
        assert Ids(rest) == Ids(objects)[..i] + Ids(objects)[i + 1..];
        RemovedAt(Ids(objects), i);
        forall k | i + 1 <= k < |rest| ensures rest[k].sessionid != id {
          assert rest[k] == objects[k + 1];
          assert Ids(objects)[i] != Ids(objects)[k + 1];
        }
        RemoveFromNone(rest, id, i + 1);
      } else {
        RemoveFromIs(objects, id, i + 1);
      }
    } else {
      assert id !in Ids(objects);
    }
  }

  /** Of two neighbours with one id the loop leaves the second. */
  lemma TwinSurvives(a: Obj, b: Obj, own: Option<nat>)
    requires a.sessionid == b.sessionid && own != Some(a.sessionid)
    ensures RemoveId([a, b], a.sessionid, own) == [b]
  {
    assert [a, b][..0] + [a, b][1..] == [b];
    RemoveFromNone([b], a.sessionid, 1);
  }

  lemma {:induction false} DestroyAllIs(objects: seq<Obj>, queue: seq<nat>, own: Option<nat>)
    requires Unique(objects)
    ensures Unique(DestroyAll(objects, queue, own))
    ensures forall x ::
              x in Ids(DestroyAll(objects, queue, own))
              <==> x in Ids(objects) && (x !in queue || own == Some(x))
    decreases |queue|
  {
    if queue != [] {
      RemoveFromIs(objects, Last(queue), 0);
      DestroyAllIs(RemoveId(objects, Last(queue), own), Init(queue), own);
      assert queue == Init(queue) + [Last(queue)];
    }
  }

  function CreateIds(queue: seq<Create>): (ids: seq<nat>)
    ensures |ids| == |queue| && forall i | 0 <= i < |ids| :: ids[i] == queue[i].sessionid
  {
    seq(|queue|, i requires 0 <= i < |queue| => queue[i].sessionid)
  }

  ghost predicate Apart(a: seq<nat>, b: seq<nat>) {
    forall x | x in a :: x !in b
  }

  lemma AddedIds(objects: seq<Obj>, o: Obj)
    requires Unique(objects) && o.sessionid !in Ids(objects)
    ensures Ids(objects + [o]) == Ids(objects) + [o.sessionid] && Unique(objects + [o])
  {
    assert Ids(objects + [o]) == Ids(objects) + [o.sessionid];
    forall i | 0 <= i < |objects| ensures Ids(objects)[i] != o.sessionid {
      assert Ids(objects)[i] in Ids(objects);
    }
  }

  lemma {:induction false} CreateAllIs(objects: seq<Obj>, own: Option<nat>, queue: seq<Create>)
    requires Unique(objects) && Distinct(CreateIds(queue)) && Apart(CreateIds(queue), Ids(objects))
    ensures var after := CreateAll(objects, own, queue).0;
            Unique(after) && forall x :: x in Ids(after) <==> x in Ids(objects) || x in CreateIds(queue)
    decreases |queue|
  {
    if queue != [] {
      var c := Last(queue);
      var more := objects + [NewObject(c, own)];
      var ids := CreateIds(queue);
      assert ids == CreateIds(Init(queue)) + [c.sessionid];
      assert c.sessionid == ids[|ids| - 1] && c.sessionid in ids;
      AddedIds(objects, NewObject(c, own));
      CreateAllIs(more, OwnAfter(c, own), Init(queue));
    }
  }

  lemma {:induction false} OwnStays(objects: seq<Obj>, own: Option<nat>, queue: seq<Create>)
    requires own.Some?
    ensures CreateAll(objects, own, queue).1 == own
    decreases |queue|
  {
    if queue != [] {
      OwnStays(objects + [NewObject(Last(queue), own)], own, Init(queue));
    }
  }

  /** Draining the queues: what is to be destroyed goes, but for the client's own entity, and what is to
      be created comes. */
  lemma DrainedIs(c: Client)
    requires Unique(c.objects) && Distinct(CreateIds(c.creates)) && Apart(CreateIds(c.creates), Ids(c.objects))
    ensures var d := Drained(c);
            && Unique(d.objects)
            && (forall x :: x in Ids(d.objects) <==>
                  (x in Ids(c.objects) && (x !in c.destroys || c.entity == Some(x))) || x in CreateIds(c.creates))
            && (c.entity.Some? ==> d.entity == c.entity)
  {
    DestroyAllIs(c.objects, c.destroys, c.entity);
    CreateAllIs(DestroyAll(c.objects, c.destroys, c.entity), c.entity, c.creates);
    if c.entity.Some? {
      OwnStays(DestroyAll(c.objects, c.destroys, c.entity), c.entity, c.creates);
    }
  }

  // ---------------------------------------------------------------- one entity, one frame

  /** A created entity goes to the end of the list. The first of mode 2 is the client's own; a later one
      has mode 0, and all but the own one are remote controlled. */
  lemma {:induction false} OneIsCreated(objects: seq<Obj>, own: Option<nat>, c: Create)
    ensures var (after, own') := CreateAll(objects, own, [c]);
            var mine := c.mode == 2 && own == None;
            && after == objects + [Obj(c.sessionid, if c.mode == 2 && !mine then 0 else c.mode, !mine)]
            && own' == if mine then Some(c.sessionid) else own
  {
    assert Init([c]) == [];
  }

  /** The queue is drained from its end. */
  lemma {:induction false} LastIsCreatedFirst(objects: seq<Obj>, own: Option<nat>, queue: seq<Create>, c: Create)
    ensures var first := CreateAll(objects, own, [c]);
            CreateAll(objects, own, queue + [c]) == CreateAll(first.0, first.1, queue)
  {
    assert Init(queue + [c]) == queue && Init([c]) == [];
  }

  /** What a frame leaves and sends: both queues are drained, destroying first; and if the timer is due,
      the flag up and the own entity there, the ids of the whole list are sent with state 1 and the given
      distance, and the flag is lowered. Otherwise nothing is sent. */
  lemma FrameSends(c: Client, due: bool, clip: real)
    ensures var (after, sent) := Frame(c, due, clip);
            var left := DestroyAll(c.objects, c.destroys, c.entity);
            && (after.objects, after.entity) == CreateAll(left, c.entity, c.creates)
            && after.creates == [] && after.destroys == []
            && if due && c.flag == 1 && after.entity.Some? then
                 && after.flag == 0 && sent.Some? && sent.value.state == 1 && sent.value.clip == clip
                 && |sent.value.ids| == |after.objects|
                 && forall i | 0 <= i < |after.objects| :: sent.value.ids[i] == after.objects[i].sessionid
               else after.flag == c.flag && sent == None
  {
  }

  // ---------------------------------------------------------------- the list keeps its order

  /** The entities whose ids are not in the queue, and the own one, from the first to the last. */
  function Remaining(objects: seq<Obj>, queue: seq<nat>, own: Option<nat>): seq<Obj> {
    if objects == [] then []
    else
      var o := objects[0];
      (if o.sessionid in queue && own != Some(o.sessionid) then [] else [o]) + Remaining(objects[1..], queue, own)
  }

  lemma {:induction false} RemainingAll(objects: seq<Obj>, queue: seq<nat>, own: Option<nat>)
    requires forall k | 0 <= k < |objects| :: objects[k].sessionid !in queue || own == Some(objects[k].sessionid)
    ensures Remaining(objects, queue, own) == objects
  {
    if objects != [] {
      RemainingAll(objects[1..], queue, own);
    }
  }

  lemma {:induction false} RemainingConcat(a: seq<Obj>, b: seq<Obj>, queue: seq<nat>, own: Option<nat>)
    ensures Remaining(a + b, queue, own) == Remaining(a, queue, own) + Remaining(b, queue, own)
  {
    if a == [] {
      assert a + b == b;
    } else {
      assert (a + b)[1..] == a[1..] + b;
      RemainingConcat(a[1..], b, queue, own);
      var first := if a[0].sessionid in queue && own != Some(a[0].sessionid) then [] else [a[0]];
      Assoc(first, Remaining(a[1..], queue, own), Remaining(b, queue, own));
    }
  }

  lemma {:induction false} RemainingTwice(objects: seq<Obj>, queue: seq<nat>, id: nat, own: Option<nat>)
    ensures Remaining(Remaining(objects, [id], own), queue, own) == Remaining(objects, queue + [id], own)
  {
    if objects != [] {
      var first, tail := objects[..1], objects[1..];
      RemainingTwice(tail, queue, id, own);
      RemainingConcat(if first[0].sessionid == id && own != Some(id) then [] else first,
                      Remaining(tail, [id], own), queue, own);
    }
  }

  lemma RemovedHere(a: seq<Obj>, o: Obj, b: seq<Obj>, own: Option<nat>)
    requires own != Some(o.sessionid)
    requires (forall x | x in a :: x.sessionid != o.sessionid) && forall x | x in b :: x.sessionid != o.sessionid
    ensures Remaining(a + [o] + b, [o.sessionid], own) == a + b
  {
    RemainingConcat(a, [o], [o.sessionid], own);
    RemainingConcat(a + [o], b, [o.sessionid], own);
    RemainingAll(a, [o.sessionid], own);
    RemainingAll(b, [o.sessionid], own);
    assert [o][1..] == [];
  }

  lemma OthersDiffer(objects: seq<Obj>, i: nat)
    requires Unique(objects) && i < |objects|
    ensures forall x | x in objects[..i] :: x.sessionid != objects[i].sessionid
    ensures forall x | x in objects[i + 1..] :: x.sessionid != objects[i].sessionid
  {
    assert forall k | 0 <= k < |objects| && k != i :: Ids(objects)[k] != Ids(objects)[i];
  }

  lemma {:induction false} RemovedInOrder(objects: seq<Obj>, id: nat, i: nat, own: Option<nat>)
    requires Unique(objects) && own != Some(id)
    requires forall k | 0 <= k < i && k < |objects| :: objects[k].sessionid != id
    ensures RemoveFrom(objects, id, i) == Remaining(objects, [id], own)
    decreases |objects| - i
  {
    if i >= |objects| {
      RemainingAll(objects, [id], own);
    } else if objects[i].sessionid != id {
      RemovedInOrder(objects, id, i + 1, own);
    } else {
      var a, o, b := objects[..i], objects[i], objects[i + 1..];
      OthersDiffer(objects, i);
      RemovedHere(a, o, b, own);
      RemoveFromNone(a + b, id, i + 1);
      assert objects == a + [o] + b;
    }
  }

  /** Destroying takes exactly the entities of the queue out of the list, but never the own one; the others
      are as they were, in their order. */
  lemma {:induction false} DestroyedInOrder(objects: seq<Obj>, queue: seq<nat>, own: Option<nat>)
    requires Unique(objects)
    ensures DestroyAll(objects, queue, own) == Remaining(objects, queue, own)
    decreases |queue|
  {
    if queue == [] {
      RemainingAll(objects, queue, own);
    } else {
      var init, id := Init(queue), Last(queue);
      RemoveFromIs(objects, id, 0);
      OneIsDestroyed(objects, id, own);
      DestroyedInOrder(RemoveId(objects, id, own), init, own);
      RemainingTwice(objects, init, id, own);
      assert queue == init + [id];
    }
  }

  lemma OneIsDestroyed(objects: seq<Obj>, id: nat, own: Option<nat>)
    requires Unique(objects)
    ensures RemoveId(objects, id, own) == Remaining(objects, [id], own)
  {
    if own == Some(id) {
      RemainingAll(objects, [id], own);
    } else {
      RemovedInOrder(objects, id, 0, own);
    }
  }

  /** A reply sets the flag and joins the queues; the list waits for the next frame. */
  lemma ReplyIsTaken(c: Client, state: nat, creates: seq<Create>, destroys: seq<nat>)
    ensures var after, n, m := Accept(c, state, creates, destroys), |c.creates|, |c.destroys|;
            && after.flag == state && after.objects == c.objects && after.entity == c.entity
            && |after.creates| == n + |creates| && |after.destroys| == m + |destroys|
            && after.creates[..n] == c.creates && after.creates[n..] == creates
            && after.destroys[..m] == c.destroys && after.destroys[m..] == destroys
  {
  }

  // ---------------------------------------------------------------- the world

  class World {
    var objects: seq<Obj>
    var entity: Option<nat>
    var checkObjectsState: nat
    var objectsQueue: seq<nat>
    var createEntityQueue: seq<Create>
    var destroyEntityQueue: seq<nat>

    ghost function View(): Client
      reads this
    {
      Client(objects, entity, checkObjectsState, createEntityQueue, destroyEntityQueue)
    }

    constructor ()
      ensures View() == NEW_CLIENT
    {
      objects, entity, checkObjectsState := [], None, 1;
      objectsQueue, createEntityQueue, destroyEntityQueue := [], [], [];
    }

    /** The inner loop of `UpdateDestroyEntities`; the client must have an entity once it has objects. */
    method RemoveEntity(sessionid: nat)
      requires objects != [] ==> entity.Some?
      modifies this`objects
      ensures objects == RemoveId(old(objects), sessionid, entity)
    {
      var i := 0;
      while i < |objects|
        invariant if entity == Some(sessionid) then objects == old(objects)
                  else RemoveFrom(objects, sessionid, i) == RemoveFrom(old(objects), sessionid, 0)
        invariant objects != [] ==> entity.Some?
        decreases |objects| - i
      {
        if objects[i].sessionid == sessionid {
          if sessionid != entity.value {
            objects := objects[..i] + objects[i + 1..];
          }
        }
        i := i + 1;
      }
    }

    method UpdateDestroyEntities()
      requires objects != [] ==> entity.Some?
      modifies this`objects, this`destroyEntityQueue
      ensures objects == DestroyAll(old(objects), old(destroyEntityQueue), entity) && destroyEntityQueue == []
      ensures objects != [] ==> entity.Some?
    {
      while destroyEntityQueue != []
        invariant DestroyAll(objects, destroyEntityQueue, entity)
                  == DestroyAll(old(objects), old(destroyEntityQueue), entity)
        invariant objects != [] ==> entity.Some?
        decreases |destroyEntityQueue|
      {
        var sessionid := destroyEntityQueue[|destroyEntityQueue| - 1];
        destroyEntityQueue := destroyEntityQueue[..|destroyEntityQueue| - 1];
        ghost var before := objects;
        RemoveEntity(sessionid);
        if before == [] {
          assert objects == [];
        }
      }
    }

    method UpdateCreateEntities()
      modifies this`objects, this`entity, this`createEntityQueue
      ensures (objects, entity) == CreateAll(old(objects), old(entity), old(createEntityQueue))
              && createEntityQueue == []
    {
      while createEntityQueue != []
        invariant CreateAll(objects, entity, createEntityQueue)
                  == CreateAll(old(objects), old(entity), old(createEntityQueue))
        decreases |createEntityQueue|
      {
        var c := createEntityQueue[|createEntityQueue| - 1];
        createEntityQueue := createEntityQueue[..|createEntityQueue| - 1];
        var object_ := Obj(c.sessionid, c.mode, true);
        if c.mode == 2 {
          object_ := Obj(c.sessionid, c.mode, false);
          if entity != None {
            object_ := Obj(c.sessionid, 0, true);
          }
        }
        if object_.mode == 2 && entity == None {
          entity := Some(object_.sessionid);
        }
        objects := objects + [object_];
      }
    }

    /** `UpdateSession`, with the packet it sends as its result. */
    method UpdateSession(clip: real) returns (sent: Option<Request>)
      requires entity.Some?
      modifies this`checkObjectsState, this`objectsQueue
      ensures (View(), sent) == Asked(old(View()), clip)
    {
      sent := None;
      if checkObjectsState == 1 {
        objectsQueue := [];
        for i := 0 to |objects|
          invariant objectsQueue == Ids(objects)[..i]
          invariant checkObjectsState == 1 && View() == old(View())
        {
          objectsQueue := objectsQueue + [objects[i].sessionid];
        }
        assert Ids(objects)[..|objects|] == Ids(objects);
        sent := Some(Request(checkObjectsState, clip, objectsQueue));
        checkObjectsState, objectsQueue := 0, [];
      }
    }

    /** `Update`, of which the session timer's firing is a part. */
    method Update(due: bool, clip: real) returns (sent: Option<Request>)
      requires objects != [] ==> entity.Some?
      modifies this
      ensures (View(), sent) == Frame(old(View()), due, clip)
    {
      UpdateDestroyEntities();
      UpdateCreateEntities();
      sent := None;
      if entity != None && due {
        sent := UpdateSession(clip);
      }
    }

    /** `Receive.ObjectsReply`, `CreateEntity` and `DestroyEntity`. */
    method ObjectsReply(state: nat, creates: seq<Create>, destroys: seq<nat>)
      modifies this`checkObjectsState, this`createEntityQueue, this`destroyEntityQueue
      ensures View() == Accept(old(View()), state, creates, destroys)
    {
      checkObjectsState := state;
      createEntityQueue := createEntityQueue + creates;
      destroyEntityQueue := destroyEntityQueue + destroys;
    }
  }

  /** A reply has arrived. */
  function Accept(c: Client, state: nat, creates: seq<Create>, destroys: seq<nat>): Client {
    c.(flag := state, creates := c.creates + creates, destroys := c.destroys + destroys)
  }
}
