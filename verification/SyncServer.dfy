/** The server's half of entity synchronisation: `Receive::ObjectsData` compares the session ids that
    the client has with the entities that the server has, and queues what the client must destroy,
    create and move. Queue entries are session ids; a struct's other fields are copies. */
module SyncServer {

  datatype Vec = Vec(x: real, y: real, z: real)

  function Squared(a: Vec, b: Vec): real {
    (a.x - b.x) * (a.x - b.x) + (a.y - b.y) * (a.y - b.y) + (a.z - b.z) * (a.z - b.z)
  }

  /** Body of an objects packet and of its reply. */
  datatype Request = Request(state: nat, clip: real, ids: seq<nat>)
  datatype Reply = Reply(state: nat, creates: seq<nat>, destroys: seq<nat>)

  predicate Distinct(s: seq<nat>) {
    forall i, j | 0 <= i < j < |s| :: s[i] != s[j]
  }

  /** `Entity::Keys`: the keys of a hash map, in some order. */
  ghost predicate AreKeys(keys: seq<nat>, entities: map<nat, Vec>) {
    Distinct(keys) && forall k :: k in keys <==> k in entities
  }

  // ---------------------------------------------------------------- the lists

  /** The ids that the server does not know. */
  function Stale(ids: seq<nat>, keys: seq<nat>): seq<nat> {
    if ids == [] then []
    else Stale(ids[..|ids| - 1], keys) + (if ids[|ids| - 1] in keys then [] else [ids[|ids| - 1]])
  }

  /** A key once for each time that the client has it. */
  function Matches(ids: seq<nat>, key: nat): seq<nat> {
    if ids == [] then []
    else Matches(ids[..|ids| - 1], key) + (if ids[|ids| - 1] == key then [key] else [])
  }

  /** `entityState` after the inner loop: 0 to create, 1 to delete, 2 to transform. */
  function StateOf(ids: seq<nat>, keys: seq<nat>, key: nat): nat {
    if ids == [] then 0
    else
      var id := ids[|ids| - 1];
      if id == key then 2 else if id !in keys then 1 else StateOf(ids[..|ids| - 1], keys, key)
  }

  /** The inner loop starts again for every key. */
  function Destroys(n: nat, stale: seq<nat>): seq<nat> {
    if n == 0 then [] else Destroys(n - 1, stale) + stale
  }

  function Transforms(ids: seq<nat>, done: seq<nat>): seq<nat> {
    if done == [] then [] else Transforms(ids, done[..|done| - 1]) + Matches(ids, done[|done| - 1])
  }

  predicate Near(entities: map<nat, Vec>, own: Vec, clip: real, id: nat) {
    id in entities && Squared(own, entities[id]) <= clip * clip
  }

  function InRange(entities: map<nat, Vec>, own: Vec, clip: real): nat -> bool {
    (id: nat) => Near(entities, own, clip, id)
  }

  lemma SquareAtMost(d: real, clip: real)
    requires clip >= 0.0
    ensures d * d <= clip * clip <==> -clip <= d <= clip
  {
    SquareGrows(if d >= 0.0 then d else -d, clip);
    assert (-d) * (-d) == d * d;
  }

  lemma SquareGrows(d: real, clip: real)
    requires clip >= 0.0 && d >= 0.0
    ensures d * d <= clip * clip <==> d <= clip
  {
    var more := d - clip;
    assert d * d - clip * clip == more * (d + clip);
    if more > 0.0 {
      assert more * (d + clip) > 0.0;
    } else {
      assert (-more) * (d + clip) >= 0.0;
    }
  }

  /** An entity that is away from the own one along a single axis is near exactly if it is within the clip
      distance; and whatever is near is within the distance along every axis. */
  lemma NearOnAxes(entities: map<nat, Vec>, own: Vec, clip: real, id: nat)
    requires clip >= 0.0 && id in entities
    ensures var e := entities[id];
            && (e.y == own.y && e.z == own.z ==> (Near(entities, own, clip, id) <==> -clip <= own.x - e.x <= clip))
            && (e.x == own.x && e.z == own.z ==> (Near(entities, own, clip, id) <==> -clip <= own.y - e.y <= clip))
            && (e.x == own.x && e.y == own.y ==> (Near(entities, own, clip, id) <==> -clip <= own.z - e.z <= clip))
            && (Near(entities, own, clip, id) ==>
                  && -clip <= own.x - e.x <= clip && -clip <= own.y - e.y <= clip && -clip <= own.z - e.z <= clip)
  {
    var e := entities[id];
    SquareAtMost(own.x - e.x, clip);
    SquareAtMost(own.y - e.y, clip);
    SquareAtMost(own.z - e.z, clip);
    SquareIsPositive(own.x - e.x);
    SquareIsPositive(own.y - e.y);
    SquareIsPositive(own.z - e.z);
  }

  lemma SquareIsPositive(d: real)
    ensures d * d >= 0.0
  {
  }

  /** What is not there is not near, and distance is the sum of the squares along the axes. */
  lemma NearIff(entities: map<nat, Vec>, own: Vec, clip: real, id: nat)
    ensures Near(entities, own, clip, id) <==>
            && id in entities
            && var dx, dy, dz := own.x - entities[id].x, own.y - entities[id].y, own.z - entities[id].z;
               dx * dx + dy * dy + dz * dz <= clip * clip
  {
  }

  function Creates(ids: seq<nat>, keys: seq<nat>, done: seq<nat>, near: nat -> bool): seq<nat> {
    if done == [] then []
    else
      var key := done[|done| - 1];
      Creates(ids, keys, done[..|done| - 1], near)
      + (if StateOf(ids, keys, key) == 0 && near(key) then [key] else [])
  }

  function ReplyTo(request: Request, keys: seq<nat>, near: nat -> bool): Reply {
    Reply(request.state, Creates(request.ids, keys, keys, near), Destroys(|keys|, Stale(request.ids, keys)))
  }

  // ---------------------------------------------------------------- what the lists hold

  lemma {:induction false} StaleCount(ids: seq<nat>, keys: seq<nat>, x: nat)
    ensures multiset(Stale(ids, keys))[x] == if x in keys then 0 else multiset(ids)[x]
  {
    if ids != [] {
      StaleCount(ids[..|ids| - 1], keys, x);
      assert ids == ids[..|ids| - 1] + [ids[|ids| - 1]];
    }
  }

  /** Each stale id is queued once per key for each of its occurrences, and no other id is queued. */
  lemma {:induction false} DestroyCount(ids: seq<nat>, keys: seq<nat>, n: nat, x: nat)
    ensures multiset(Destroys(n, Stale(ids, keys)))[x] == if x in keys then 0 else n * multiset(ids)[x]
  {
    StaleCount(ids, keys, x);
    if n > 0 {
      DestroyCount(ids, keys, n - 1, x);
      assert n * multiset(ids)[x] == (n - 1) * multiset(ids)[x] + multiset(ids)[x];
    }
  }

  /** One stale id suppresses every create: a key is created only if no id is stale. */
  lemma {:induction false} StateIsCreate(ids: seq<nat>, keys: seq<nat>, key: nat)
    ensures StateOf(ids, keys, key) == 0 <==> key !in ids && forall x | x in ids :: x in keys
    ensures StateOf(ids, keys, key) <= 2
    ensures key in keys && StateOf(ids, keys, key) == 1 ==> exists x | x in ids :: x !in keys
  {
    if ids != [] {
      StateIsCreate(ids[..|ids| - 1], keys, key);
      assert ids == ids[..|ids| - 1] + [ids[|ids| - 1]];
    }
  }

  ghost predicate AllKnown(ids: seq<nat>, keys: seq<nat>) {
    forall x | x in ids :: x in keys
  }

  /** The creates are the keys in range that the client lacks, unless any of its ids is stale. */
  lemma {:induction false} CreatesAre(ids: seq<nat>, keys: seq<nat>, done: seq<nat>, near: nat -> bool)
    requires Distinct(done)
    ensures forall x ::
              x in Creates(ids, keys, done, near)
              <==> AllKnown(ids, keys) && x in done && x !in ids && near(x)
    ensures Distinct(Creates(ids, keys, done, near))
  {
    if done != [] {
      var init, key := done[..|done| - 1], done[|done| - 1];
      CreatesAre(ids, keys, init, near);
      StateIsCreate(ids, keys, key);
      assert done == init + [key];
      assert key !in init;
      var before := Creates(ids, keys, init, near);
      forall i | 0 <= i < |before| ensures before[i] != key {
        assert before[i] in before;
      }
    }
  }

  lemma {:induction false} StaleAre(ids: seq<nat>, keys: seq<nat>, x: nat)
    ensures x in Stale(ids, keys) <==> x in ids && x !in keys
  {
    if ids != [] {
      StaleAre(ids[..|ids| - 1], keys, x);
      assert ids == ids[..|ids| - 1] + [ids[|ids| - 1]];
    }
  }

  lemma {:induction false} DestroysAre(n: nat, stale: seq<nat>, x: nat)
    requires n > 0
    ensures x in Destroys(n, stale) <==> x in stale
  {
    if n > 1 {
      DestroysAre(n - 1, stale, x);
    } else {
      assert Destroys(0, stale) == [];
    }
  }

  /** A reply is empty exactly if no id is stale and nothing in range is missing. */
  lemma EmptyReplyIff(request: Request, keys: seq<nat>, near: nat -> bool)
    requires Distinct(keys) && keys != []
    ensures ReplyTo(request, keys, near) == Reply(request.state, [], [])
       <==> AllKnown(request.ids, keys) && forall k | k in keys && near(k) :: k in request.ids
  {
    var reply := ReplyTo(request, keys, near);
    CreatesAre(request.ids, keys, keys, near);
    forall x ensures x in reply.destroys <==> x in request.ids && x !in keys {
      StaleAre(request.ids, keys, x);
      DestroysAre(|keys|, Stale(request.ids, keys), x);
    }
    assert reply.creates != [] ==> reply.creates[0] in reply.creates;
    assert reply.destroys != [] ==> reply.destroys[0] in reply.destroys;
  }

  lemma {:induction false} MatchCount(ids: seq<nat>, key: nat, x: nat)
    ensures multiset(Matches(ids, key))[x] == if x == key then multiset(ids)[x] else 0
  {
    if ids != [] {
      MatchCount(ids[..|ids| - 1], key, x);
      assert ids == ids[..|ids| - 1] + [ids[|ids| - 1]];
    }
  }

  /** The ids that both sides have are transformed, as often as the client has them. */
  lemma {:induction false} TransformCount(ids: seq<nat>, done: seq<nat>, x: nat)
    requires Distinct(done)
    ensures multiset(Transforms(ids, done))[x] == if x in done then multiset(ids)[x] else 0
  {
    if done != [] {
      var init, key := done[..|done| - 1], done[|done| - 1];
      TransformCount(ids, init, x);
      MatchCount(ids, key, x);
      assert done == init + [key];
    }
  }

  // ---------------------------------------------------------------- and in which order

  /** The ids of no key, from the first to the last. */
  function Unknown(ids: seq<nat>, keys: seq<nat>): seq<nat> {
    if ids == [] then [] else (if ids[0] in keys then [] else [ids[0]]) + Unknown(ids[1..], keys)
  }

  /** The keys in range that are not among the ids, from the first to the last. */
  function Missing(ids: seq<nat>, keys: seq<nat>, near: nat -> bool): seq<nat> {
    if keys == [] then []
    else (if keys[0] !in ids && near(keys[0]) then [keys[0]] else []) + Missing(ids, keys[1..], near)
  }

  function Again(n: nat, s: seq<nat>): seq<nat> {
    if n == 0 then [] else s + Again(n - 1, s)
  }

  /** Each key as often as it is among the ids, from the first key to the last. */
  function Shared(ids: seq<nat>, keys: seq<nat>): seq<nat> {
    if keys == [] then [] else Again(multiset(ids)[keys[0]], [keys[0]]) + Shared(ids, keys[1..])
  }

  lemma {:induction false} UnknownAdd(ids: seq<nat>, keys: seq<nat>, x: nat)
    ensures Unknown(ids + [x], keys) == Unknown(ids, keys) + if x in keys then [] else [x]
  {
    if ids != [] {
      UnknownAdd(ids[1..], keys, x);
      assert (ids + [x])[1..] == ids[1..] + [x];
    }
  }

  lemma {:induction false} MissingAdd(ids: seq<nat>, keys: seq<nat>, near: nat -> bool, x: nat)
    ensures Missing(ids, keys + [x], near) == Missing(ids, keys, near) + if x !in ids && near(x) then [x] else []
  {
    if keys != [] {
      MissingAdd(ids, keys[1..], near, x);
      assert (keys + [x])[1..] == keys[1..] + [x];
    }
  }

  lemma {:induction false} AgainAdd(n: nat, s: seq<nat>)
    ensures Again(n, s) + s == Again(n + 1, s)
  {
    if n > 0 {
      AgainAdd(n - 1, s);
      assert s + Again(n - 1, s) + s == s + (Again(n - 1, s) + s);
    }
  }

  lemma {:induction false} SharedAdd(ids: seq<nat>, keys: seq<nat>, x: nat)
    ensures Shared(ids, keys + [x]) == Shared(ids, keys) + Again(multiset(ids)[x], [x])
  {
    if keys != [] {
      SharedAdd(ids, keys[1..], x);
      assert (keys + [x])[1..] == keys[1..] + [x];
    } else {
      assert (keys + [x])[1..] == [];
    }
  }

  lemma {:induction false} StaleInOrder(ids: seq<nat>, keys: seq<nat>)
    ensures Stale(ids, keys) == Unknown(ids, keys)
  {
    if ids != [] {
      var init, x := ids[..|ids| - 1], ids[|ids| - 1];
      StaleInOrder(init, keys);
      UnknownAdd(init, keys, x);
      assert ids == init + [x];
    }
  }

  lemma {:induction false} DestroysInOrder(n: nat, stale: seq<nat>)
    ensures Destroys(n, stale) == Again(n, stale)
  {
    if n > 0 {
      DestroysInOrder(n - 1, stale);
      AgainAdd(n - 1, stale);
    }
  }

  lemma {:induction false} CreatesInOrder(ids: seq<nat>, keys: seq<nat>, done: seq<nat>, near: nat -> bool)
    ensures Creates(ids, keys, done, near) == if AllKnown(ids, keys) then Missing(ids, done, near) else []
  {
    if done != [] {
      var init, x := done[..|done| - 1], done[|done| - 1];
      CreatesInOrder(ids, keys, init, near);
      StateIsCreate(ids, keys, x);
      MissingAdd(ids, init, near, x);
      assert done == init + [x];
    }
  }

  lemma {:induction false} MatchesInOrder(ids: seq<nat>, key: nat)
    ensures Matches(ids, key) == Again(multiset(ids)[key], [key])
  {
    if ids != [] {
      var init: seq<nat>, x := ids[..|ids| - 1], ids[|ids| - 1];
      MatchesInOrder(init, key);
      AgainAdd(multiset(init)[key], [key]);
      assert ids == init + [x];
    }
  }

  lemma {:induction false} TransformsInOrder(ids: seq<nat>, done: seq<nat>)
    ensures Transforms(ids, done) == Shared(ids, done)
  {
    if done != [] {
      var init, x := done[..|done| - 1], done[|done| - 1];
      TransformsInOrder(ids, init);
      MatchesInOrder(ids, x);
      SharedAdd(ids, init, x);
      assert done == init + [x];
    }
  }

  /** The whole reply, in its order: the state comes back, what is missing is created unless an id is stale,
      and the stale ids come once for each key. */
  lemma ReplyIsInOrder(request: Request, keys: seq<nat>, near: nat -> bool)
    ensures var reply := ReplyTo(request, keys, near);
            && reply.state == request.state
            && reply.creates == (if AllKnown(request.ids, keys) then Missing(request.ids, keys, near) else [])
            && reply.destroys == Again(|keys|, Unknown(request.ids, keys))
  {
    CreatesInOrder(request.ids, keys, keys, near);
    StaleInOrder(request.ids, keys);
    DestroysInOrder(|keys|, Unknown(request.ids, keys));
  }

  // ---------------------------------------------------------------- the player

  class Player {
    const sessionid: nat
    var position: Vec
    var updateState: nat
    var farClipDistance: real
    var createEntityQueue: seq<nat>
    var destroyEntityQueue: seq<nat>
    var transformEntityQueue: seq<nat>

    constructor (sessionid: nat, position: Vec)
      ensures this.sessionid == sessionid && this.position == position && QueuesAre([], [], [])
      ensures updateState == 0 && farClipDistance == 0.0
    {
      this.sessionid, this.position := sessionid, position;
      updateState, farClipDistance := 0, 0.0;
      createEntityQueue, destroyEntityQueue, transformEntityQueue := [], [], [];
    }

    ghost predicate QueuesAre(creates: seq<nat>, destroys: seq<nat>, transforms: seq<nat>)
      reads this
    {
      createEntityQueue == creates && destroyEntityQueue == destroys && transformEntityQueue == transforms
    }

    method DestroyEntity(sessionid: nat)
      modifies this`destroyEntityQueue
      ensures destroyEntityQueue == old(destroyEntityQueue) + [sessionid]
    {
      destroyEntityQueue := destroyEntityQueue + [sessionid];
    }

    /** An entity that is gone is passed over. */
    method TransformEntity(sessionid: nat, entities: map<nat, Vec>)
      modifies this`transformEntityQueue
      ensures transformEntityQueue == old(transformEntityQueue) + if sessionid in entities then [sessionid] else []
    {
      if sessionid in entities {
        transformEntityQueue := transformEntityQueue + [sessionid];
      }
    }

    method CreateEntity(sessionid: nat, entities: map<nat, Vec>)
      modifies this`createEntityQueue
      ensures createEntityQueue
           == old(createEntityQueue) + if Near(entities, position, farClipDistance, sessionid) then [sessionid] else []
    {
      if sessionid in entities {
        var distance := Squared(position, entities[sessionid]);
        if distance <= farClipDistance * farClipDistance {
          createEntityQueue := createEntityQueue + [sessionid];
        }
      }
    }

    method ClearAll()
      modifies this`createEntityQueue, this`destroyEntityQueue, this`transformEntityQueue
      ensures QueuesAre([], [], [])
    {
      createEntityQueue, destroyEntityQueue, transformEntityQueue := [], [], [];
    }

    /** The inner loop of `ObjectsData`, over the client's ids. */
    method CompareIds(ids: seq<nat>, keys: seq<nat>, key: nat, entities: map<nat, Vec>) returns (entityState: nat)
      requires AreKeys(keys, entities) && key in keys
      modifies this`destroyEntityQueue, this`transformEntityQueue
      ensures entityState == StateOf(ids, keys, key)
      ensures destroyEntityQueue == old(destroyEntityQueue) + Stale(ids, keys)
      ensures transformEntityQueue == old(transformEntityQueue) + Matches(ids, key)
    {
      entityState := 0;
      for i := 0 to |ids|
        invariant entityState == StateOf(ids[..i], keys, key)
        invariant destroyEntityQueue == old(destroyEntityQueue) + Stale(ids[..i], keys)
        invariant transformEntityQueue == old(transformEntityQueue) + Matches(ids[..i], key)
      {
        assert ids[..i + 1][..i] == ids[..i];
        if ids[i] !in keys {
          entityState := 1;
          DestroyEntity(ids[i]);
        }
        if ids[i] == key {
          entityState := 2;
          TransformEntity(ids[i], entities);
        }
      }
      assert ids[..|ids|] == ids;
    }

    /** `Receive::ObjectsData`, with the packets it sends as results. */
    method ObjectsData(request: Request, keys: seq<nat>, entities: map<nat, Vec>)
      returns (reply: Reply, transforms: seq<nat>)
      requires AreKeys(keys, entities) && QueuesAre([], [], [])
      modifies this`updateState, this`farClipDistance,
               this`createEntityQueue, this`destroyEntityQueue, this`transformEntityQueue
      ensures reply == ReplyTo(request, keys, InRange(entities, position, request.clip))
      ensures transforms == Transforms(request.ids, keys)
      ensures updateState == request.state && farClipDistance == request.clip && QueuesAre([], [], [])
    {
      updateState, farClipDistance := request.state, request.clip;
      ghost var near := InRange(entities, position, request.clip);
      ghost var stale := Stale(request.ids, keys);
      for i := 0 to |keys|
        invariant updateState == request.state && farClipDistance == request.clip
        invariant destroyEntityQueue == Destroys(i, stale)
        invariant transformEntityQueue == Transforms(request.ids, keys[..i])
        invariant createEntityQueue == Creates(request.ids, keys, keys[..i], near)
      {
        assert keys[..i + 1][..i] == keys[..i];
        var entityState := CompareIds(request.ids, keys, keys[i], entities);
        if entityState == 0 {
          CreateEntity(keys[i], entities);
        }
      }
      assert keys[..|keys|] == keys;
      reply := Reply(updateState, createEntityQueue, destroyEntityQueue);
      transforms := transformEntityQueue;
      ClearAll();
    }
  }
}
