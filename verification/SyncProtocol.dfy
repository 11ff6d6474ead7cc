/** The two halves together, as a state machine whose steps are a frame of the client, the server's
    answer to a request, and the arrival of a packet. Entities join and leave the server between any
    two steps: every answer is given for the keys and positions of its own moment. */
module SyncProtocol {
  import opened TextStream
  import opened SyncServer
  import opened SyncClient

  datatype Message = Login(create: Create) | Update(state: nat, creates: seq<Create>, destroys: seq<nat>)

  /** The packets under way in each direction, oldest first. */
  datatype System = System(client: Client, up: seq<Request>, down: seq<Message>)

  /** The server's entities at the moment of an answer: their keys in the order of the hash map, which of
      them are in range, and their modes. */
  datatype Scene = Scene(keys: seq<nat>, near: nat -> bool, modes: nat -> nat)

  datatype Action = Tick(due: bool, clip: real) | Serve(scene: Scene) | Deliver

  /** After the login: the server has sent the client its own entity. */
  function Start(own: nat): System {
    System(NEW_CLIENT, [], [Login(Create(own, 2))])
  }

  function WithModes(ids: seq<nat>, modes: nat -> nat): (creates: seq<Create>)
    ensures CreateIds(creates) == ids
  {
    var creates := seq(|ids|, i requires 0 <= i < |ids| => Create(ids[i], modes(ids[i])));
    assert forall i | 0 <= i < |ids| :: CreateIds(creates)[i] == ids[i];
    creates
  }

  function Answer(request: Request, scene: Scene): Message {
    var reply := ReplyTo(request, scene.keys, scene.near);
    Update(reply.state, WithModes(reply.creates, scene.modes), reply.destroys)
  }

  /** The whole answer: the creates have the modes of their entities. */
  lemma AnswerInOrder(request: Request, scene: Scene)
    ensures var answer := Answer(request, scene);
            && answer.Update? && answer.state == request.state
            && CreateIds(answer.creates) == (if AllKnown(request.ids, scene.keys)
                                             then Missing(request.ids, scene.keys, scene.near) else [])
            && (forall i | 0 <= i < |answer.creates| ::
                  answer.creates[i].mode == scene.modes(answer.creates[i].sessionid))
            && answer.destroys == Again(|scene.keys|, Unknown(request.ids, scene.keys))
  {
    ReplyIsInOrder(request, scene.keys, scene.near);
  }

  function Arrive(c: Client, m: Message): Client {
    match m
    case Login(create) => c.(creates := c.creates + [create])
    case Update(state, creates, destroys) => Accept(c, state, creates, destroys)
  }

  function Step(s: System, a: Action): System {
    match a
    case Tick(due, clip) =>
      var (client, sent) := Frame(s.client, due, clip);
      s.(client := client, up := if sent.Some? then s.up + [sent.value] else s.up)
    case Serve(scene) =>
      if s.up == [] then s else s.(up := s.up[1..], down := s.down + [Answer(s.up[0], scene)])
    case Deliver =>
      if s.down == [] then s else s.(client := Arrive(s.client, s.down[0]), down := s.down[1..])
  }

  function Run(s: System, run: seq<Action>): System
    decreases |run|
  {
    if run == [] then s else Run(Step(s, run[0]), run[1..])
  }

  ghost predicate Legal(run: seq<Action>) {
    forall i | 0 <= i < |run| && run[i].Serve? :: Distinct(run[i].scene.keys)
  }

  // ---------------------------------------------------------------- what every run keeps

  ghost predicate Quiet(c: Client) {
    c.creates == [] && c.destroys == []
  }

  ghost predicate FreshCreates(c: Client, creates: seq<Create>) {
    Distinct(CreateIds(creates)) && Apart(CreateIds(creates), Ids(c.objects))
  }

  /** The client has its own entity, and no two entities with one session id. */
  ghost predicate Sound(c: Client, own: nat) {
    c.entity == Some(own) && own in Ids(c.objects) && Unique(c.objects)
  }

  datatype Phase = LoggedIn | Born | Idle | Asking | Answered

  ghost predicate InPhase(s: System, own: nat, p: Phase) {
    match p
    case LoggedIn => s == Start(own)
    case Born => s == System(NEW_CLIENT.(creates := [Create(own, 2)]), [], [])
    case Idle =>
      s.up == [] && s.down == [] && s.client.flag == 1 && Sound(s.client, own)
          && FreshCreates(s.client, s.client.creates)
    case Asking =>
      && |s.up| == 1 && s.down == [] && s.client.flag == 0 && Sound(s.client, own) && Quiet(s.client)
      && s.up[0].ids == Ids(s.client.objects) && s.up[0].state == 1
    case Answered =>
      && s.up == [] && |s.down| == 1 && s.client.flag == 0 && Sound(s.client, own) && Quiet(s.client)
      && s.down[0].Update? && s.down[0].state == 1 && FreshCreates(s.client, s.down[0].creates)
  }

  ghost predicate Inv(s: System, own: nat) {
    exists p :: InPhase(s, own, p)
  }

  lemma QuietDrained(c: Client)
    requires Quiet(c)
    ensures Drained(c) == c
  {
  }

  lemma BornTick(own: nat)
    ensures var d := Drained(NEW_CLIENT.(creates := [Create(own, 2)]));
            d == Client([Obj(own, 2, false)], Some(own), 1, [], []) && Sound(d, own)
  {
    var c := Create(own, 2);
    assert Init([c]) == [] && [] + [Obj(own, 2, false)] == [Obj(own, 2, false)];
    assert CreateAll([Obj(own, 2, false)], Some(own), []) == ([Obj(own, 2, false)], Some(own));
    assert Ids([Obj(own, 2, false)])[0] == own;
  }

  lemma TickKeeps(s: System, own: nat, p: Phase, due: bool, clip: real)
    requires InPhase(s, own, p)
    ensures Inv(Step(s, Tick(due, clip)), own)
  {
    var next := Step(s, Tick(due, clip));
    match p {
      case LoggedIn =>
        QuietDrained(s.client);
        assert InPhase(next, own, LoggedIn);
      case Born =>
        BornTick(own);
        assert InPhase(next, own, if due then Asking else Idle);
      case Idle =>
        DrainedIs(s.client);
        assert InPhase(next, own, if due then Asking else Idle);
      case Asking =>
        QuietDrained(s.client);
        assert InPhase(next, own, Asking);
      case Answered =>
        QuietDrained(s.client);
        assert InPhase(next, own, Answered);
    }
  }

  lemma ServeKeeps(s: System, own: nat, p: Phase, scene: Scene)
    requires InPhase(s, own, p) && Distinct(scene.keys)
    ensures Inv(Step(s, Serve(scene)), own)
  {
    if p == Asking {
      CreatesAre(s.up[0].ids, scene.keys, scene.keys, scene.near);
      assert InPhase(Step(s, Serve(scene)), own, Answered);
    } else {
      assert InPhase(Step(s, Serve(scene)), own, p);
    }
  }

  lemma DeliverKeeps(s: System, own: nat, p: Phase)
    requires InPhase(s, own, p)
    ensures Inv(Step(s, Deliver), own)
  {
    var next := Step(s, Deliver);
    match p {
      case LoggedIn =>
        assert [] + [Create(own, 2)] == [Create(own, 2)];
        assert InPhase(next, own, Born);
      case Answered =>
        assert [] + s.down[0].creates == s.down[0].creates;
        assert InPhase(next, own, Idle);
      case _ =>
        assert InPhase(next, own, p);
    }
  }

  lemma StepKeeps(s: System, own: nat, a: Action)
    requires Inv(s, own) && (a.Serve? ==> Distinct(a.scene.keys))
    ensures Inv(Step(s, a), own)
  {
    var p :| InPhase(s, own, p);
    match a {
      case Tick(due, clip) => TickKeeps(s, own, p, due, clip);
      case Serve(scene) => ServeKeeps(s, own, p, scene);
      case Deliver => DeliverKeeps(s, own, p);
    }
  }

  lemma {:induction false} RunKeeps(s: System, own: nat, run: seq<Action>)
    requires Inv(s, own) && Legal(run)
    ensures Inv(Run(s, run), own)
    decreases |run|
  {
    if run != [] {
      StepKeeps(s, own, run[0]);
      RunKeeps(Step(s, run[0]), own, run[1..]);
    }
  }

  function Updates(down: seq<Message>): nat {
    if down == [] then 0 else (if down[0].Update? then 1 else 0) + Updates(down[1..])
  }

  /** In every reachable state the flag, the requests under way and the replies under way are one in all;
      the client has no two entities with one session id; and its own entity, once there, is in its
      list. */
  lemma {:induction false} AlwaysSound(own: nat, run: seq<Action>)
    requires Legal(run)
    ensures var s := Run(Start(own), run);
            && s.client.flag + |s.up| + Updates(s.down) == 1
            && Unique(s.client.objects)
            && (s.client.objects != [] ==> s.client.entity == Some(own) && own in Ids(s.client.objects))
  {
    assert InPhase(Start(own), own, LoggedIn);
    RunKeeps(Start(own), own, run);
    var s := Run(Start(own), run);
    var p :| InPhase(s, own, p);
    assert s.down != [] ==> Updates(s.down[1..]) == 0;
  }

  lemma {:induction false} RunConcat(s: System, a: seq<Action>, b: seq<Action>)
    ensures Run(s, a + b) == Run(Run(s, a), b)
    decreases |a|
  {
    if a == [] {
      assert a + b == b;
    } else {
      assert (a + b)[0] == a[0] && (a + b)[1..] == a[1..] + b;
      RunConcat(Step(s, a[0]), a[1..], b);
    }
  }

  ghost predicate HasOwn(s: System, own: nat) {
    s.client.entity == Some(own) && own in Ids(s.client.objects)
  }

  lemma StepKeepsOwn(s: System, own: nat, a: Action)
    requires Inv(s, own) && HasOwn(s, own)
    ensures HasOwn(Step(s, a), own)
  {
    var p :| InPhase(s, own, p);
    if a.Tick? {
      if p == Idle {
        DrainedIs(s.client);
      } else {
        QuietDrained(s.client);
      }
    }
  }

  /** The client's own entity is never removed, whatever the server's keys are. */
  lemma {:induction false} OwnIsNeverRemoved(s: System, own: nat, run: seq<Action>)
    requires Inv(s, own) && HasOwn(s, own) && Legal(run)
    ensures HasOwn(Run(s, run), own)
    decreases |run|
  {
    if run != [] {
      StepKeepsOwn(s, own, run[0]);
      StepKeeps(s, own, run[0]);
      OwnIsNeverRemoved(Step(s, run[0]), own, run[1..]);
    }
  }

  // ---------------------------------------------------------------- convergence

  function IdSet(c: Client): set<nat> {
    set x | x in Ids(c.objects)
  }

  function ArriveAll(c: Client, down: seq<Message>): Client
    decreases |down|
  {
    if down == [] then c else ArriveAll(Arrive(c, down[0]), down[1..])
  }

  /** The ids that the client will have once everything under way to it has arrived and been drained. */
  function Settled(s: System): set<nat> {
    IdSet(Drained(ArriveAll(s.client, s.down)))
  }

  /** What one answer does to them. */
  function Reconcile(ids: set<nat>, keys: set<nat>, near: set<nat>): set<nat> {
    if ids <= keys then ids + near else ids * keys
  }

  function KeySet(scene: Scene): set<nat> {
    set x | x in scene.keys
  }

  function NearSet(scene: Scene): set<nat> {
    set x | x in scene.keys && scene.near(x)
  }

  lemma DrainTwice(c: Client)
    ensures Drained(Drained(c)) == Drained(c)
  {
  }

  lemma TickSettles(s: System, own: nat, due: bool, clip: real)
    requires Inv(s, own)
    ensures Settled(Step(s, Tick(due, clip))) == Settled(s)
  {
    var p :| InPhase(s, own, p);
    DrainTwice(s.client);
    if p != Born && p != Idle {
      QuietDrained(s.client);
    }
    var next := Step(s, Tick(due, clip));
    if p == Born || p == Idle {
      assert ArriveAll(s.client, s.down) == s.client && ArriveAll(next.client, next.down) == next.client;
      assert next.client.objects == Drained(s.client).objects;
      QuietDrained(next.client);
    }
  }

  lemma DeliverSettles(s: System)
    ensures Settled(Step(s, Deliver)) == Settled(s)
  {
  }

  /** The queues of a client that has sent its ids, when the answer arrives. */
  lemma AnswerQueues(c: Client, ids: seq<nat>, scene: Scene)
    requires Quiet(c) && Distinct(scene.keys) && scene.keys != []
    ensures var d := Arrive(c, Answer(Request(1, 0.0, ids), scene));
            && d.objects == c.objects && d.entity == c.entity && Distinct(CreateIds(d.creates))
            && (forall x :: x in d.destroys <==> x in ids && x !in scene.keys)
            && (forall x :: x in CreateIds(d.creates) <==>
                  AllKnown(ids, scene.keys) && x in scene.keys && x !in ids && scene.near(x))
  {
    var creates := WithModes(Creates(ids, scene.keys, scene.keys, scene.near), scene.modes);
    var destroys := Destroys(|scene.keys|, Stale(ids, scene.keys));
    assert [] + creates == creates && [] + destroys == destroys;
    CreatesAre(ids, scene.keys, scene.keys, scene.near);
    forall x ensures x in destroys <==> x in ids && x !in scene.keys {
      StaleAre(ids, scene.keys, x);
      DestroysAre(|scene.keys|, Stale(ids, scene.keys), x);
    }
  }

  /** The client with the answer drained. */
  lemma AnswerLeaves(c: Client, own: nat, ids: seq<nat>, scene: Scene, d: Client)
    requires Sound(c, own) && Quiet(c) && ids == Ids(c.objects)
    requires Distinct(scene.keys) && own in scene.keys
    requires d == Arrive(c, Answer(Request(1, 0.0, ids), scene))
    ensures forall x :: x in Ids(Drained(d).objects) <==>
              || (x in ids && x in scene.keys)
              || (AllKnown(ids, scene.keys) && x in scene.keys && x !in ids && scene.near(x))
  {
    AnswerQueues(c, ids, scene);
    DrainedIs(d);
  }

  lemma AnswerDrained(c: Client, own: nat, ids: seq<nat>, scene: Scene, d: Client)
    requires Sound(c, own) && Quiet(c) && ids == Ids(c.objects)
    requires Distinct(scene.keys) && own in scene.keys
    requires d == Arrive(c, Answer(Request(1, 0.0, ids), scene))
    ensures IdSet(Drained(d)) == Reconcile(IdSet(c), KeySet(scene), NearSet(scene))
  {
    AnswerLeaves(c, own, ids, scene, d);
    SetReconciles(ids, scene, Ids(Drained(d).objects));
  }

  lemma SetReconciles(ids: seq<nat>, scene: Scene, after: seq<nat>)
    requires forall x :: x in after <==>
              || (x in ids && x in scene.keys)
              || (AllKnown(ids, scene.keys) && x in scene.keys && x !in ids && scene.near(x))
    ensures (set x | x in after) == Reconcile((set x | x in ids), KeySet(scene), NearSet(scene))
  {
    var before := set x | x in ids;
    assert before <= KeySet(scene) <==> AllKnown(ids, scene.keys) by {
      assert forall x :: x in before <==> x in ids;
    }
  }

  lemma ServeSettles(s: System, own: nat, scene: Scene)
    requires InPhase(s, own, Asking) && Distinct(scene.keys) && own in scene.keys
    ensures Settled(Step(s, Serve(scene))) == Reconcile(Settled(s), KeySet(scene), NearSet(scene))
  {
    var c, m := s.client, Answer(s.up[0], scene);
    QuietDrained(c);
    assert ArriveAll(c, s.down) == c;
    assert [] + [m] == [m] && [m][1..] == [];
    assert ArriveAll(c, [m]) == Arrive(c, m);
    AnswerDrained(c, own, s.up[0].ids, scene, Arrive(c, m));
  }

  /** Two answers reconcile the client with the server, and a third changes nothing; one is enough
      exactly if no id is stale or nothing in range is missing. */
  lemma ReconcileTwice(ids: set<nat>, keys: set<nat>, near: set<nat>)
    requires near <= keys
    ensures var once, target := Reconcile(ids, keys, near), ids * keys + near;
            && Reconcile(once, keys, near) == target && Reconcile(target, keys, near) == target
            && (once == target <==> ids <= keys || near <= ids)
  {
  }

  /** Every answer of a run is given for the same entities at the same places. */
  ghost predicate Still(s: System, run: seq<Action>, own: nat, keys: set<nat>, near: set<nat>)
    decreases |run|
  {
    run == [] ||
    ((run[0].Serve? && s.up != [] ==> ShowsScene(run[0].scene, own, keys, near))
     && Still(Step(s, run[0]), run[1..], own, keys, near))
  }

  ghost predicate ShowsScene(scene: Scene, own: nat, keys: set<nat>, near: set<nat>) {
    Distinct(scene.keys) && own in scene.keys && KeySet(scene) == keys && NearSet(scene) == near
  }

  /** How many requests a run answers. */
  function Answers(s: System, run: seq<Action>): nat
    decreases |run|
  {
    if run == [] then 0
    else (if run[0].Serve? && s.up != [] then 1 else 0) + Answers(Step(s, run[0]), run[1..])
  }

  function Times(n: nat, ids: set<nat>, keys: set<nat>, near: set<nat>): set<nat> {
    if n == 0 then ids else Times(n - 1, Reconcile(ids, keys, near), keys, near)
  }

  lemma {:induction false} RunSettles(s: System, own: nat, run: seq<Action>, keys: set<nat>, near: set<nat>)
    requires Inv(s, own) && Still(s, run, own, keys, near)
    ensures Settled(Run(s, run)) == Times(Answers(s, run), Settled(s), keys, near)
    decreases |run|
  {
    if run != [] {
      var next := Step(s, run[0]);
      if !(run[0].Serve? && s.up == []) {
        StepKeeps(s, own, run[0]);
      }
      RunSettles(next, own, run[1..], keys, near);
      match run[0] {
        case Tick(due, clip) => TickSettles(s, own, due, clip);
        case Deliver => DeliverSettles(s);
        case Serve(scene) =>
          if s.up != [] {
            assert InPhase(s, own, Asking);
            ServeSettles(s, own, scene);
          }
      }
    }
  }

  lemma {:induction false} TimesIs(n: nat, ids: set<nat>, keys: set<nat>, near: set<nat>)
    requires near <= keys && n >= 2
    ensures Times(n, ids, keys, near) == ids * keys + near
    decreases n
  {
    var target := ids * keys + near;
    ReconcileTwice(ids, keys, near);
    assert Times(n, ids, keys, near) == Times(n - 2, target, keys, near);
    TimesStay(n - 2, target, keys, near);
  }

  lemma {:induction false} TimesStay(n: nat, ids: set<nat>, keys: set<nat>, near: set<nat>)
    requires Reconcile(ids, keys, near) == ids
    ensures Times(n, ids, keys, near) == ids
  {
    if n > 0 {
      TimesStay(n - 1, ids, keys, near);
    }
  }

  /** Convergence, on every schedule of frames, answers and arrivals: while the server's entities stay as
      they are, from the second answer on the client settles on the ids that it had and the server
      knows, and those in range; and that is what it has whenever nothing is under way to it and its
      queues are drained. */
  lemma {:induction false} Converges(s: System, own: nat, run: seq<Action>, keys: set<nat>, near: set<nat>)
    requires Inv(s, own) && Still(s, run, own, keys, near) && Answers(s, run) >= 2
    ensures var after, target := Run(s, run), Settled(s) * keys + near;
            && Settled(after) == target
            && (after.down == [] && Quiet(after.client) ==> IdSet(after.client) == target)
  {
    RunSettles(s, own, run, keys, near);
    NearIsKnown(s, own, run, keys, near);
    TimesIs(Answers(s, run), Settled(s), keys, near);
    if Run(s, run).down == [] && Quiet(Run(s, run).client) {
      IdleShowsSettled(Run(s, run));
    }
  }

  lemma {:induction false} NearIsKnown(s: System, own: nat, run: seq<Action>, keys: set<nat>, near: set<nat>)
    requires Still(s, run, own, keys, near) && Answers(s, run) > 0
    ensures near <= keys
    decreases |run|
  {
    if !(run[0].Serve? && s.up != []) {
      NearIsKnown(Step(s, run[0]), own, run[1..], keys, near);
    }
  }

  /** When nothing is under way to the client and its queues are drained, what it settles on is what it
      has. */
  lemma IdleShowsSettled(s: System)
    requires s.down == [] && Quiet(s.client)
    ensures Settled(s) == IdSet(s.client)
  {
    QuietDrained(s.client);
  }

  // ---------------------------------------------------------------- convergence in space

  /** Every answer is what the server gives for these entities around this place, with the clip distance
      of the request, and the client never changes that distance. */
  ghost predicate Served(s: System, run: seq<Action>, entities: map<nat, Vec>, place: Vec, clip: real)
    decreases |run|
  {
    run == [] ||
    (&& (run[0].Tick? ==> run[0].clip == clip)
     && (run[0].Serve? && s.up != [] ==>
           && AreKeys(run[0].scene.keys, entities)
           && run[0].scene.near == InRange(entities, place, s.up[0].clip))
     && Served(Step(s, run[0]), run[1..], entities, place, clip))
  }

  ghost predicate AllClips(up: seq<Request>, clip: real) {
    forall i | 0 <= i < |up| :: up[i].clip == clip
  }

  function Around(entities: map<nat, Vec>, place: Vec, clip: real): set<nat> {
    set id | id in entities && Near(entities, place, clip, id)
  }

  lemma {:induction false} ServedIsStill(s: System, run: seq<Action>, own: nat, entities: map<nat, Vec>, place: Vec,
                                         clip: real)
    requires Served(s, run, entities, place, clip) && AllClips(s.up, clip) && own in entities
    ensures Still(s, run, own, entities.Keys, Around(entities, place, clip))
    decreases |run|
  {
    if run != [] {
      var next := Step(s, run[0]);
      assert AllClips(next.up, clip);
      ServedIsStill(next, run[1..], own, entities, place, clip);
      if run[0].Serve? && s.up != [] {
        assert s.up[0].clip == clip;
        SceneAround(run[0].scene, entities, place, clip);
      }
    }
  }

  lemma SceneAround(scene: Scene, entities: map<nat, Vec>, place: Vec, clip: real)
    requires AreKeys(scene.keys, entities) && scene.near == InRange(entities, place, clip)
    ensures KeySet(scene) == entities.Keys && NearSet(scene) == Around(entities, place, clip)
  {
    assert forall id :: id in KeySet(scene) <==> id in entities;
    assert forall id :: id in NearSet(scene) <==> id in entities && Near(entities, place, clip, id);
  }

  /** Convergence where the entities are: the client ends up with those it had that the server still has,
      and those within its clip distance of the place of its own entity. */
  lemma ConvergesInRange(s: System, own: nat, run: seq<Action>, entities: map<nat, Vec>, place: Vec, clip: real)
    requires Inv(s, own) && own in entities && AllClips(s.up, clip)
    requires Served(s, run, entities, place, clip) && Answers(s, run) >= 2
    ensures var after := Run(s, run);
            var target := Settled(s) * entities.Keys + Around(entities, place, clip);
            && Settled(after) == target
            && (after.down == [] && Quiet(after.client) ==> IdSet(after.client) == target)
  {
    ServedIsStill(s, run, own, entities, place, clip);
    Converges(s, own, run, entities.Keys, Around(entities, place, clip));
  }

  // ---------------------------------------------------------------- progress

  /** A packet arrives, the session timer fires, and the server answers. */
  function Round(scene: Scene, clip: real): seq<Action> {
    [Deliver, Tick(true, clip), Serve(scene)]
  }

  /** Two rounds, the arrival of the second answer, and a frame that drains it. */
  function TwoRounds(scene: Scene, clip: real): seq<Action> {
    Round(scene, clip) + (Round(scene, clip) + [Deliver, Tick(false, clip)])
  }

  lemma {:induction false} RunTwo(s: System, a: Action, b: Action)
    ensures Run(s, [a, b]) == Step(Step(s, a), b)
  {
    assert [a, b][1..] == [b] && [b][1..] == [];
    assert Run(Step(s, a), [b]) == Run(Step(Step(s, a), b), []);
  }

  lemma {:induction false} AnswersConcat(s: System, a: seq<Action>, b: seq<Action>)
    ensures Answers(s, a + b) == Answers(s, a) + Answers(Run(s, a), b)
    decreases |a|
  {
    if a == [] {
      assert a + b == b;
    } else {
      assert (a + b)[0] == a[0] && (a + b)[1..] == a[1..] + b;
      AnswersConcat(Step(s, a[0]), a[1..], b);
    }
  }

  lemma {:induction false} RunRound(s: System, scene: Scene, clip: real)
    ensures Run(s, Round(scene, clip)) == Step(Step(Step(s, Deliver), Tick(true, clip)), Serve(scene))
    ensures Answers(s, Round(scene, clip)) == if Step(Step(s, Deliver), Tick(true, clip)).up != [] then 1 else 0
  {
    var run := Round(scene, clip);
    var s1 := Step(s, Deliver);
    var s2 := Step(s1, Tick(true, clip));
    assert run[1..] == [Tick(true, clip), Serve(scene)] && run[1..][1..] == [Serve(scene)] && run[1..][1..][1..] == [];
    assert Run(s, run) == Run(s1, run[1..]) == Run(s2, [Serve(scene)]) == Run(Step(s2, Serve(scene)), []);
    assert Answers(Step(s2, Serve(scene)), []) == 0;
    assert Answers(s, run) == Answers(s1, run[1..]) == Answers(s2, [Serve(scene)]);
  }

  /** Whatever is under way, after an arrival and a due frame there is a request under way. */
  lemma RequestIsMade(s: System, own: nat, clip: real)
    requires Inv(s, own)
    ensures InPhase(Step(Step(s, Deliver), Tick(true, clip)), own, Asking)
  {
    var p :| InPhase(s, own, p);
    DeliverKeeps(s, own, p);
    var s1 := Step(s, Deliver);
    match p {
      case LoggedIn =>
        assert [] + [Create(own, 2)] == [Create(own, 2)];
        assert InPhase(s1, own, Born);
        BornTick(own);
      case Born => BornTick(own);
      case Idle => DrainedIs(s1.client);
      case Asking => QuietDrained(s1.client);
      case Answered =>
        assert [] + s.down[0].creates == s.down[0].creates;
        DrainedIs(s1.client);
    }
  }

  /** So a round has exactly one answer. */
  lemma RoundIsAnswered(s: System, own: nat, scene: Scene, clip: real)
    requires Inv(s, own) && Distinct(scene.keys)
    ensures InPhase(Run(s, Round(scene, clip)), own, Answered) && Answers(s, Round(scene, clip)) == 1
  {
    RequestIsMade(s, own, clip);
    RunRound(s, scene, clip);
    var s2 := Step(Step(s, Deliver), Tick(true, clip));
    CreatesAre(s2.up[0].ids, scene.keys, scene.keys, scene.near);
  }

  /** The second answer arrives and is drained. */
  lemma AnswerIsTaken(s: System, own: nat, clip: real)
    requires InPhase(s, own, Answered)
    ensures var after := Run(s, [Deliver, Tick(false, clip)]);
            && after.up == [] && after.down == [] && Quiet(after.client) && after.client.flag == 1
            && Answers(s, [Deliver, Tick(false, clip)]) == 0
  {
    RunTwo(s, Deliver, Tick(false, clip));
    var run := [Deliver, Tick(false, clip)];
    assert run[1..] == [Tick(false, clip)] && run[1..][1..] == [];
    assert Answers(Step(Step(s, Deliver), Tick(false, clip)), []) == 0;
    assert Answers(Step(s, Deliver), [Tick(false, clip)]) == 0;
  }

  /** Progress: from every state that can be reached, eight steps answer two requests, and then nothing is
      under way and the queues are drained. */
  lemma TwoRoundsAreAnswered(s: System, own: nat, scene: Scene, clip: real)
    requires Inv(s, own) && Distinct(scene.keys)
    ensures var run := TwoRounds(scene, clip);
            var after := Run(s, run);
            && |run| == 8 && Answers(s, run) == 2
            && after.up == [] && after.down == [] && Quiet(after.client) && after.client.flag == 1
  {
    var round, last := Round(scene, clip), [Deliver, Tick(false, clip)];
    var s1 := Run(s, round);
    var s2 := Run(s1, round);
    RoundIsAnswered(s, own, scene, clip);
    RoundIsAnswered(s1, own, scene, clip);
    AnswerIsTaken(s2, own, clip);
    RunConcat(s, round, round + last);
    RunConcat(s1, round, last);
    AnswersConcat(s, round, round + last);
    AnswersConcat(s1, round, last);
  }

  lemma {:induction false} SceneIsStill(s: System, run: seq<Action>, own: nat, scene: Scene)
    requires Distinct(scene.keys) && own in scene.keys
    requires forall i | 0 <= i < |run| && run[i].Serve? :: run[i].scene == scene
    ensures Still(s, run, own, KeySet(scene), NearSet(scene))
    decreases |run|
  {
    if run != [] {
      assert forall i | 0 <= i < |run[1..]| :: run[1..][i] == run[i + 1];
      SceneIsStill(Step(s, run[0]), run[1..], own, scene);
    }
  }

  /** The target is reached: after any legal run since the login, eight more steps give the client exactly
      the entities that it would have kept of those that the server knows, and those in range. */
  lemma {:induction false} TargetIsReached(own: nat, run: seq<Action>, scene: Scene, clip: real)
    requires Legal(run) && Distinct(scene.keys) && own in scene.keys
    ensures var s := Run(Start(own), run);
            var after := Run(s, TwoRounds(scene, clip));
            && after.up == [] && after.down == [] && Quiet(after.client)
            && IdSet(after.client) == Settled(s) * KeySet(scene) + NearSet(scene)
  {
    assert InPhase(Start(own), own, LoggedIn);
    RunKeeps(Start(own), own, run);
    var s := Run(Start(own), run);
    TwoRoundsAreAnswered(s, own, scene, clip);
    SceneIsStill(s, TwoRounds(scene, clip), own, scene);
    Converges(s, own, TwoRounds(scene, clip), KeySet(scene), NearSet(scene));
  }
}
