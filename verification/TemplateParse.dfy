/** `Template::parse`: which texts it accepts, and the tree it makes of them. */
module TemplateParse {
  import opened TextStream
  import opened TemplateSyntax
  import opened TemplatePrint
  import opened TemplateBuild

  // ---------------------------------------------------------------- steps and trees

  lemma {:induction false} AllStepsConcat(ps: seq<Part>, qs: seq<Part>)
    ensures AllSteps(ps + qs) == AllSteps(ps) + AllSteps(qs)
  {
    if ps == [] {
      assert ps + qs == qs;
    } else {
      AllStepsConcat(ps[1..], qs);
      Assoc(Steps(ps[0]), AllSteps(ps[1..]), AllSteps(qs));
      assert (ps + qs)[1..] == ps[1..] + qs;
    }
  }

  lemma AllStepsAdd(ps: seq<Part>, p: Part)
    ensures AllSteps(ps + [p]) == AllSteps(ps) + Steps(p)
  {
    AllStepsConcat(ps, [p]);
    assert [p][1..] == [];
  }

  lemma {:induction false} BranchStepsAdd(bs: seq<Branch>, b: Branch, first: bool)
    ensures BranchSteps(bs + [b], first)
         == BranchSteps(bs, first) + [CondStep(b.cond, first && bs == [])] + AllSteps(b.body)
  {
    if bs == [] {
      assert bs + [b] == [b] && [b][1..] == [];
    } else {
      BranchStepsAdd(bs[1..], b, false);
      BranchStepsHead(bs, first);
      BranchStepsHead(bs + [b], first);
      assert (bs + [b])[1..] == bs[1..] + [b];
      var head := [CondStep(bs[0].cond, first)] + AllSteps(bs[0].body);
      Assoc(head, BranchSteps(bs[1..], false), [CondStep(b.cond, false)]);
      Assoc(head, BranchSteps(bs[1..], false) + [CondStep(b.cond, false)], AllSteps(b.body));
    }
  }

  lemma BranchStepsHead(bs: seq<Branch>, first: bool)
    requires bs != []
    ensures BranchSteps(bs, first)
         == [CondStep(bs[0].cond, first)] + AllSteps(bs[0].body) + BranchSteps(bs[1..], false)
  {
  }

  /** The steps that open a block, with those of the parts before it. */
  function FrameSteps(f: Frame): seq<Event> {
    match f
    case InLoop(before, name, query) => AllSteps(before) + [OpenLoop(name, query)]
    case InLogic(before, done, cond) => AllSteps(before) + (BranchSteps(done, true) + [CondStep(cond, done == [])])
  }

  function OpenSteps(frames: seq<Frame>): seq<Event> {
    if frames == [] then [] else OpenSteps(Front(frames)) + FrameSteps(Last(frames))
  }

  function StepsTo(z: Zip): seq<Event> {
    OpenSteps(z.frames) + AllSteps(z.parts)
  }

  lemma OpenStepsAdd(frames: seq<Frame>, f: Frame)
    ensures OpenSteps(frames + [f]) == OpenSteps(frames) + FrameSteps(f)
  {
    assert Front(frames + [f]) == frames;
  }

  lemma AddKept(z: Zip, p: Part, e: Event)
    requires Steps(p) == [e]
    ensures StepsTo(z.(parts := z.parts + [p])) == StepsTo(z) + [e]
  {
    AllStepsAdd(z.parts, p);
    Assoc(OpenSteps(z.frames), AllSteps(z.parts), [e]);
  }

  lemma OpenKept(z: Zip, f: Frame, e: Event)
    requires FrameSteps(f) == AllSteps(z.parts) + [e]
    ensures StepsTo(Zip(z.frames + [f], [])) == StepsTo(z) + [e]
  {
    OpenStepsAdd(z.frames, f);
    Assoc(OpenSteps(z.frames), AllSteps(z.parts), [e]);
    assert OpenSteps(z.frames + [f]) + [] == OpenSteps(z.frames + [f]);
  }

  /** The steps of an open `if`, up to and including its open branch. */
  lemma LogicSteps(f: Frame, parts: seq<Part>)
    requires f.InLogic?
    ensures FrameSteps(f) + AllSteps(parts) == AllSteps(f.before) + BranchSteps(f.done + [Branch(f.cond, parts)], true)
  {
    BranchStepsAdd(f.done, Branch(f.cond, parts), true);
    Assoc(AllSteps(f.before), BranchSteps(f.done, true) + [CondStep(f.cond, f.done == [])], AllSteps(parts));
  }

  lemma NextBranchKept(z: Zip, cond: Cond)
    requires z.frames != [] && Last(z.frames).InLogic?
    ensures StepsTo(ZipStep(z, AddBranch(cond)).value) == StepsTo(z) + [AddBranch(cond)]
  {
    var f := Last(z.frames);
    NextFrame(f, z.parts, cond);
    NextKept(z, InLogic(f.before, f.done + [Branch(f.cond, z.parts)], cond), AddBranch(cond));
  }

  lemma NextKept(z: Zip, f: Frame, e: Event)
    requires z.frames != [] && FrameSteps(f) == FrameSteps(Last(z.frames)) + AllSteps(z.parts) + [e]
    ensures StepsTo(Zip(Front(z.frames) + [f], [])) == StepsTo(z) + [e]
  {
    var open, outer := FrameSteps(Last(z.frames)), OpenSteps(Front(z.frames));
    OpenStepsAdd(Front(z.frames), f);
    Assoc(outer, open, AllSteps(z.parts));
    Assoc(outer, open + AllSteps(z.parts), [e]);
    assert OpenSteps(Front(z.frames) + [f]) + [] == OpenSteps(Front(z.frames) + [f]);
  }

  lemma NextFrame(f: Frame, parts: seq<Part>, cond: Cond)
    requires f.InLogic?
    ensures FrameSteps(InLogic(f.before, f.done + [Branch(f.cond, parts)], cond))
         == FrameSteps(f) + AllSteps(parts) + [AddBranch(cond)]
  {
    LogicSteps(f, parts);
    Assoc(AllSteps(f.before), BranchSteps(f.done + [Branch(f.cond, parts)], true), [AddBranch(cond)]);
  }

  lemma PopKept(z: Zip, part: Part, e: Event)
    requires z.frames != []
    requires AllSteps(Last(z.frames).before) + Steps(part) == FrameSteps(Last(z.frames)) + AllSteps(z.parts) + [e]
    ensures StepsTo(Pop(z, part)) == StepsTo(z) + [e]
  {
    var f, outer := Last(z.frames), OpenSteps(Front(z.frames));
    AllStepsAdd(f.before, part);
    Assoc(outer, FrameSteps(f), AllSteps(z.parts));
    Assoc(outer, FrameSteps(f) + AllSteps(z.parts), [e]);
  }

  lemma LoopKept(z: Zip)
    requires z.frames != [] && Last(z.frames).InLoop?
    ensures StepsTo(ZipStep(z, CloseLoop).value) == StepsTo(z) + [CloseLoop]
  {
    var f := Last(z.frames);
    Assoc(AllSteps(f.before), [OpenLoop(f.name, f.query)], AllSteps(z.parts));
    Assoc(AllSteps(f.before), [OpenLoop(f.name, f.query)] + AllSteps(z.parts), [CloseLoop]);
    PopKept(z, Loop(f.name, f.query, z.parts), CloseLoop);
  }

  lemma LogicKept(z: Zip)
    requires z.frames != [] && Last(z.frames).InLogic?
    ensures StepsTo(ZipStep(z, CloseLogic).value) == StepsTo(z) + [CloseLogic]
  {
    var f := Last(z.frames);
    var bs := f.done + [Branch(f.cond, z.parts)];
    LogicSteps(f, z.parts);
    Assoc(AllSteps(f.before), BranchSteps(bs, true), [CloseLogic]);
    PopKept(z, Logic(bs), CloseLogic);
  }

  /** Nothing is lost: the steps so far can be read off the tree so far. */
  lemma StepIsKept(z: Zip, e: Event)
    requires ZipStep(z, e).Some?
    ensures StepsTo(ZipStep(z, e).value) == StepsTo(z) + [e]
  {
    match e {
      case AddText(content) => AddKept(z, Text(content), e);
      case AddEcho(query) => AddKept(z, Echo(query), e);
      case AddInclude(file) => AddKept(z, Include(file), e);
      case OpenLoop(name, query) => OpenKept(z, InLoop(z.parts, name, query), e);
      case OpenLogic(cond) => OpenKept(z, InLogic(z.parts, [], cond), e);
      case AddBranch(cond) => NextBranchKept(z, cond);
      case CloseLoop => LoopKept(z);
      case CloseLogic => LogicKept(z);
    }
  }

  lemma {:induction false} StepsAreKept(z: Zip, evs: seq<Event>)
    requires ZipRun(z, evs).Some?
    ensures StepsTo(ZipRun(z, evs).value) == StepsTo(z) + evs
    decreases |evs|
  {
    if evs != [] {
      StepIsKept(z, evs[0]);
      StepsAreKept(ZipStep(z, evs[0]).value, evs[1..]);
      assert [evs[0]] + evs[1..] == evs;
    }
  }

  lemma {:induction false} ZipRunConcat(z: Zip, a: seq<Event>, b: seq<Event>)
    ensures ZipRun(z, a + b) == (match ZipRun(z, a) case None => None case Some(z2) => ZipRun(z2, b))
    decreases |a|
  {
    if a == [] {
      assert a + b == b;
    } else {
      assert (a + b)[0] == a[0] && (a + b)[1..] == a[1..] + b;
      if ZipStep(z, a[0]).Some? {
        ZipRunConcat(ZipStep(z, a[0]).value, a[1..], b);
      }
    }
  }

  /** Trees whose `if` blocks have a branch. */
  ghost predicate Proper(p: Part)
    decreases p, 0
  {
    match p
    case Loop(_, _, body) => AllProper(body)
    case Logic(branches) => branches != [] && BranchesProper(branches)
    case _ => true
  }

  ghost predicate AllProper(ps: seq<Part>)
    decreases ps, 1
  {
    ps == [] || (Proper(ps[0]) && AllProper(ps[1..]))
  }

  ghost predicate BranchesProper(bs: seq<Branch>)
    decreases bs, 1
  {
    bs == [] || (AllProper(bs[0].body) && BranchesProper(bs[1..]))
  }

  lemma ZipRunOne(z: Zip, e: Event)
    ensures ZipRun(z, [e]) == ZipStep(z, e)
  {
    assert [e][1..] == [];
  }

  /** The steps of a tree add the tree. */
  lemma {:induction false} StepsAddParts(z: Zip, ps: seq<Part>)
    requires AllProper(ps)
    ensures ZipRun(z, AllSteps(ps)) == Some(z.(parts := z.parts + ps))
    decreases ps, 1
  {
    if ps != [] {
      var z2 := z.(parts := z.parts + [ps[0]]);
      StepsAddPart(z, ps[0]);
      StepsAddParts(z2, ps[1..]);
      ZipRunConcat(z, Steps(ps[0]), AllSteps(ps[1..]));
      assert z.parts + [ps[0]] + ps[1..] == z.parts + ps;
    } else {
      assert z.parts + ps == z.parts;
    }
  }

  lemma {:induction false} StepsAddPart(z: Zip, p: Part)
    requires Proper(p)
    ensures ZipRun(z, Steps(p)) == Some(z.(parts := z.parts + [p]))
    decreases p, 0
  {
    match p {
      case Text(content) => ZipRunOne(z, AddText(content));
      case Echo(query) => ZipRunOne(z, AddEcho(query));
      case Include(file) => ZipRunOne(z, AddInclude(file));
      case Loop(name, query, body) =>
        var open := Zip(z.frames + [InLoop(z.parts, name, query)], []);
        ZipRunOne(z, OpenLoop(name, query));
        ZipRunConcat(z, [OpenLoop(name, query)], AllSteps(body));
        StepsAddParts(open, body);
        CloseRun(z, [OpenLoop(name, query)] + AllSteps(body), open.(parts := [] + body), CloseLoop);
        assert [] + body == body;
      case Logic(bs) => StepsAddLogic(z, bs);
    }
  }

  lemma {:induction false} StepsAddLogic(z: Zip, bs: seq<Branch>)
    requires bs != [] && BranchesProper(bs)
    ensures ZipRun(z, BranchSteps(bs, true) + [CloseLogic]) == Some(z.(parts := z.parts + [Logic(bs)]))
    decreases bs, 2
  {
    var b, last := bs[0], LastBranch(bs[0], bs[1..]);
    var open := Zip(z.frames + [InLogic(z.parts, [], b.cond)], []);
    ZipRunOne(z, OpenLogic(b.cond));
    ZipRunConcat(z, [OpenLogic(b.cond)], AllSteps(b.body));
    StepsAddParts(open, b.body);
    assert [] + b.body == b.body;
    StepsAddBranches(z.frames, z.parts, [], b, bs[1..]);
    ZipRunConcat(z, [OpenLogic(b.cond)] + AllSteps(b.body), BranchSteps(bs[1..], false));
    assert [] + [b] + bs[1..] == bs;
    CloseRun(z, BranchSteps(bs, true), Zip(z.frames + [InLogic(z.parts, Front(bs), last.cond)], last.body), CloseLogic);
    assert Front(bs) + [last] == bs;
  }

  function LastBranch(b: Branch, bs: seq<Branch>): Branch {
    if bs == [] then b else Last(bs)
  }

  lemma CloseRun(z: Zip, evs: seq<Event>, z2: Zip, close: Event)
    requires ZipRun(z, evs) == Some(z2) && ZipStep(z2, close).Some?
    ensures ZipRun(z, evs + [close]) == ZipStep(z2, close)
  {
    ZipRunConcat(z, evs, [close]);
    ZipRunOne(z2, close);
  }

  /** With branch `b` open, the steps of more branches. */
  lemma {:induction false} StepsAddBranches(frames: seq<Frame>, before: seq<Part>, done: seq<Branch>, b: Branch,
                                            bs: seq<Branch>)
    requires BranchesProper(bs)
    ensures ZipRun(Zip(frames + [InLogic(before, done, b.cond)], b.body), BranchSteps(bs, false))
         == Some(Zip(frames + [InLogic(before, Front(done + [b] + bs), LastBranch(b, bs).cond)],
                     LastBranch(b, bs).body))
    decreases bs, 1
  {
    var z := Zip(frames + [InLogic(before, done, b.cond)], b.body);
    if bs == [] {
      assert Front(done + [b] + bs) == done;
    } else {
      var z1 := Zip(frames + [InLogic(before, done + [b], bs[0].cond)], []);
      ZipRunOne(z, AddBranch(bs[0].cond));
      assert ZipStep(z, AddBranch(bs[0].cond)) == Some(z1);
      ZipRunConcat(z, [AddBranch(bs[0].cond)], AllSteps(bs[0].body));
      StepsAddParts(z1, bs[0].body);
      assert [] + bs[0].body == bs[0].body;
      ZipRunConcat(z, [AddBranch(bs[0].cond)] + AllSteps(bs[0].body), BranchSteps(bs[1..], false));
      StepsAddBranches(frames, before, done + [b], bs[0], bs[1..]);
      assert done + [b] + [bs[0]] + bs[1..] == done + [b] + bs;
    }
  }

  // ---------------------------------------------------------------- texts

  /** What a parse has built; an exception leaves nothing. */
  function RunScript(st: Store, script: Script): Option<Store>
    requires InRange(st)
    decreases script
  {
    match script
    case Finish => Some(st)
    case Broken => None
    case Then(e, rest) =>
      StepKeepsRange(st, e);
      match Step(st, e)
      case None => None
      case Some(next) => RunScript(next, rest)
  }

  function ParseText(s: string): Option<Store> {
    RunScript(EMPTY_STORE, ScriptOf(s))
  }

  function EventsOf(script: Script): seq<Event> {
    if script.Then? then [script.event] + EventsOf(script.rest) else []
  }

  lemma {:induction false} RunScriptIsRun(st: Store, script: Script)
    requires InRange(st) && RunScript(st, script).Some?
    ensures Run(st, EventsOf(script)) == RunScript(st, script)
    decreases script
  {
    if script.Then? {
      StepKeepsRange(st, script.event);
      RunScriptIsRun(Step(st, script.event).value, script.rest);
      assert EventsOf(script)[1..] == EventsOf(script.rest);
    }
  }

  lemma {:induction false} PushIsRun(st: Store, evs: seq<Event>)
    requires InRange(st)
    ensures RunScript(st, Push(evs, Finish)) == Run(st, evs)
    decreases |evs|
  {
    if evs != [] && Step(st, evs[0]).Some? {
      StepKeepsRange(st, evs[0]);
      PushIsRun(Step(st, evs[0]).value, evs[1..]);
    }
  }

  /** The tree of a parsed template, from its root. */
  ghost function Tree(st: Store): seq<Part>
    requires InRange(st) && ClosedFrom(st.cells, -1) && !st.cells[0].kind.LogicKind?
  {
    assert CellOk(st.cells, 0);
    TreesOf(st.cells, st.cells[0].items, 0)
  }

  /** A store that some sequence of texts and commands leads to. */
  ghost predicate Reached(st: Store, evs: seq<Event>) {
    Run(EMPTY_STORE, evs) == Some(st)
  }

  /** The `i`th open block: its container ends with it, and the part after it on the stack, or the
      current part, is the loop itself or the last branch of the logic block. */
  ghost predicate BlockOpen(cells: seq<Cell>, stack: seq<nat>, current: nat, i: nat)
    requires 2 * i + 1 < |stack|
  {
    var container, block := stack[2 * i], stack[2 * i + 1];
    var inner := if 2 * i + 2 < |stack| then stack[2 * i + 2] else current;
    && container < block <= inner < |cells|
    && !cells[container].kind.LogicKind? && !cells[block].kind.Plain?
    && cells[container].items != [] && Last(cells[container].items) == Ref(block)
    && (if cells[block].kind.LoopKind? then inner == block
        else cells[block].items != [] && Last(cells[block].items) == Ref(inner))
  }

  ghost predicate Alternates(cells: seq<Cell>, stack: seq<nat>, current: nat) {
    && |stack| % 2 == 0
    && (if stack == [] then current == 0 else stack[0] == 0)
    && forall i: nat | 2 * i + 1 < |stack| :: BlockOpen(cells, stack, current, i)
  }

  lemma {:induction false} StandingAlternates(cells: seq<Cell>, stack: seq<nat>, current: nat, frames: seq<Frame>)
    requires StackStands(cells, stack, current, frames)
    ensures Alternates(cells, stack, current) && |stack| == 2 * |frames|
    decreases |frames|
  {
    if frames != [] {
      var outer, container := stack[..|stack| - 2], stack[|stack| - 2];
      StandingAlternates(cells, outer, container, Front(frames));
      forall i: nat | 2 * i + 1 < |stack| ensures BlockOpen(cells, stack, current, i) {
        if 2 * i + 1 < |outer| {
          assert BlockOpen(cells, outer, container, i);
        }
      }
    }
  }

  /** In every reachable state the stack alternates containers and their open blocks, and the steps
      taken can be read off the tree so far: two sequences of steps never build the same tree. */
  lemma ReachedStands(st: Store, evs: seq<Event>)
    requires Reached(st, evs)
    ensures ZipRun(EMPTY_ZIP, evs).Some? && Stands(st, ZipRun(EMPTY_ZIP, evs).value)
    ensures StepsTo(ZipRun(EMPTY_ZIP, evs).value) == evs
    ensures Alternates(st.cells, st.stack, st.current)
    ensures |st.stack| == 2 * |ZipRun(EMPTY_ZIP, evs).value.frames|
  {
    EmptyStands();
    RunStands(EMPTY_STORE, EMPTY_ZIP, evs);
    var z := ZipRun(EMPTY_ZIP, evs).value;
    StepsAreKept(EMPTY_ZIP, evs);
    assert StepsTo(EMPTY_ZIP) + evs == evs;
    StandingAlternates(st.cells, st.stack, st.current, z.frames);
  }

  lemma RootIsPlain(st: Store, z: Zip)
    requires Stands(st, z)
    ensures !st.cells[0].kind.LogicKind?
    ensures z.frames == [] ==> Tree(st) == z.parts
  {
    assert st.cells[..|st.cells|] == st.cells;
    RootKind(st.cells, st.stack, st.current, z.frames);
  }

  lemma {:induction false} RootKind(cells: seq<Cell>, stack: seq<nat>, inner: nat, frames: seq<Frame>)
    requires StackStands(cells, stack, inner, frames)
    ensures cells != [] && cells[0].kind.Plain?
    ensures frames == [] <==> stack == []
  {
    if frames != [] {
      RootKind(cells, stack[..|stack| - 2], stack[|stack| - 2], Front(frames));
    }
  }

  /** Exactly the steps of a tree are accepted with every block closed, and they build that tree. */
  lemma ClosedIffSteps(evs: seq<Event>, ps: seq<Part>)
    ensures (exists st :: Reached(st, evs) && st.stack == [] && HasTree(st, ps))
       <==> AllProper(ps) && evs == AllSteps(ps)
  {
    if st :| Reached(st, evs) && st.stack == [] && HasTree(st, ps) {
      ReachedStands(st, evs);
      var z := ZipRun(EMPTY_ZIP, evs).value;
      RootIsPlain(st, z);
      assert OpenSteps([]) + AllSteps(z.parts) == AllSteps(z.parts);
      RunIsProper(EMPTY_ZIP, evs);
    }
    if AllProper(ps) && evs == AllSteps(ps) {
      StepsAddParts(EMPTY_ZIP, ps);
      EmptyStands();
      RunStands(EMPTY_STORE, EMPTY_ZIP, evs);
      var st := Run(EMPTY_STORE, evs).value;
      assert [] + ps == ps;
      RootIsPlain(st, Zip([], ps));
      assert Reached(st, evs) && st.stack == [] && HasTree(st, ps) by {
        RootKind(st.cells, st.stack, st.current, []);
      }
    }
  }

  ghost predicate HasTree(st: Store, ps: seq<Part>) {
    InRange(st) && ClosedFrom(st.cells, -1) && !st.cells[0].kind.LogicKind? && Tree(st) == ps
  }

  // ---------------------------------------------------------------- blocks have branches

  ghost predicate FrameProper(f: Frame) {
    AllProper(f.before) && (f.InLogic? ==> BranchesProper(f.done))
  }

  ghost predicate ZipProper(z: Zip) {
    AllProper(z.parts) && forall i | 0 <= i < |z.frames| :: FrameProper(z.frames[i])
  }

  lemma {:induction false} ProperAdd(ps: seq<Part>, p: Part)
    requires AllProper(ps) && Proper(p)
    ensures AllProper(ps + [p])
  {
    if ps != [] {
      ProperAdd(ps[1..], p);
      assert (ps + [p])[1..] == ps[1..] + [p];
    } else {
      assert ps + [p] == [p] && [p][1..] == [];
    }
  }

  lemma {:induction false} BranchProperAdd(bs: seq<Branch>, b: Branch)
    requires BranchesProper(bs) && AllProper(b.body)
    ensures BranchesProper(bs + [b])
  {
    if bs != [] {
      BranchProperAdd(bs[1..], b);
      assert (bs + [b])[1..] == bs[1..] + [b];
    } else {
      assert bs + [b] == [b] && [b][1..] == [];
    }
  }

  lemma StepIsProper(z: Zip, e: Event)
    requires ZipProper(z) && ZipStep(z, e).Some?
    ensures ZipProper(ZipStep(z, e).value)
  {
    match e {
      case AddText(content) => ProperAdd(z.parts, Text(content));
      case AddEcho(query) => ProperAdd(z.parts, Echo(query));
      case AddInclude(file) => ProperAdd(z.parts, Include(file));
      case OpenLoop(_, _) =>
      case OpenLogic(_) =>
      case AddBranch(_) => BranchProperAdd(ZipTop(z).done, Branch(ZipTop(z).cond, z.parts));
      case CloseLoop => ProperAdd(ZipTop(z).before, Loop(ZipTop(z).name, ZipTop(z).query, z.parts));
      case CloseLogic =>
        var f := ZipTop(z);
        BranchProperAdd(f.done, Branch(f.cond, z.parts));
        ProperAdd(f.before, Logic(f.done + [Branch(f.cond, z.parts)]));
    }
  }

  lemma {:induction false} RunIsProper(z: Zip, evs: seq<Event>)
    requires ZipProper(z) && ZipRun(z, evs).Some?
    ensures ZipProper(ZipRun(z, evs).value)
    decreases |evs|
  {
    if evs != [] {
      StepIsProper(z, evs[0]);
      RunIsProper(ZipStep(z, evs[0]).value, evs[1..]);
    }
  }

  // ---------------------------------------------------------------- unclosed blocks

  function Closers(frames: seq<Frame>): seq<Event> {
    if frames == [] then []
    else [if Last(frames).InLoop? then CloseLoop else CloseLogic] + Closers(Front(frames))
  }

  lemma {:induction false} ClosersRun(st: Store, z: Zip)
    requires Stands(st, z)
    ensures Run(st, Closers(z.frames)) == Some(Store(st.cells, [], 0))
    decreases |z.frames|
  {
    if z.frames != [] {
      var e := Closers(z.frames)[0];
      CloseStands(st, z);
      StepStands(st, z, e);
      ClosersRun(CloseAt(st), ZipStep(z, e).value);
      assert Closers(z.frames)[1..] == Closers(Front(z.frames));
    }
  }

  lemma {:induction false} RunConcat(st: Store, a: seq<Event>, b: seq<Event>)
    requires InRange(st) && Run(st, a).Some?
    ensures InRange(Run(st, a).value) && Run(st, a + b) == Run(Run(st, a).value, b)
    decreases |a|
  {
    if a == [] {
      assert a + b == b;
    } else {
      assert (a + b)[0] == a[0] && (a + b)[1..] == a[1..] + b;
      StepKeepsRange(st, a[0]);
      RunConcat(Step(st, a[0]).value, a[1..], b);
    }
  }

  ghost predicate OnlyCloses(evs: seq<Event>) {
    forall i | 0 <= i < |evs| :: evs[i].CloseLoop? || evs[i].CloseLogic?
  }

  lemma {:induction false} ClosersOnlyClose(frames: seq<Frame>)
    ensures OnlyCloses(Closers(frames))
  {
    if frames != [] {
      ClosersOnlyClose(Front(frames));
    }
  }

  /** A parse that ends inside a block has built the tree of the text with the missing `endfor` and
      `endif` commands: every accepted sequence of steps is the beginning of the steps of its tree. */
  lemma UnclosedAsClosed(st: Store, evs: seq<Event>) returns (closers: seq<Event>, ps: seq<Part>)
    requires Reached(st, evs)
    ensures OnlyCloses(closers) && |closers| == |st.stack| / 2
    ensures HasTree(st, ps) && AllProper(ps) && AllSteps(ps) == evs + closers
  {
    ReachedStands(st, evs);
    var z := ZipRun(EMPTY_ZIP, evs).value;
    closers := Closers(z.frames);
    ClosersOnlyClose(z.frames);
    ClosersLength(z.frames);
    ClosersRun(st, z);
    RunConcat(EMPTY_STORE, evs, closers);
    RootIsPlain(st, z);
    ps := Tree(st);
    var st2 := Store(st.cells, [], 0);
    assert Reached(st2, evs + closers) && st2.stack == [] && HasTree(st2, ps);
    ClosedIffSteps(evs + closers, ps);
  }

  lemma {:induction false} ClosersLength(frames: seq<Frame>)
    ensures |Closers(frames)| == |frames|
  {
    if frames != [] {
      ClosersLength(Front(frames));
    }
  }

  // ---------------------------------------------------------------- what a text is read as can be printed

  ghost predicate EventOk(e: Event) {
    match e
    case AddText(content) => IsContent(content)
    case AddEcho(query) => IsQuery(query)
    case AddInclude(file) => IsFile(file)
    case OpenLoop(name, query) => IsName(name) && IsQuery(query)
    case OpenLogic(cond) => IsCond(cond, true)
    case AddBranch(cond) => IsCond(cond, false)
    case CloseLoop | CloseLogic => true
  }

  /** Printable steps, never one text after another. */
  ghost predicate EventsOk(evs: seq<Event>) {
    && (forall i | 0 <= i < |evs| :: EventOk(evs[i]))
    && (forall i | 0 <= i < |evs| - 1 :: evs[i].AddText? ==> !evs[i + 1].AddText?)
  }

  lemma {:induction false} TextPieceOk(s: string)
    ensures NoPair(TextPiece(s).word, '<', '?')
    ensures TextPiece(s).word == [] || TextPiece(s).word[0] == s[0]
  {
    if s != [] && !Ahead(s, '<', '?') {
      TextPieceOk(s[1..]);
    }
  }

  lemma {:induction false} QueryPieceOk(s: string)
    ensures NoPair(QueryPiece(s).word, '?', '>') && NoSpace(QueryPiece(s).word)
    ensures QueryPiece(s).word == [] || QueryPiece(s).word[0] == s[0]
  {
    if s != [] && !Ahead(s, '?', '>') && !IsSpace(s[0]) {
      QueryPieceOk(s[1..]);
    }
  }

  lemma {:induction false} WordPieceOk(s: string)
    ensures NoSpace(WordPiece(s).word)
  {
    if s != [] && !IsSpace(s[0]) {
      WordPieceOk(s[1..]);
    }
  }

  lemma {:induction false} UntilQuoteOk(s: string)
    ensures forall i | 0 <= i < |UntilQuote(s).word| :: UntilQuote(s).word[i] != '"'
  {
    if s != [] && s[0] != '"' {
      UntilQuoteOk(s[1..]);
    }
  }

  lemma ArgumentsOk(k: Keyword, s: string)
    ensures Arguments(k, s).Done? ==> EventOk(Arguments(k, s).value) && !Arguments(k, s).value.AddText?
  {
    QueryPieceOk(s);
    match k {
      case KFor =>
        WordPieceOk(s);
        QueryPieceOk(SkipSpace(WordPiece(s).rest));
      case KInclude =>
        var t := SkipSpace(s);
        if t != [] {
          UntilQuoteOk(t[1..]);
        }
      case _ =>
    }
  }

  ghost predicate ScriptOk(script: Script) {
    match script
    case Finish => true
    case Broken => true
    case Then(e, rest) => EventOk(e) && (e.AddText? && rest.Then? ==> !rest.event.AddText?) && ScriptOk(rest)
  }

  lemma {:induction false} ScriptIsOk(s: string)
    ensures ScriptOk(ScriptOf(s))
    decreases |s|, 1
  {
    TextPieceOk(s);
    CommandScriptIsOk(TextPiece(s).rest);
  }

  lemma {:induction false} CommandScriptIsOk(s: string)
    ensures ScriptOk(CommandScript(s))
    ensures CommandScript(s).Then? ==> !CommandScript(s).event.AddText?
    decreases |s|, 0
  {
    var word := CommandWord(SkipSpace(s), "");
    if word.word != "" && KeywordOf(word.word).Some? {
      var k, tail := KeywordOf(word.word).value, SkipSpace(word.rest);
      ArgumentsOk(k, tail);
      if Arguments(k, tail).Done? && Closing(k, Arguments(k, tail).rest).Some? {
        ScriptIsOk(Closing(k, Arguments(k, tail).rest).value);
      }
      KeywordScriptOk(k, tail);
    }
  }

  lemma KeywordScriptOk(k: Keyword, s: string)
    requires Arguments(k, s).Done? && Closing(k, Arguments(k, s).rest).Some? ==>
               ScriptOk(ScriptOf(Closing(k, Arguments(k, s).rest).value))
    ensures ScriptOk(KeywordScript(k, s))
    ensures KeywordScript(k, s).Then? ==> !KeywordScript(k, s).event.AddText?
  {
    ArgumentsOk(k, s);
    if Arguments(k, s).Done? {
      var e, rest := Arguments(k, s).value, Arguments(k, s).rest;
      assert KeywordScript(k, s) == ClosingScript(k, e, rest);
    }
  }

  lemma {:induction false} EventsOfOk(script: Script)
    requires ScriptOk(script)
    ensures EventsOk(EventsOf(script))
    decreases script
  {
    if script.Then? {
      EventsOfOk(script.rest);
      var evs, tail := EventsOf(script), EventsOf(script.rest);
      assert forall i | 0 <= i < |tail| :: evs[i + 1] == tail[i];
    }
  }

  lemma EventsOkSplit(a: seq<Event>, b: seq<Event>)
    requires EventsOk(a + b)
    ensures EventsOk(a) && EventsOk(b)
    ensures a != [] && b != [] && Last(a).AddText? ==> !b[0].AddText?
  {
    var evs := a + b;
    assert forall i | 0 <= i < |a| :: evs[i] == a[i];
    assert forall i | 0 <= i < |b| :: evs[|a| + i] == b[i];
  }

  lemma EventsOkMiddle(a: seq<Event>, b: seq<Event>, c: seq<Event>)
    requires EventsOk(a + b + c)
    ensures EventsOk(a) && EventsOk(b) && EventsOk(c)
  {
    EventsOkSplit(a + b, c);
    EventsOkSplit(a, b);
  }

  /** A tree with printable steps can be printed. */
  lemma {:induction false} PrintableParts(ps: seq<Part>)
    requires AllProper(ps) && EventsOk(AllSteps(ps))
    ensures IsTemplate(ps)
    decreases ps, 1
  {
    if ps != [] {
      EventsOkSplit(Steps(ps[0]), AllSteps(ps[1..]));
      PrintablePart(ps[0]);
      PrintableParts(ps[1..]);
      if |ps| > 1 {
        assert AllSteps(ps[1..]) == Steps(ps[1]) + AllSteps(ps[1..][1..]);
      }
    }
  }

  lemma {:induction false} PrintablePart(p: Part)
    requires Proper(p) && EventsOk(Steps(p))
    ensures IsPart(p)
    decreases p, 0
  {
    if p.Loop? {
      EventsOkMiddle([OpenLoop(p.name, p.query)], AllSteps(p.body), [CloseLoop]);
      assert EventOk([OpenLoop(p.name, p.query)][0]);
      PrintableParts(p.body);
    } else if p.Logic? {
      EventsOkSplit(BranchSteps(p.branches, true), [CloseLogic]);
      PrintableBranches(p.branches, true);
    } else {
      assert EventOk(Steps(p)[0]);
    }
  }

  lemma {:induction false} PrintableBranches(bs: seq<Branch>, first: bool)
    requires BranchesProper(bs) && EventsOk(BranchSteps(bs, first))
    ensures AreBranches(bs, first)
    decreases bs, 1
  {
    if bs != [] {
      EventsOkMiddle([CondStep(bs[0].cond, first)], AllSteps(bs[0].body), BranchSteps(bs[1..], false));
      assert EventOk([CondStep(bs[0].cond, first)][0]);
      PrintableParts(bs[0].body);
      PrintableBranches(bs[1..], false);
    }
  }

  lemma {:induction false} TemplatesAreProper(ps: seq<Part>)
    requires IsTemplate(ps)
    ensures AllProper(ps)
    decreases ps, 1
  {
    if ps != [] {
      if ps[0].Loop? {
        TemplatesAreProper(ps[0].body);
      } else if ps[0].Logic? {
        BranchesAreProper(ps[0].branches, true);
      }
      TemplatesAreProper(ps[1..]);
    }
  }

  lemma {:induction false} BranchesAreProper(bs: seq<Branch>, first: bool)
    requires AreBranches(bs, first)
    ensures BranchesProper(bs)
    decreases bs, 1
  {
    if bs != [] {
      TemplatesAreProper(bs[0].body);
      BranchesAreProper(bs[1..], false);
    }
  }

  // ---------------------------------------------------------------- the main results

  /** A text is read as a tree with every block closed. */
  ghost predicate ReadsAs(s: string, ps: seq<Part>) {
    ParseText(s).Some? && ParseText(s).value.stack == [] && HasTree(ParseText(s).value, ps)
  }

  /** Parsing undoes printing, for every template tree. */
  lemma ParseUndoesPrint(ps: seq<Part>)
    requires IsTemplate(ps)
    ensures ReadsAs(PrintParts(ps), ps)
  {
    var s := PrintParts(ps);
    TemplateIsRead(ps, "");
    assert s + "" == s;
    EndOfText();
    TemplatesAreProper(ps);
    ClosedIffSteps(AllSteps(ps), ps);
    PushIsRun(EMPTY_STORE, AllSteps(ps));
    assert ParseText(s) == RunScript(EMPTY_STORE, Push(AllSteps(ps), Finish));
  }

  lemma EndOfText()
    ensures ScriptOf("") == Finish
  {
    assert CommandScript("") == Finish;
  }

  /** What is parsed can be printed: every text that the parser accepts, with blocks left open or not,
      is read as a tree that printing and parsing give back. */
  lemma ParsedIsPrintable(s: string, st: Store) returns (ps: seq<Part>)
    requires ParseText(s) == Some(st)
    ensures HasTree(st, ps) && IsTemplate(ps) && ReadsAs(PrintParts(ps), ps)
  {
    var evs := EventsOf(ScriptOf(s));
    var closers;
    RunScriptIsRun(EMPTY_STORE, ScriptOf(s));
    closers, ps := UnclosedAsClosed(st, evs);
    ScriptIsOk(s);
    EventsOfOk(ScriptOf(s));
    ClosersKeepOk(evs, closers);
    PrintableParts(ps);
    ParseUndoesPrint(ps);
  }

  lemma ClosersKeepOk(evs: seq<Event>, closers: seq<Event>)
    requires EventsOk(evs) && OnlyCloses(closers)
    ensures EventsOk(evs + closers)
  {
    var all := evs + closers;
    forall i | 0 <= i < |all| ensures EventOk(all[i]) {
      assert all[i] == if i < |evs| then evs[i] else closers[i - |evs|];
    }
    forall i | 0 <= i < |all| - 1 && all[i].AddText? ensures !all[i + 1].AddText? {
      assert i < |evs|;
      assert all[i + 1] == if i + 1 < |evs| then evs[i + 1] else closers[i + 1 - |evs|];
    }
  }

  /** Printing loses nothing: two templates with the same text are the same. */
  lemma PrintIsInjective(ps: seq<Part>, qs: seq<Part>)
    requires IsTemplate(ps) && IsTemplate(qs) && PrintParts(ps) == PrintParts(qs)
    ensures ps == qs
  {
    ParseUndoesPrint(ps);
    ParseUndoesPrint(qs);
  }
}
