/** The part stack of `Template::parse`.

    `Store` is a picture of the parts that the parse has allocated, numbered in the order of their
    allocation, of its stack and of its current part; `Step` is what one text or command does to
    it. `Zip` is the meaning of a store in the middle of a parse: the tree so far, opened at the
    current part. `Stands` relates the two, and every step keeps it. */
module TemplateBuild {
  import opened TextStream
  import opened TemplateSyntax

  // ---------------------------------------------------------------- the store

  datatype Kind = Plain | LoopKind(name: string, query: string) | LogicKind

  datatype Item = Flat(part: Part) | Ref(id: nat)

  /** A `MultiPart`, `LoopPart` or `LogicPart`; only a `LogicPart` has conditions. */
  datatype Cell = Cell(kind: Kind, conds: seq<Cond>, items: seq<Item>)

  datatype Store = Store(cells: seq<Cell>, stack: seq<nat>, current: nat)

  const EMPTY_STORE := Store([Cell(Plain, [], [])], [], 0)

  /** `addPart`: a `LogicPart` takes a part without a condition as an `else`. */
  function AddTo(cell: Cell, item: Item): Cell {
    if cell.kind.LogicKind? then AddCase(cell, Otherwise, item) else cell.(items := cell.items + [item])
  }

  function AddCase(cell: Cell, cond: Cond, item: Item): Cell {
    cell.(conds := cell.conds + [cond], items := cell.items + [item])
  }

  ghost predicate InRange(st: Store) {
    && st.current < |st.cells|
    && (forall i | 0 <= i < |st.stack| :: st.stack[i] < |st.cells|)
  }

  function AddHere(st: Store, item: Item): Store
    requires InRange(st)
  {
    st.(cells := st.cells[st.current := AddTo(st.cells[st.current], item)])
  }

  /** `for` */
  function OpenLoopAt(st: Store, name: string, query: string): Store
    requires InRange(st)
  {
    var id := |st.cells|;
    Store(AddHere(st, Ref(id)).cells + [Cell(LoopKind(name, query), [], [])], st.stack + [st.current, id], id)
  }

  /** `if` and `ifexist` */
  function OpenLogicAt(st: Store, cond: Cond): Store
    requires InRange(st)
  {
    var id := |st.cells|;
    Store(AddHere(st, Ref(id)).cells + [Cell(LogicKind, [cond], [Ref(id + 1)]), Cell(Plain, [], [])],
          st.stack + [st.current, id], id + 1)
  }

  /** `elsif` and `else`, with a `LogicPart` on top */
  function AddBranchAt(st: Store, cond: Cond): Store
    requires InRange(st) && st.stack != []
  {
    var id, top := |st.cells|, st.stack[|st.stack| - 1];
    Store(st.cells[top := AddCase(st.cells[top], cond, Ref(id))] + [Cell(Plain, [], [])], st.stack, id)
  }

  predicate TopIsLogic(st: Store)
    requires InRange(st)
  {
    st.stack != [] && st.cells[st.stack[|st.stack| - 1]].kind.LogicKind?
  }

  predicate TopIsLoop(st: Store)
    requires InRange(st)
  {
    st.stack != [] && st.cells[st.stack[|st.stack| - 1]].kind.LoopKind?
  }

  /** `endfor` and `endif` */
  function CloseAt(st: Store): Store
    requires |st.stack| >= 2
  {
    st.(stack := st.stack[..|st.stack| - 2], current := st.stack[|st.stack| - 2])
  }

  /** None stands for the template exception. */
  function Step(st: Store, e: Event): Option<Store>
    requires InRange(st)
  {
    match e
    case AddText(content) => Some(AddHere(st, Flat(Text(content))))
    case AddEcho(query) => Some(AddHere(st, Flat(Echo(query))))
    case AddInclude(file) => Some(AddHere(st, Flat(Include(file))))
    case OpenLoop(name, query) => Some(OpenLoopAt(st, name, query))
    case OpenLogic(cond) => Some(OpenLogicAt(st, cond))
    case AddBranch(cond) => if TopIsLogic(st) then Some(AddBranchAt(st, cond)) else None
    case CloseLoop => if |st.stack| >= 2 && TopIsLoop(st) then Some(CloseAt(st)) else None
    case CloseLogic => if |st.stack| >= 2 && TopIsLogic(st) then Some(CloseAt(st)) else None
  }

  lemma StepKeepsRange(st: Store, e: Event)
    requires InRange(st)
    ensures Step(st, e).Some? ==> InRange(Step(st, e).value)
  {
  }

  /** Only if blocks have conditions, one for each branch. */
  ghost predicate Tidy(st: Store) {
    forall i | 0 <= i < |st.cells| ::
      |st.cells[i].conds| == if st.cells[i].kind.LogicKind? then |st.cells[i].items| else 0
  }

  lemma StepKeepsTidy(st: Store, e: Event)
    requires InRange(st) && Tidy(st)
    ensures Step(st, e).Some? ==> Tidy(Step(st, e).value)
  {
  }

  /** A part that is added to an if block directly is an `else` branch. */
  lemma AddedToLogic(cell: Cell, item: Item)
    requires cell.kind.LogicKind?
    ensures var after := AddTo(cell, item);
            && after.kind == cell.kind && |after.conds| == |cell.conds| + 1 && |after.items| == |cell.items| + 1
            && after.conds[..|cell.conds|] == cell.conds && after.conds[|cell.conds|] == Otherwise
            && after.items[..|cell.items|] == cell.items && after.items[|cell.items|] == item
  {
  }

  function Run(st: Store, evs: seq<Event>): Option<Store>
    requires InRange(st)
    decreases |evs|
  {
    if evs == [] then Some(st)
    else
      StepKeepsRange(st, evs[0]);
      match Step(st, evs[0])
      case None => None
      case Some(next) => Run(next, evs[1..])
  }

  // ---------------------------------------------------------------- reading a tree off a store

  /** Pointers lead to later parts; branches and only branches are plain. */
  ghost predicate PointsWell(cells: seq<Cell>, lo: int, items: seq<Item>, branches: bool) {
    forall i | 0 <= i < |items| ::
      match items[i]
      case Flat(part) => !branches
      case Ref(id) => lo < id < |cells| && (cells[id].kind.Plain? <==> branches)
  }

  ghost predicate CellOk(cells: seq<Cell>, i: nat)
    requires i < |cells|
  {
    && PointsWell(cells, i, cells[i].items, cells[i].kind.LogicKind?)
    && (cells[i].kind.LogicKind? ==> |cells[i].conds| == |cells[i].items|)
  }

  ghost predicate ClosedFrom(cells: seq<Cell>, lo: int) {
    forall i | 0 <= i < |cells| && lo < i :: CellOk(cells, i)
  }

  ghost function TreesOf(cells: seq<Cell>, items: seq<Item>, lo: int): seq<Part>
    requires ClosedFrom(cells, lo) && lo < |cells| && PointsWell(cells, lo, items, false)
    decreases |cells| - lo, 0, |items|
  {
    if items == [] then []
    else TreesOf(cells, items[..|items| - 1], lo) + [TreeOf(cells, items[|items| - 1], lo)]
  }

  ghost function TreeOf(cells: seq<Cell>, item: Item, lo: int): Part
    requires ClosedFrom(cells, lo) && lo < |cells| && PointsWell(cells, lo, [item], false)
    decreases |cells| - lo, 0, 0
  {
    assert [item][0] == item;
    match item
    case Flat(part) => part
    case Ref(id) =>
      assert CellOk(cells, id);
      var cell := cells[id];
      match cell.kind
      case LoopKind(name, query) => Loop(name, query, TreesOf(cells, cell.items, id))
      case LogicKind => Logic(BranchesOf(cells, cell.conds, cell.items, id))
  }

  ghost function BranchesOf(cells: seq<Cell>, conds: seq<Cond>, items: seq<Item>, lo: int): seq<Branch>
    requires ClosedFrom(cells, lo) && lo < |cells| && PointsWell(cells, lo, items, true) && |conds| == |items|
    decreases |cells| - lo, 0, |items|
  {
    if items == [] then []
    else
      var n := |items| - 1;
      var id := items[n].id;
      assert CellOk(cells, id);
      BranchesOf(cells, conds[..n], items[..n], lo) + [Branch(conds[n], TreesOf(cells, cells[id].items, id))]
  }

  /** Two stores that agree after `lo`, as far as the first one goes. */
  ghost predicate AgreeAfter(c1: seq<Cell>, c2: seq<Cell>, lo: int) {
    |c1| <= |c2| && forall j | 0 <= j < |c1| && lo < j :: c1[j] == c2[j]
  }

  /** A tree depends only on the cells after its parent. */
  lemma {:induction false} TreesFrame(c1: seq<Cell>, c2: seq<Cell>, items: seq<Item>, lo: int)
    requires AgreeAfter(c1, c2, lo) && ClosedFrom(c1, lo) && ClosedFrom(c2, lo) && lo < |c1|
             && PointsWell(c1, lo, items, false)
    ensures PointsWell(c2, lo, items, false)
    ensures TreesOf(c1, items, lo) == TreesOf(c2, items, lo)
    decreases |c1| - lo, 0, |items|
  {
    if items != [] {
      TreesFrame(c1, c2, items[..|items| - 1], lo);
      TreeFrame(c1, c2, items[|items| - 1], lo);
    }
  }

  lemma {:induction false} TreeFrame(c1: seq<Cell>, c2: seq<Cell>, item: Item, lo: int)
    requires AgreeAfter(c1, c2, lo) && ClosedFrom(c1, lo) && ClosedFrom(c2, lo) && lo < |c1|
             && PointsWell(c1, lo, [item], false)
    ensures PointsWell(c2, lo, [item], false)
    ensures TreeOf(c1, item, lo) == TreeOf(c2, item, lo)
    decreases |c1| - lo, 0, 0
  {
    assert [item][0] == item;
    if item.Ref? {
      var id := item.id;
      assert CellOk(c1, id);
      match c1[id].kind {
        case LoopKind(_, _) => TreesFrame(c1, c2, c1[id].items, id);
        case LogicKind => BranchesFrame(c1, c2, c1[id].conds, c1[id].items, id);
      }
    }
  }

  lemma {:induction false} BranchesFrame(c1: seq<Cell>, c2: seq<Cell>, conds: seq<Cond>, items: seq<Item>, lo: int)
    requires AgreeAfter(c1, c2, lo) && ClosedFrom(c1, lo) && ClosedFrom(c2, lo) && lo < |c1|
    requires PointsWell(c1, lo, items, true) && |conds| == |items|
    ensures PointsWell(c2, lo, items, true)
    ensures BranchesOf(c1, conds, items, lo) == BranchesOf(c2, conds, items, lo)
    decreases |c1| - lo, 0, |items|
  {
    if items != [] {
      var n := |items| - 1;
      BranchesFrame(c1, c2, conds[..n], items[..n], lo);
      assert CellOk(c1, items[n].id);
      TreesFrame(c1, c2, c1[items[n].id].items, items[n].id);
    }
  }

  // ---------------------------------------------------------------- the meaning of a store

  /** An open block: the parts before it in its container and, for an `if`, its finished branches
      and the condition of the open one. */
  datatype Frame =
    | InLoop(before: seq<Part>, name: string, query: string)
    | InLogic(before: seq<Part>, done: seq<Branch>, cond: Cond)

  datatype Zip = Zip(frames: seq<Frame>, parts: seq<Part>)

  const EMPTY_ZIP := Zip([], [])

  function ZipTop(z: Zip): Frame
    requires z.frames != []
  {
    z.frames[|z.frames| - 1]
  }

  function Pop(z: Zip, part: Part): Zip
    requires z.frames != []
  {
    Zip(z.frames[..|z.frames| - 1], ZipTop(z).before + [part])
  }

  function ZipStep(z: Zip, e: Event): Option<Zip> {
    match e
    case AddText(content) => Some(z.(parts := z.parts + [Text(content)]))
    case AddEcho(query) => Some(z.(parts := z.parts + [Echo(query)]))
    case AddInclude(file) => Some(z.(parts := z.parts + [Include(file)]))
    case OpenLoop(name, query) => Some(Zip(z.frames + [InLoop(z.parts, name, query)], []))
    case OpenLogic(cond) => Some(Zip(z.frames + [InLogic(z.parts, [], cond)], []))
    case AddBranch(cond) =>
      if z.frames == [] || !ZipTop(z).InLogic? then None
      else
        var f := ZipTop(z);
        Some(Zip(z.frames[..|z.frames| - 1] + [InLogic(f.before, f.done + [Branch(f.cond, z.parts)], cond)], []))
    case CloseLoop =>
      if z.frames == [] || !ZipTop(z).InLoop? then None
      else Some(Pop(z, Loop(ZipTop(z).name, ZipTop(z).query, z.parts)))
    case CloseLogic =>
      if z.frames == [] || !ZipTop(z).InLogic? then None
      else Some(Pop(z, Logic(ZipTop(z).done + [Branch(ZipTop(z).cond, z.parts)])))
  }

  function ZipRun(z: Zip, evs: seq<Event>): Option<Zip>
    decreases |evs|
  {
    if evs == [] then Some(z)
    else match ZipStep(z, evs[0])
      case None => None
      case Some(next) => ZipRun(next, evs[1..])
  }

  // ---------------------------------------------------------------- how the two stand to each other

  function Front<T>(s: seq<T>): seq<T>
    requires s != []
  {
    s[..|s| - 1]
  }

  function Last<T>(s: seq<T>): T
    requires s != []
  {
    s[|s| - 1]
  }

  /** The items of `lo`, read off the cells before `hi`, are the given parts. */
  ghost predicate Reads(cells: seq<Cell>, hi: nat, lo: nat, items: seq<Item>, parts: seq<Part>) {
    && lo < hi <= |cells| && ClosedFrom(cells[..hi], lo) && PointsWell(cells[..hi], lo, items, false)
    && TreesOf(cells[..hi], items, lo) == parts
  }

  ghost predicate ReadsBranches(cells: seq<Cell>, hi: nat, lo: nat, conds: seq<Cond>, items: seq<Item>,
                                bs: seq<Branch>) {
    && lo < hi <= |cells| && ClosedFrom(cells[..hi], lo) && PointsWell(cells[..hi], lo, items, true)
    && |conds| == |items| && BranchesOf(cells[..hi], conds, items, lo) == bs
  }

  /** A container with the open block as its last item: the open part is the loop itself, or the last
      branch of the logic block. */
  ghost predicate FrameStands(cells: seq<Cell>, container: nat, block: nat, inner: nat, f: Frame) {
    && container < block <= inner < |cells|
    && !cells[container].kind.LogicKind?
    && cells[container].items != [] && Last(cells[container].items) == Ref(block)
    && Reads(cells, block, container, Front(cells[container].items), f.before)
    && match f
       case InLoop(_, name, query) => inner == block && cells[block].kind == LoopKind(name, query)
       case InLogic(_, done, cond) =>
         && block < inner && cells[inner].kind.Plain? && cells[block].kind.LogicKind?
         && cells[block].items != [] && Last(cells[block].items) == Ref(inner)
         && cells[block].conds != [] && Last(cells[block].conds) == cond
         && ReadsBranches(cells, inner, block, Front(cells[block].conds), Front(cells[block].items), done)
  }

  /** The stack alternates containers and their open blocks, from the outermost in. */
  ghost predicate StackStands(cells: seq<Cell>, stack: seq<nat>, inner: nat, frames: seq<Frame>)
    decreases |frames|
  {
    if frames == [] then stack == [] && inner == 0 && cells != [] && cells[0].kind.Plain?
    else
      && |stack| >= 2
      && FrameStands(cells, stack[|stack| - 2], Last(stack), inner, Last(frames))
      && StackStands(cells, stack[..|stack| - 2], stack[|stack| - 2], Front(frames))
  }

  ghost predicate Stands(st: Store, z: Zip) {
    && InRange(st) && ClosedFrom(st.cells, -1)
    && Reads(st.cells, |st.cells|, st.current, st.cells[st.current].items, z.parts)
    && StackStands(st.cells, st.stack, st.current, z.frames)
  }

  /** The stack has two entries for each open block, and parts are never added to a logic block. */
  lemma {:induction false} StackIsEven(cells: seq<Cell>, stack: seq<nat>, inner: nat, frames: seq<Frame>)
    requires StackStands(cells, stack, inner, frames)
    ensures |stack| == 2 * |frames|
    ensures inner < |cells| && !cells[inner].kind.LogicKind?
  {
    if frames != [] {
      StackIsEven(cells, stack[..|stack| - 2], stack[|stack| - 2], Front(frames));
    }
  }

  /** What is done to the open part and after it leaves the open blocks as they are. */
  lemma {:induction false} StackKept(c1: seq<Cell>, c2: seq<Cell>, stack: seq<nat>, inner: nat, frames: seq<Frame>)
    requires StackStands(c1, stack, inner, frames)
    requires inner < |c1| <= |c2| && c1[..inner] == c2[..inner] && c1[inner].kind == c2[inner].kind
    ensures StackStands(c2, stack, inner, frames)
    decreases |frames|
  {
    if frames != [] {
      var container, block := stack[|stack| - 2], Last(stack);
      assert c1[container] == c2[container] by {
        assert c1[..inner][container] == c2[..inner][container];
      }
      assert c1[..block] == c1[..inner][..block] == c2[..block];
      assert c1[..container] == c1[..inner][..container] == c2[..container];
      if block < inner {
        assert c1[block] == c1[..inner][block] == c2[block];
      }
      StackKept(c1, c2, stack[..|stack| - 2], container, Front(frames));
    }
  }

  // ---------------------------------------------------------------- every step keeps it

  /** Changing one cell, and adding others, keeps what was read after it. */
  lemma ReadsKept(c1: seq<Cell>, c2: seq<Cell>, hi: nat, lo: nat, items: seq<Item>, parts: seq<Part>)
    requires Reads(c1, hi, lo, items, parts)
    requires hi <= |c2| && forall j | lo < j < hi :: c1[j] == c2[j]
    ensures Reads(c2, hi, lo, items, parts)
  {
    forall j | lo < j < hi ensures CellOk(c2[..hi], j) {
      assert CellOk(c1[..hi], j);
    }
    TreesFrame(c1[..hi], c2[..hi], items, lo);
  }

  lemma ReadsMore(cells: seq<Cell>, hi: nat, lo: nat, items: seq<Item>, parts: seq<Part>)
    requires Reads(cells, hi, lo, items, parts) && ClosedFrom(cells, lo)
    ensures Reads(cells, |cells|, lo, items, parts)
  {
    assert cells[..|cells|] == cells;
    TreesFrame(cells[..hi], cells, items, lo);
  }

  lemma ReadsOneMore(cells: seq<Cell>, lo: nat, items: seq<Item>, parts: seq<Part>, item: Item, part: Part)
    requires Reads(cells, |cells|, lo, items, parts)
    requires PointsWell(cells, lo, [item], false) && ClosedFrom(cells, lo) && TreeOf(cells, item, lo) == part
    ensures Reads(cells, |cells|, lo, items + [item], parts + [part])
  {
    assert cells[..|cells|] == cells;
    assert [item][0] == item;
    assert Front(items + [item]) == items && Last(items + [item]) == item;
    assert PointsWell(cells, lo, items + [item], false);
  }

  /** One more item in the open part, and new cells after the others. */
  lemma AddedIsClosed(cells: seq<Cell>, at: nat, item: Item, more: seq<Cell>)
    requires ClosedFrom(cells, -1) && at < |cells| && !cells[at].kind.LogicKind?
    requires var c2 := cells[at := AddTo(cells[at], item)] + more;
             PointsWell(c2, at, [item], false) && forall j | |cells| <= j < |c2| :: CellOk(c2, j)
    ensures ClosedFrom(cells[at := AddTo(cells[at], item)] + more, -1)
  {
    var c2 := cells[at := AddTo(cells[at], item)] + more;
    assert [item][0] == item;
    forall j | 0 <= j < |c2| ensures CellOk(c2, j) {
      if j < |cells| {
        assert CellOk(cells, j);
        forall i | 0 <= i < |cells[j].items| && cells[j].items[i].Ref?
          ensures c2[cells[j].items[i].id].kind == cells[cells[j].items[i].id].kind
        {
        }
      }
    }
  }

  lemma FlatStands(st: Store, z: Zip, part: Part)
    requires Stands(st, z)
    ensures Stands(AddHere(st, Flat(part)), z.(parts := z.parts + [part]))
  {
    var cells, at := st.cells, st.current;
    StackIsEven(cells, st.stack, at, z.frames);
    var c2 := AddHere(st, Flat(part)).cells;
    assert c2 == c2 + [];
    AddedIsClosed(cells, at, Flat(part), []);
    ReadsKept(cells, c2, |cells|, at, cells[at].items, z.parts);
    ReadsOneMore(c2, at, cells[at].items, z.parts, Flat(part), part);
    StackKept(cells, c2, st.stack, at, z.frames);
  }

  lemma PushStands(st: Store, frames: seq<Frame>, block: nat, inner: nat, f: Frame, st2: Store, z2: Zip)
    requires InRange(st) && ClosedFrom(st.cells, -1) && StackStands(st.cells, st.stack, st.current, frames)
    requires FrameStands(st.cells, st.current, block, inner, f) && st.cells[inner].items == []
    requires st2 == Store(st.cells, st.stack + [st.current, block], inner) && z2 == Zip(frames + [f], [])
    ensures Stands(st2, z2)
  {
    assert Front(z2.frames) == frames && st2.stack[..|st2.stack| - 2] == st.stack;
    NewPartStands(st2, z2);
  }

  /** A part that is still empty. */
  lemma NewPartStands(st: Store, z: Zip)
    requires InRange(st) && ClosedFrom(st.cells, -1) && StackStands(st.cells, st.stack, st.current, z.frames)
    requires st.cells[st.current].items == [] && z.parts == []
    ensures Stands(st, z)
  {
    assert st.cells[..|st.cells|] == st.cells;
  }

  /** The new cells of a `for`, or of an `if` and its first branch. */
  ghost predicate IsNewBlock(more: seq<Cell>, id: nat) {
    || (|more| == 1 && more[0].kind.LoopKind? && more[0].items == [])
    || (|more| == 2 && more[0].kind.LogicKind? && |more[0].conds| == 1 && more[0].items == [Ref(id + 1)]
        && more[1] == Cell(Plain, [], []))
  }

  lemma NewBlockIsClosed(st: Store, more: seq<Cell>)
    requires InRange(st) && ClosedFrom(st.cells, -1) && !st.cells[st.current].kind.LogicKind?
    requires IsNewBlock(more, |st.cells|)
    ensures ClosedFrom(AddHere(st, Ref(|st.cells|)).cells + more, -1)
  {
    var c2 := AddHere(st, Ref(|st.cells|)).cells + more;
    assert forall j | |st.cells| <= j < |c2| :: c2[j] == more[j - |st.cells|];
    AddedIsClosed(st.cells, st.current, Ref(|st.cells|), more);
  }

  ghost predicate EndsWithRef(cells: seq<Cell>, at: nat, id: nat, parts: seq<Part>) {
    && at < id < |cells| && ClosedFrom(cells, -1) && !cells[at].kind.LogicKind?
    && cells[at].items != [] && Last(cells[at].items) == Ref(id)
    && Reads(cells, id, at, Front(cells[at].items), parts)
  }

  /** The container of a new block. */
  lemma ContainerStands(st: Store, z: Zip, more: seq<Cell>)
    requires Stands(st, z) && IsNewBlock(more, |st.cells|)
    ensures var c2 := AddHere(st, Ref(|st.cells|)).cells + more;
            && StackStands(c2, st.stack, st.current, z.frames)
            && EndsWithRef(c2, st.current, |st.cells|, z.parts)
  {
    var id, at := |st.cells|, st.current;
    StackIsEven(st.cells, st.stack, at, z.frames);
    NewBlockIsClosed(st, more);
    var c2 := AddHere(st, Ref(id)).cells + more;
    StackKept(st.cells, c2, st.stack, at, z.frames);
    assert Front(c2[at].items) == st.cells[at].items;
    ReadsKept(st.cells, c2, id, at, st.cells[at].items, z.parts);
  }

  lemma LoopStands(st: Store, z: Zip, name: string, query: string)
    requires Stands(st, z)
    ensures Stands(OpenLoopAt(st, name, query), Zip(z.frames + [InLoop(z.parts, name, query)], []))
  {
    var id, st2 := |st.cells|, OpenLoopAt(st, name, query);
    ContainerStands(st, z, [Cell(LoopKind(name, query), [], [])]);
    LoopFrameStands(Store(st2.cells, st.stack, st.current), z, id, name, query, st2);
  }

  lemma LoopFrameStands(st: Store, z: Zip, id: nat, name: string, query: string, st2: Store)
    requires EndsWithRef(st.cells, st.current, id, z.parts) && |st.cells| == id + 1
    requires InRange(st) && StackStands(st.cells, st.stack, st.current, z.frames)
    requires st.cells[id] == Cell(LoopKind(name, query), [], [])
    requires st2 == Store(st.cells, st.stack + [st.current, id], id)
    ensures Stands(st2, Zip(z.frames + [InLoop(z.parts, name, query)], []))
  {
    var f := InLoop(z.parts, name, query);
    PushStands(st, z.frames, id, id, f, st2, Zip(z.frames + [f], []));
  }

  lemma LogicStands(st: Store, z: Zip, cond: Cond)
    requires Stands(st, z)
    ensures Stands(OpenLogicAt(st, cond), Zip(z.frames + [InLogic(z.parts, [], cond)], []))
  {
    var outer := LogicOuter(st, z, cond);
    LogicFrameStands(outer, z, |st.cells|, cond, OpenLogicAt(st, cond));
  }

  /** The store with the new block, before it is pushed. */
  lemma LogicOuter(st: Store, z: Zip, cond: Cond) returns (outer: Store)
    requires Stands(st, z)
    ensures var id := |st.cells|;
            && InRange(outer) && StackStands(outer.cells, outer.stack, outer.current, z.frames)
            && EndsWithRef(outer.cells, outer.current, id, z.parts) && |outer.cells| == id + 2
            && outer.cells[id] == Cell(LogicKind, [cond], [Ref(id + 1)]) && outer.cells[id + 1] == Cell(Plain, [], [])
            && OpenLogicAt(st, cond) == Store(outer.cells, outer.stack + [outer.current, id], id + 1)
  {
    var id := |st.cells|;
    var more := [Cell(LogicKind, [cond], [Ref(id + 1)]), Cell(Plain, [], [])];
    ContainerStands(st, z, more);
    outer := Store(AddHere(st, Ref(id)).cells + more, st.stack, st.current);
    assert outer.cells[id] == more[0] && outer.cells[id + 1] == more[1];
  }

  lemma LogicFrameStands(st: Store, z: Zip, id: nat, cond: Cond, st2: Store)
    requires EndsWithRef(st.cells, st.current, id, z.parts) && |st.cells| == id + 2
    requires InRange(st) && StackStands(st.cells, st.stack, st.current, z.frames)
    requires st.cells[id] == Cell(LogicKind, [cond], [Ref(id + 1)]) && st.cells[id + 1] == Cell(Plain, [], [])
    requires st2 == Store(st.cells, st.stack + [st.current, id], id + 1)
    ensures Stands(st2, Zip(z.frames + [InLogic(z.parts, [], cond)], []))
  {
    var f := InLogic(z.parts, [], cond);
    assert Front([Ref(id + 1)]) == [] && Front([cond]) == [];
    PushStands(st, z.frames, id, id + 1, f, st2, Zip(z.frames + [f], []));
  }

  // --------------------------------------------------- closing a block and adding a branch

  /** The open branch, read as the last of its block. */
  lemma LastBranchReads(cells: seq<Cell>, block: nat, inner: nat, done: seq<Branch>, cond: Cond, parts: seq<Part>)
    requires ClosedFrom(cells, -1) && block < inner < |cells| && cells[inner].kind.Plain?
             && cells[block].kind.LogicKind?
    requires cells[block].items != [] && Last(cells[block].items) == Ref(inner)
    requires cells[block].conds != [] && Last(cells[block].conds) == cond
    requires ReadsBranches(cells, inner, block, Front(cells[block].conds), Front(cells[block].items), done)
    requires Reads(cells, |cells|, inner, cells[inner].items, parts)
    ensures ReadsBranches(cells, |cells|, block, cells[block].conds, cells[block].items, done + [Branch(cond, parts)])
  {
    assert cells[..|cells|] == cells;
    assert CellOk(cells, block);
    BranchesFrame(cells[..inner], cells, Front(cells[block].conds), Front(cells[block].items), block);
  }

  lemma CloseStands(st: Store, z: Zip)
    requires Stands(st, z) && z.frames != []
    ensures |st.stack| >= 2
    ensures TopIsLoop(st) <==> Last(z.frames).InLoop?
    ensures TopIsLogic(st) <==> Last(z.frames).InLogic?
    ensures Stands(CloseAt(st), Pop(z, match Last(z.frames)
                                        case InLoop(_, name, query) => Loop(name, query, z.parts)
                                        case InLogic(_, done, cond) => Logic(done + [Branch(cond, z.parts)])))
  {
    var cells, f := st.cells, Last(z.frames);
    var container, block := CloseAt(st).current, Last(st.stack);
    assert FrameStands(cells, container, block, st.current, f);
    assert cells[..|cells|] == cells;
    assert CellOk(cells, block) && CellOk(cells, container);
    var part := match f
                case InLoop(_, name, query) => Loop(name, query, z.parts)
                case InLogic(_, done, cond) => Logic(done + [Branch(cond, z.parts)]);
    if f.InLogic? {
      LastBranchReads(cells, block, st.current, f.done, f.cond, z.parts);
    }
    assert PointsWell(cells, container, [Ref(block)], false);
    assert TreeOf(cells, Ref(block), container) == part;
    ReadsMore(cells, block, container, Front(cells[container].items), f.before);
    ReadsOneMore(cells, container, Front(cells[container].items), f.before, Ref(block), part);
    assert Front(cells[container].items) + [Ref(block)] == cells[container].items;
  }

  /** One more branch in a block. */
  function NewBranch(cells: seq<Cell>, block: nat, cond: Cond): seq<Cell>
    requires block < |cells|
  {
    cells[block := AddCase(cells[block], cond, Ref(|cells|))] + [Cell(Plain, [], [])]
  }

  lemma NewBranchKeeps(cells: seq<Cell>, block: nat, cond: Cond, stack: seq<nat>, inner: nat, frames: seq<Frame>)
    requires inner < block < |cells| && StackStands(cells, stack, inner, frames)
    ensures StackStands(NewBranch(cells, block, cond), stack, inner, frames)
  {
    StackKept(cells, NewBranch(cells, block, cond), stack, inner, frames);
  }

  lemma NewBranchIsClosed(cells: seq<Cell>, block: nat, cond: Cond)
    requires ClosedFrom(cells, -1) && block < |cells| && cells[block].kind.LogicKind?
    ensures ClosedFrom(NewBranch(cells, block, cond), -1)
  {
    var c2 := NewBranch(cells, block, cond);
    forall j | 0 <= j < |c2| ensures CellOk(c2, j) {
      if j < |cells| {
        assert CellOk(cells, j);
        forall i | 0 <= i < |cells[j].items| && cells[j].items[i].Ref?
          ensures c2[cells[j].items[i].id].kind == cells[cells[j].items[i].id].kind
        {
        }
      }
    }
  }

  lemma ReadsBranchesKept(c1: seq<Cell>, c2: seq<Cell>, hi: nat, lo: nat, conds: seq<Cond>, items: seq<Item>,
                          bs: seq<Branch>)
    requires ReadsBranches(c1, hi, lo, conds, items, bs)
    requires hi <= |c2| && forall j | lo < j < hi :: c1[j] == c2[j]
    ensures ReadsBranches(c2, hi, lo, conds, items, bs)
  {
    forall j | lo < j < hi ensures CellOk(c2[..hi], j) {
      assert CellOk(c1[..hi], j);
    }
    BranchesFrame(c1[..hi], c2[..hi], conds, items, lo);
  }

  /** The block on top of the stack after `elsif` or `else`. */
  lemma BranchFrameStands(c1: seq<Cell>, container: nat, block: nat, inner: nat, f: Frame, parts: seq<Part>, cond: Cond)
    requires ClosedFrom(c1, -1) && FrameStands(c1, container, block, inner, f) && f.InLogic?
    requires Reads(c1, |c1|, inner, c1[inner].items, parts)
    ensures FrameStands(NewBranch(c1, block, cond), container, block, |c1|,
                        InLogic(f.before, f.done + [Branch(f.cond, parts)], cond))
  {
    var c2 := NewBranch(c1, block, cond);
    ReadsKept(c1, c2, block, container, Front(c1[container].items), f.before);
    LastBranchReads(c1, block, inner, f.done, f.cond, parts);
    ReadsBranchesKept(c1, c2, |c1|, block, c1[block].conds, c1[block].items, f.done + [Branch(f.cond, parts)]);
    assert Front(c2[block].conds) == c1[block].conds && Front(c2[block].items) == c1[block].items;
  }

  /** The stack after `elsif` or `else`. */
  lemma NewBranchStands(cells: seq<Cell>, stack: seq<nat>, inner: nat, frames: seq<Frame>, parts: seq<Part>, cond: Cond)
    requires ClosedFrom(cells, -1) && StackStands(cells, stack, inner, frames) && frames != [] && Last(frames).InLogic?
    requires inner < |cells| && Reads(cells, |cells|, inner, cells[inner].items, parts)
    ensures Last(stack) < |cells|
    ensures var f := Last(frames);
            StackStands(NewBranch(cells, Last(stack), cond), stack, |cells|,
                        Front(frames) + [InLogic(f.before, f.done + [Branch(f.cond, parts)], cond)])
  {
    var container, block, f := stack[|stack| - 2], Last(stack), Last(frames);
    BranchFrameStands(cells, container, block, inner, f, parts, cond);
    NewBranchKeeps(cells, block, cond, stack[..|stack| - 2], container, Front(frames));
    var frames2 := Front(frames) + [InLogic(f.before, f.done + [Branch(f.cond, parts)], cond)];
    assert Front(frames2) == Front(frames);
  }

  lemma BranchStands(st: Store, z: Zip, cond: Cond)
    requires Stands(st, z) && z.frames != [] && Last(z.frames).InLogic?
    ensures TopIsLogic(st)
    ensures ZipStep(z, AddBranch(cond)).Some? && Stands(AddBranchAt(st, cond), ZipStep(z, AddBranch(cond)).value)
  {
    var c2, id := NewBranch(st.cells, Last(st.stack), cond), |st.cells|;
    NewBranchStands(st.cells, st.stack, st.current, z.frames, z.parts, cond);
    NewBranchIsClosed(st.cells, Last(st.stack), cond);
    assert AddBranchAt(st, cond) == Store(c2, st.stack, id);
    NewPartStands(Store(c2, st.stack, id), ZipStep(z, AddBranch(cond)).value);
  }

  /** A step throws exactly if its block is not the innermost open one, and otherwise keeps the
      relation between the store and its meaning. */
  lemma StepStands(st: Store, z: Zip, e: Event)
    requires Stands(st, z)
    ensures Step(st, e).Some? <==> ZipStep(z, e).Some?
    ensures Step(st, e).Some? ==> Stands(Step(st, e).value, ZipStep(z, e).value)
  {
    if z.frames != [] {
      CloseStands(st, z);
    }
    match e {
      case AddText(content) => FlatStands(st, z, Text(content));
      case AddEcho(query) => FlatStands(st, z, Echo(query));
      case AddInclude(file) => FlatStands(st, z, Include(file));
      case OpenLoop(name, query) => LoopStands(st, z, name, query);
      case OpenLogic(cond) => LogicStands(st, z, cond);
      case AddBranch(cond) =>
        if z.frames != [] && Last(z.frames).InLogic? {
          BranchStands(st, z, cond);
        }
      case CloseLoop =>
      case CloseLogic =>
    }
  }

  lemma EmptyStands()
    ensures Stands(EMPTY_STORE, EMPTY_ZIP)
  {
    var cells := EMPTY_STORE.cells;
    assert cells[..|cells|] == cells;
  }

  lemma {:induction false} RunStands(st: Store, z: Zip, evs: seq<Event>)
    requires Stands(st, z)
    ensures Run(st, evs).Some? <==> ZipRun(z, evs).Some?
    ensures Run(st, evs).Some? ==> Stands(Run(st, evs).value, ZipRun(z, evs).value)
    decreases |evs|
  {
    if evs != [] {
      StepStands(st, z, evs[0]);
      if Step(st, evs[0]).Some? {
        RunStands(Step(st, evs[0]).value, ZipStep(z, evs[0]).value, evs[1..]);
      }
    }
  }
}
