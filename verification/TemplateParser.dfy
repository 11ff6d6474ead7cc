/** The parser of templates: parts on the heap, their stack, and the loop of `Template::parse`. */
module TemplateParser {
  import opened TextStream
  import opened TemplateSyntax
  import opened TemplateBuild
  import opened TemplateParse

  /** A `StringPart`, `EchoPart` or `IncludePart`. */
  type FlatPart = p: Part | p.Text? || p.Echo? || p.Include? witness Text("")

  /** A shared pointer to a part. */
  datatype PartRef = Simple(part: FlatPart) | Sub(node: MultiPart)

  /** `MultiPart` and its subclasses; `id` counts allocations. */
  class MultiPart {
    const kind: Kind
    ghost const id: nat
    var parts: seq<PartRef>
    var queries: seq<Cond>  // of a LogicPart

    constructor (kind: Kind, ghost id: nat)
      ensures this.kind == kind && this.id == id && parts == [] && queries == []
    {
      this.kind, this.id := kind, id;
      parts, queries := [], [];
    }

    ghost function Picture(): Cell
      reads this
    {
      Cell(kind, queries, Items(parts))
    }

    /** Every pointer leads to one of the given parts. */
    ghost predicate Inside(nodes: seq<MultiPart>)
      reads this
    {
      forall i | 0 <= i < |parts| && parts[i].Sub? :: Among(nodes, parts[i].node)
    }

    /** The part is at its place in the list, and the cell is its picture. */
    ghost predicate IsAt(i: nat, nodes: seq<MultiPart>, cell: Cell)
      reads this
    {
      id == i && Picture() == cell && Inside(nodes)
    }

    /** `addPart(part)`; a `LogicPart` overrides it. */
    method AddPart(part: PartRef)
      modifies this
      ensures Picture() == AddTo(old(Picture()), ItemOf(part)) && parts == old(parts) + [part]
    {
      assert Items(parts + [part]) == Items(parts) + [ItemOf(part)];
      parts := parts + [part];
      if kind.LogicKind? {
        queries := queries + [Otherwise];
      }
    }

    /** `addPart(query, part)` */
    method AddQuery(query: Cond, part: PartRef)
      modifies this
      ensures Picture() == AddCase(old(Picture()), query, ItemOf(part)) && parts == old(parts) + [part]
    {
      assert Items(parts + [part]) == Items(parts) + [ItemOf(part)];
      parts := parts + [part];
      queries := queries + [query];
    }
  }

  /** The node is in the list, at the place of its number. */
  ghost predicate Among(nodes: seq<MultiPart>, node: MultiPart) {
    node.id < |nodes| && nodes[node.id] == node
  }

  ghost function ItemOf(p: PartRef): Item {
    match p
    case Simple(part) => Flat(part)
    case Sub(node) => Ref(node.id)
  }

  ghost function Items(parts: seq<PartRef>): seq<Item> {
    seq(|parts|, i requires 0 <= i < |parts| => ItemOf(parts[i]))
  }

  class Template {
    var stack: seq<MultiPart>
    var current: MultiPart
    var parts: MultiPart         // the root
    ghost var nodes: seq<MultiPart>  // in the order of their allocation
    ghost var store: Store

    /** The store is a picture of the parts, the stack and the current part. */
    ghost predicate Valid()
      reads this, nodes
    {
      && nodes != [] && |store.cells| == |nodes|
      && (forall i | 0 <= i < |nodes| :: nodes[i].IsAt(i, nodes, store.cells[i]))
      && |store.stack| == |stack|
      && (forall i | 0 <= i < |stack| :: stack[i].id == store.stack[i] && Among(nodes, stack[i]))
      && Among(nodes, current) && store.current == current.id
      && parts == nodes[0]
      && InRange(store)
    }

    constructor ()
      ensures Valid() && store == EMPTY_STORE && fresh(nodes)
    {
      var root := new MultiPart(Plain, 0);
      stack, current, parts := [], root, root;
      nodes, store := [root], EMPTY_STORE;
    }

    method Allocate(kind: Kind) returns (node: MultiPart)
      requires Valid()
      modifies this`nodes, this`store
      ensures Valid() && fresh(node) && nodes == old(nodes) + [node] && node.id == |old(nodes)| && node.kind == kind
      ensures store == old(store).(cells := old(store).cells + [Cell(kind, [], [])])
    {
      node := new MultiPart(kind, |nodes|);
      assert node.Picture() == Cell(kind, [], []);
      nodes := nodes + [node];
      store := store.(cells := store.cells + [node.Picture()]);
    }

    /** `_currentPart->addPart(part)` */
    method AddToCurrent(part: PartRef)
      requires Valid() && (part.Sub? ==> Among(nodes, part.node))
      modifies this`store, nodes
      ensures Valid() && nodes == old(nodes)
      ensures store == AddHere(old(store), ItemOf(part))
    {
      assert nodes[current.id] == current;
      current.AddPart(part);
      assert forall i | 0 <= i < |nodes| && nodes[i] != current :: nodes[i].IsAt(i, nodes, store.cells[i]);
      assert current.Inside(nodes);
      store := AddHere(store, ItemOf(part));
    }

    /** A branch of a `LogicPart`: `lp->addPart(query, part)` */
    method AddToLogic(node: MultiPart, query: Cond, part: PartRef)
      requires Valid() && Among(nodes, node) && (part.Sub? ==> Among(nodes, part.node))
      modifies this`store, nodes
      ensures Valid() && nodes == old(nodes)
      ensures node.id < |old(store).cells|
      ensures store == old(store).(cells :=
                old(store).cells[node.id := AddCase(old(store).cells[node.id], query, ItemOf(part))])
    {
      assert nodes[node.id] == node;
      node.AddQuery(query, part);
      assert forall i | 0 <= i < |nodes| && nodes[i] != node :: nodes[i].IsAt(i, nodes, store.cells[i]);
      assert node.Inside(nodes);
      store := store.(cells := store.cells[node.id := AddCase(store.cells[node.id], query, ItemOf(part))]);
    }

    /** `_partStack.push` of the current part and of its new block. */
    method PushBlock(block: MultiPart, inner: MultiPart)
      requires Valid() && Among(nodes, block) && Among(nodes, inner)
      modifies this`stack, this`current, this`store
      ensures Valid()
      ensures store == old(store).(stack := old(store).stack + [old(store).current, block.id], current := inner.id)
    {
      stack := stack + [current, block];
      store := store.(stack := store.stack + [store.current, block.id], current := inner.id);
      current := inner;
    }

    /** A new block, as the last part of the current one. */
    method AddBlock(kind: Kind) returns (block: MultiPart)
      requires Valid()
      modifies this`nodes, this`store, nodes
      ensures Valid() && fresh(block) && nodes == old(nodes) + [block] && block.id == |old(nodes)|
      ensures store == old(store).(cells := AddHere(old(store), Ref(|old(store).cells|)).cells + [Cell(kind, [], [])])
    {
      AddThenGrow(store, Ref(|store.cells|), [Cell(kind, [], [])]);
      block := Allocate(kind);
      AddToCurrent(Sub(block));
    }

    /** A new branch of a block. */
    method AddPlain(block: MultiPart, cond: Cond) returns (branch: MultiPart)
      requires Valid() && Among(nodes, block)
      modifies this`nodes, this`store, nodes
      ensures Valid() && fresh(branch) && nodes == old(nodes) + [branch] && branch.id == |old(nodes)|
      ensures store == old(store).(cells := NewBranch(old(store).cells, block.id, cond))
    {
      ghost var cells := store.cells;
      branch := Allocate(Plain);
      AddToLogic(block, cond, Sub(branch));
      assert store.cells == NewBranch(cells, block.id, cond);
    }

    /** The first branch of a new block, which is pushed with it. */
    method OpenBranch(block: MultiPart, cond: Cond)
      requires Valid() && Among(nodes, block)
      modifies this, nodes
      ensures Valid() && forall i | 0 <= i < |nodes| :: nodes[i] in old(nodes) || fresh(nodes[i])
      ensures store == Store(NewBranch(old(store).cells, block.id, cond),
                             old(store).stack + [old(store).current, block.id],
                             |old(store).cells|)
    {
      var branch := AddPlain(block, cond);
      PushBlock(block, branch);
    }

    /** `for` */
    method OpenLoop(name: string, query: string)
      requires Valid()
      modifies this, nodes
      ensures Valid() && forall i | 0 <= i < |nodes| :: nodes[i] in old(nodes) || fresh(nodes[i])
      ensures store == OpenLoopAt(old(store), name, query)
    {
      var loop := AddBlock(LoopKind(name, query));
      PushBlock(loop, loop);
    }

    /** `if` and `ifexist` */
    method OpenLogic(cond: Cond)
      requires Valid()
      modifies this, nodes
      ensures Valid() && forall i | 0 <= i < |nodes| :: nodes[i] in old(nodes) || fresh(nodes[i])
      ensures store == OpenLogicAt(old(store), cond)
    {
      ghost var st := store;
      var logic := AddBlock(LogicKind);
      OpenBranch(logic, cond);
      LogicByParts(st, cond);
    }

    /** `elsif` and `else`, with a `LogicPart` on top of the stack */
    method AddBranch(cond: Cond)
      requires Valid() && TopIsLogic(store)
      modifies this, nodes
      ensures Valid() && forall i | 0 <= i < |nodes| :: nodes[i] in old(nodes) || fresh(nodes[i])
      ensures store == AddBranchAt(old(store), cond)
    {
      var branch := AddPlain(stack[|stack| - 1], cond);
      current := branch;
      store := store.(current := branch.id);
    }

    /** `endfor` and `endif` */
    method Close()
      requires Valid() && |stack| >= 2
      modifies this`stack, this`current, this`store
      ensures Valid() && store == CloseAt(old(store))
    {
      current := stack[|stack| - 2];
      stack := stack[..|stack| - 2];
      store := CloseAt(store);
    }

    /** The dynamic cast of the part on top of the stack to `LogicPart`, if there is one. */
    method TopLogic() returns (r: bool)
      requires Valid()
      ensures r <==> TopIsLogic(store)
    {
      if stack == [] {
        return false;
      }
      assert nodes[stack[|stack| - 1].id] == stack[|stack| - 1];
      return stack[|stack| - 1].kind.LogicKind?;
    }

    /** The dynamic cast to `LoopPart` */
    method TopLoop() returns (r: bool)
      requires Valid()
      ensures r <==> TopIsLoop(store)
    {
      if stack == [] {
        return false;
      }
      assert nodes[stack[|stack| - 1].id] == stack[|stack| - 1];
      return stack[|stack| - 1].kind.LoopKind?;
    }

    /** `else` and `elsif`; false stands for the template exception. */
    method HandleBranch(cond: Cond) returns (ok: bool)
      requires Valid()
      modifies this, nodes
      ensures Valid() && forall i | 0 <= i < |nodes| :: nodes[i] in old(nodes) || fresh(nodes[i])
      ensures ok <==> TopIsLogic(old(store))
      ensures ok ==> store == AddBranchAt(old(store), cond)
    {
      ok := TopLogic();
      if ok {
        AddBranch(cond);
      }
    }

    /** `endfor` and `endif`; false stands for the template exception. */
    method HandleClose(loop: bool) returns (ok: bool)
      requires Valid()
      modifies this`stack, this`current, this`store
      ensures Valid()
      ensures ok <==> |old(store).stack| >= 2 && if loop then TopIsLoop(old(store)) else TopIsLogic(old(store))
      ensures ok ==> store == CloseAt(old(store))
    {
      if loop {
        ok := TopLoop();
      } else {
        ok := TopLogic();
      }
      ok := ok && |stack| >= 2;
      if ok {
        Close();
      }
    }

    /** What `parse` does with one text or command; false stands for the template exception. */
    method Handle(e: Event) returns (ok: bool)
      requires Valid()
      modifies this, nodes
      ensures Valid() && forall i | 0 <= i < |nodes| :: nodes[i] in old(nodes) || fresh(nodes[i])
      ensures ok <==> Step(old(store), e).Some?
      ensures ok ==> store == Step(old(store), e).value
    {
      ok := true;
      match e {
        case AddText(content) => AddToCurrent(Simple(Text(content)));
        case AddEcho(query) => AddToCurrent(Simple(Echo(query)));
        case AddInclude(file) => AddToCurrent(Simple(Include(file)));
        case OpenLoop(name, query) => OpenLoop(name, query);
        case OpenLogic(cond) => OpenLogic(cond);
        case AddBranch(cond) => ok := HandleBranch(cond);
        case CloseLoop => ok := HandleClose(true);
        case CloseLogic => ok := HandleClose(false);
      }
    }

    /** A text, unless it is empty. */
    method ParseTextPart(istr: InStream)
      requires Valid() && istr.Valid()
      modifies this, nodes, istr
      ensures Valid() && istr.Valid() && forall i | 0 <= i < |nodes| :: nodes[i] in old(nodes) || fresh(nodes[i])
      ensures |istr.Rest()| <= |old(istr.Rest())|
      ensures RunScript(store, CommandScript(istr.Rest())) == RunScript(old(store), ScriptOf(old(istr.Rest())))
    {
      var text := ReadText(istr);
      if text != "" {
        AddToCurrent(Simple(Text(text)));
      }
    }

    /** A command; the result is what `CommandScript` makes of it. */
    method ParseCommand(istr: InStream) returns (r: ItemRead)
      requires Valid() && istr.Valid()
      modifies this, nodes, istr
      ensures Valid() && istr.Valid() && forall i | 0 <= i < |nodes| :: nodes[i] in old(nodes) || fresh(nodes[i])
      ensures r.OneStep? ==> |istr.Rest()| < |old(istr.Rest())|
      ensures RunScript(old(store), CommandScript(old(istr.Rest()))) ==
              match r
              case NoStep => Some(store)
              case StepThrows => None
              case OneStep(_) => RunScript(store, ScriptOf(istr.Rest()))
    {
      r := ReadCommand(istr);
      if r.OneStep? {
        var ok := Handle(r.event);
        if !ok {
          r := StepThrows;
        }
      }
    }

    /** A text and a command. */
    method ParseItem(istr: InStream) returns (r: ItemRead)
      requires Valid() && istr.Valid()
      modifies this, nodes, istr
      ensures Valid() && istr.Valid() && forall i | 0 <= i < |nodes| :: nodes[i] in old(nodes) || fresh(nodes[i])
      ensures r.OneStep? ==> |istr.Rest()| < |old(istr.Rest())|
      ensures RunScript(old(store), ScriptOf(old(istr.Rest()))) ==
              match r
              case NoStep => Some(store)
              case StepThrows => None
              case OneStep(_) => RunScript(store, ScriptOf(istr.Rest()))
    {
      ParseTextPart(istr);
      r := ParseCommand(istr);
    }

    /** `parse(istr)` of a new template; false stands for the template exception. */
    method Parse(istr: InStream) returns (ok: bool)
      requires Valid() && store == EMPTY_STORE && istr.Valid()
      modifies this, nodes, istr
      ensures Valid()
      ensures ok <==> ParseText(old(istr.Rest())).Some?
      ensures ok ==> store == ParseText(old(istr.Rest())).value
    {
      while true
        invariant Valid() && istr.Valid() && forall i | 0 <= i < |nodes| :: nodes[i] in old(nodes) || fresh(nodes[i])
        invariant RunScript(store, ScriptOf(istr.Rest())) == ParseText(old(istr.Rest()))
        decreases |istr.Rest()|
      {
        var item := ParseItem(istr);
        if !item.OneStep? {
          return item.NoStep?;
        }
      }
    }
  }

  lemma AddThenGrow(st: Store, item: Item, more: seq<Cell>)
    requires InRange(st)
    ensures st.cells[st.current := AddTo(st.cells[st.current], item)] + more
         == (st.cells + more)[st.current := AddTo((st.cells + more)[st.current], item)]
  {
  }

  /** `OpenLogicAt` in the order of adding the block and then its first branch. */
  lemma LogicByParts(st: Store, cond: Cond)
    requires InRange(st)
    ensures var added := AddHere(st, Ref(|st.cells|)).cells + [Cell(LogicKind, [], [])];
            NewBranch(added, |st.cells|, cond) == OpenLogicAt(st, cond).cells
  {
    var id, added := |st.cells|, AddHere(st, Ref(|st.cells|)).cells;
    var block := Cell(LogicKind, [cond], [Ref(id + 1)]);
    assert [] + [cond] == [cond] && [] + [Ref(id + 1)] == [Ref(id + 1)];
    assert (added + [Cell(LogicKind, [], [])])[id := block] == added + [block];
    assert added + [block] + [Cell(Plain, [], [])] == added + [block, Cell(Plain, [], [])];
  }
}
