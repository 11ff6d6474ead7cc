/** Rendering the parts that a parse has left on the heap, and the whole way from a text to the output. */
module TemplateEngine {
  import opened TextStream
  import opened JsonValue
  import opened JsonPrinter
  import opened TemplateSyntax
  import opened TemplatePrint
  import opened TemplateBuild
  import opened TemplateParse
  import opened TemplateParser
  import opened TemplateQuery
  import opened TemplateRender

  // ---------------------------------------------------------------- trees, part by part

  lemma {:induction false} TreesOfAt(cells: seq<Cell>, items: seq<Item>, lo: int, i: nat)
    requires ClosedFrom(cells, lo) && lo < |cells| && PointsWell(cells, lo, items, false) && i < |items|
    ensures PointsWell(cells, lo, [items[i]], false)
    ensures |TreesOf(cells, items, lo)| == |items| && TreesOf(cells, items, lo)[i] == TreeOf(cells, items[i], lo)
    decreases |items|
  {
    var n := |items| - 1;
    TreesLength(cells, items[..n], lo);
    if i < n {
      TreesOfAt(cells, items[..n], lo, i);
    }
  }

  lemma {:induction false} TreesLength(cells: seq<Cell>, items: seq<Item>, lo: int)
    requires ClosedFrom(cells, lo) && lo < |cells| && PointsWell(cells, lo, items, false)
    ensures |TreesOf(cells, items, lo)| == |items|
    decreases |items|
  {
    if items != [] {
      TreesLength(cells, items[..|items| - 1], lo);
    }
  }

  lemma {:induction false} BranchesOfAt(cells: seq<Cell>, conds: seq<Cond>, items: seq<Item>, lo: int, i: nat)
    requires ClosedFrom(cells, lo) && lo < |cells| && PointsWell(cells, lo, items, true) && |conds| == |items|
    requires i < |items|
    ensures var id := items[i].id;
            && CellOk(cells, id) && !cells[id].kind.LogicKind? && |BranchesOf(cells, conds, items, lo)| == |items|
            && BranchesOf(cells, conds, items, lo)[i] == Branch(conds[i], TreesOf(cells, cells[id].items, id))
    decreases |items|
  {
    var n := |items| - 1;
    assert CellOk(cells, items[i].id);
    BranchesLength(cells, conds[..n], items[..n], lo);
    if i < n {
      BranchesOfAt(cells, conds[..n], items[..n], lo, i);
    }
  }

  lemma {:induction false} BranchesLength(cells: seq<Cell>, conds: seq<Cond>, items: seq<Item>, lo: int)
    requires ClosedFrom(cells, lo) && lo < |cells| && PointsWell(cells, lo, items, true) && |conds| == |items|
    ensures |BranchesOf(cells, conds, items, lo)| == |items|
    decreases |items|
  {
    if items != [] {
      BranchesLength(cells, conds[..|items| - 1], items[..|items| - 1], lo);
    }
  }

  /** The cells are a picture of the parts, whose pointers lead to later parts. */
  ghost predicate Drawn(nodes: seq<MultiPart>, cells: seq<Cell>)
    reads nodes
  {
    && |cells| == |nodes| && ClosedFrom(cells, -1)
    && forall i | 0 <= i < |nodes| :: nodes[i].IsAt(i, nodes, cells[i])
  }

  /** The trees of the parts in a container. */
  ghost function TreesIn(cells: seq<Cell>, id: nat): seq<Part>
    requires ClosedFrom(cells, -1) && id < |cells| && !cells[id].kind.LogicKind?
  {
    assert CellOk(cells, id);
    TreesOf(cells, cells[id].items, id)
  }

  ghost function BranchesIn(cells: seq<Cell>, id: nat): seq<Branch>
    requires ClosedFrom(cells, -1) && id < |cells| && cells[id].kind.LogicKind?
  {
    assert CellOk(cells, id);
    BranchesOf(cells, cells[id].conds, cells[id].items, id)
  }

  /** What a loop or logic part means. */
  ghost function TreeAt(cells: seq<Cell>, id: nat): Part
    requires ClosedFrom(cells, -1) && id < |cells| && !cells[id].kind.Plain?
  {
    match cells[id].kind
    case LoopKind(name, query) => Loop(name, query, TreesIn(cells, id))
    case LogicKind => Logic(BranchesIn(cells, id))
  }

  /** The `i`th part in a container: a simple one, or a loop or logic part. */
  lemma PartAt(cells: seq<Cell>, id: nat, i: nat)
    requires ClosedFrom(cells, -1) && id < |cells| && !cells[id].kind.LogicKind? && i < |cells[id].items|
    ensures |TreesIn(cells, id)| == |cells[id].items|
    ensures match cells[id].items[i]
            case Flat(part) => TreesIn(cells, id)[i] == part
            case Ref(child) =>
              id < child < |cells| && !cells[child].kind.Plain? && TreesIn(cells, id)[i] == TreeAt(cells, child)
  {
    assert CellOk(cells, id);
    TreesOfAt(cells, cells[id].items, id, i);
  }

  /** The `i`th branch of a logic part. */
  lemma BranchAt(cells: seq<Cell>, id: nat, i: nat)
    requires ClosedFrom(cells, -1) && id < |cells| && cells[id].kind.LogicKind? && i < |cells[id].items|
    ensures |BranchesIn(cells, id)| == |cells[id].items| == |cells[id].conds|
    ensures cells[id].items[i].Ref? && id < cells[id].items[i].id < |cells|
    ensures cells[cells[id].items[i].id].kind.Plain?
    ensures BranchesIn(cells, id)[i] == Branch(cells[id].conds[i], TreesIn(cells, cells[id].items[i].id))
  {
    assert CellOk(cells, id);
    BranchesOfAt(cells, cells[id].conds, cells[id].items, id, i);
  }

  lemma PartsLength(cells: seq<Cell>, id: nat)
    requires ClosedFrom(cells, -1) && id < |cells|
    ensures !cells[id].kind.LogicKind? ==> |TreesIn(cells, id)| == |cells[id].items|
    ensures cells[id].kind.LogicKind? ==> |BranchesIn(cells, id)| == |cells[id].items| == |cells[id].conds|
  {
    assert CellOk(cells, id);
    if cells[id].kind.LogicKind? {
      BranchesLength(cells, cells[id].conds, cells[id].items, id);
    } else {
      TreesLength(cells, cells[id].items, id);
    }
  }

  /** A container of the picture, with the trees of its parts. */
  ghost predicate Shows(nodes: seq<MultiPart>, cells: seq<Cell>, node: MultiPart, trees: seq<Part>)
    reads nodes
  {
    && Drawn(nodes, cells) && Among(nodes, node)
    && !cells[node.id].kind.LogicKind? && TreesIn(cells, node.id) == trees
  }

  /** A loop or logic part of the picture, with its tree. */
  ghost predicate ShowsBlock(nodes: seq<MultiPart>, cells: seq<Cell>, node: MultiPart, tree: Part)
    reads nodes
  {
    && Drawn(nodes, cells) && Among(nodes, node)
    && !cells[node.id].kind.Plain? && TreeAt(cells, node.id) == tree
  }

  lemma ShownLength(nodes: seq<MultiPart>, cells: seq<Cell>, node: MultiPart, trees: seq<Part>)
    requires Shows(nodes, cells, node, trees)
    ensures |trees| == |node.parts|
  {
    assert nodes[node.id].IsAt(node.id, nodes, cells[node.id]);
    PartsLength(cells, node.id);
  }

  lemma ShownPart(nodes: seq<MultiPart>, cells: seq<Cell>, node: MultiPart, trees: seq<Part>, i: nat)
    requires Shows(nodes, cells, node, trees) && i < |node.parts| == |trees|
    ensures match node.parts[i]
            case Simple(part) => trees[i] == part
            case Sub(child) => node.id < child.id < |nodes| && ShowsBlock(nodes, cells, child, trees[i])
  {
    assert nodes[node.id].IsAt(node.id, nodes, cells[node.id]);
    assert cells[node.id].items[i] == ItemOf(node.parts[i]);
    PartAt(cells, node.id, i);
  }

  lemma ShownLoop(nodes: seq<MultiPart>, cells: seq<Cell>, node: MultiPart, tree: Part)
    requires ShowsBlock(nodes, cells, node, tree) && node.kind.LoopKind?
    ensures tree.Loop? && node.kind == LoopKind(tree.name, tree.query) && Shows(nodes, cells, node, tree.body)
  {
    assert nodes[node.id].IsAt(node.id, nodes, cells[node.id]);
  }

  lemma ShownLogic(nodes: seq<MultiPart>, cells: seq<Cell>, node: MultiPart, tree: Part)
    requires ShowsBlock(nodes, cells, node, tree) && node.kind.LogicKind?
    ensures tree.Logic? && |tree.branches| == |node.parts| == |node.queries|
  {
    assert nodes[node.id].IsAt(node.id, nodes, cells[node.id]);
    PartsLength(cells, node.id);
  }

  lemma ShownBranch(nodes: seq<MultiPart>, cells: seq<Cell>, node: MultiPart, bs: seq<Branch>, i: nat)
    requires ShowsBlock(nodes, cells, node, Logic(bs)) && i < |node.parts| == |node.queries| == |bs|
    ensures bs[i].cond == node.queries[i] && node.parts[i].Sub?
    ensures node.id < node.parts[i].node.id < |nodes| && Shows(nodes, cells, node.parts[i].node, bs[i].body)
  {
    assert nodes[node.id].IsAt(node.id, nodes, cells[node.id]);
    assert cells[node.id].items[i] == ItemOf(node.parts[i]);
    BranchAt(cells, node.id, i);
  }

  // ---------------------------------------------------------------- rendering

  /** `render` of a text and of an echo. */
  method RenderSimple(p: FlatPart, data: Data, out: OutStream)
    requires NoIncludes(p)
    modifies out
    ensures Rendering(out.text, ValueOf(data)) == Following(old(out.text), RenderPart(p, old(ValueOf(data))))
  {
    match p {
      case Text(content) =>
        out.Write(content);
      case Echo(query) =>
        var v := FindValue(ValueOf(data), query);
        out.Write(EchoText(v));
    }
  }

  /** `MultiPart::render` */
  method RenderMulti(node: MultiPart, data: Data, out: OutStream,
                     ghost nodes: seq<MultiPart>, ghost cells: seq<Cell>, ghost trees: seq<Part>)
    requires Shows(nodes, cells, node, trees) && NoIncludesIn(trees) && IsData(data)
    modifies out, Touched(data)
    ensures Rendering(out.text, ValueOf(data)) == Following(old(out.text), RenderParts(trees, old(ValueOf(data))))
    decreases |nodes| - node.id, 1
  {
    ShownLength(nodes, cells, node, trees);
    ghost var rest, goal := trees, Following(out.text, RenderParts(trees, ValueOf(data)));
    var i := 0;
    while i < |node.parts|
      invariant 0 <= i <= |trees| && rest == trees[i..] && NoIncludesIn(rest)
      invariant Following(out.text, RenderParts(rest, ValueOf(data))) == goal
    {
      NextPart(out.text, rest, ValueOf(data));
      ShownPart(nodes, cells, node, trees, i);
      RenderRef(node.parts[i], data, out, nodes, cells, rest[0], node.id);
      i, rest := i + 1, rest[1..];
    }
    assert out.text + "" == out.text;
  }

  /** `part->render`, of a part in the container with number `lo`. */
  method RenderRef(part: PartRef, data: Data, out: OutStream,
                   ghost nodes: seq<MultiPart>, ghost cells: seq<Cell>, ghost tree: Part, ghost lo: nat)
    requires match part
             case Simple(p) => p == tree
             case Sub(node) => lo < node.id < |nodes| && ShowsBlock(nodes, cells, node, tree)
    requires NoIncludes(tree) && IsData(data)
    modifies out, Touched(data)
    ensures Rendering(out.text, ValueOf(data)) == Following(old(out.text), RenderPart(tree, old(ValueOf(data))))
    decreases |nodes| - lo, 0
  {
    match part {
      case Simple(p) => RenderSimple(p, data, out);
      case Sub(node) => RenderBlock(node, data, out, nodes, cells, tree);
    }
  }

  /** One part, and then the rest. */
  lemma NextPart(text: string, ps: seq<Part>, data: JSON)
    requires ps != [] && NoIncludesIn(ps)
    ensures NoIncludes(ps[0]) && NoIncludesIn(ps[1..])
    ensures var r := RenderPart(ps[0], data);
            Following(text, RenderParts(ps, data)) == Following(text + r.text, RenderParts(ps[1..], r.data))
  {
    var r := RenderPart(ps[0], data);
    FollowingTwice(text, r.text, RenderParts(ps[1..], r.data));
  }

  /** A loop or logic part. */
  method RenderBlock(node: MultiPart, data: Data, out: OutStream,
                     ghost nodes: seq<MultiPart>, ghost cells: seq<Cell>, ghost tree: Part)
    requires ShowsBlock(nodes, cells, node, tree) && NoIncludes(tree) && IsData(data)
    modifies out, Touched(data)
    ensures Rendering(out.text, ValueOf(data)) == Following(old(out.text), RenderPart(tree, old(ValueOf(data))))
    decreases |nodes| - node.id, 4
  {
    match node.kind {
      case LoopKind(name, query) =>
        ShownLoop(nodes, cells, node, tree);
        RenderLoopNode(node, name, query, data, out, nodes, cells, tree.body);
      case LogicKind =>
        ShownLogic(nodes, cells, node, tree);
        RenderLogic(node, data, out, nodes, cells, tree.branches);
    }
  }

  /** `LogicPart::render` */
  method RenderLogic(node: MultiPart, data: Data, out: OutStream,
                     ghost nodes: seq<MultiPart>, ghost cells: seq<Cell>, ghost bs: seq<Branch>)
    requires ShowsBlock(nodes, cells, node, Logic(bs)) && |node.parts| == |node.queries| == |bs|
    requires NoIncludesInBranches(bs) && IsData(data)
    modifies out, Touched(data)
    ensures Rendering(out.text, ValueOf(data)) == Following(old(out.text), RenderBranches(bs, old(ValueOf(data))))
    decreases |nodes| - node.id, 3
  {
    ShownConds(nodes, cells, node, bs);
    BranchTaken(bs, node.queries, ValueOf(data));
    var i := FindTrue(node.queries, data);
    if i < |node.queries| {
      RenderBranch(node, i, data, out, nodes, cells, bs);
    }
    assert out.text + "" == out.text;
  }

  /** The number of the first condition that applies. */
  function TrueIndex(queries: seq<Cond>, data: JSON): (i: nat)
    ensures i <= |queries|
  {
    if queries == [] || Applies(queries[0], data) then 0 else 1 + TrueIndex(queries[1..], data)
  }

  /** The loop over the conditions up to the first that applies. */
  method FindTrue(queries: seq<Cond>, data: Data) returns (i: nat)
    ensures i == TrueIndex(queries, ValueOf(data))
  {
    i := 0;
    while i < |queries|
      invariant i <= |queries| && i + TrueIndex(queries[i..], ValueOf(data)) == TrueIndex(queries, ValueOf(data))
    {
      assert queries[i..][0] == queries[i] && queries[i..][1..] == queries[i + 1..];
      var yes := Apply(queries[i], data);
      if yes {
        return;
      }
      i := i + 1;
    }
  }

  lemma {:induction false} BranchTaken(bs: seq<Branch>, queries: seq<Cond>, data: JSON)
    requires NoIncludesInBranches(bs) && |bs| == |queries| && forall i | 0 <= i < |bs| :: bs[i].cond == queries[i]
    ensures var i := TrueIndex(queries, data);
            if i == |bs| then RenderBranches(bs, data) == Rendering("", data)
            else NoIncludesIn(bs[i].body) && RenderBranches(bs, data) == RenderParts(bs[i].body, data)
  {
    if bs != [] {
      BranchTaken(bs[1..], queries[1..], data);
    }
  }

  lemma ShownConds(nodes: seq<MultiPart>, cells: seq<Cell>, node: MultiPart, bs: seq<Branch>)
    requires ShowsBlock(nodes, cells, node, Logic(bs)) && |node.parts| == |node.queries| == |bs|
    ensures forall i | 0 <= i < |bs| :: bs[i].cond == node.queries[i]
  {
    forall i | 0 <= i < |bs| ensures bs[i].cond == node.queries[i] {
      ShownBranch(nodes, cells, node, bs, i);
    }
  }

  /** The part of a branch. */
  method RenderBranch(node: MultiPart, i: nat, data: Data, out: OutStream,
                      ghost nodes: seq<MultiPart>, ghost cells: seq<Cell>, ghost bs: seq<Branch>)
    requires ShowsBlock(nodes, cells, node, Logic(bs)) && i < |node.parts| == |node.queries| == |bs|
    requires NoIncludesIn(bs[i].body) && IsData(data)
    modifies out, Touched(data)
    ensures Rendering(out.text, ValueOf(data)) == Following(old(out.text), RenderParts(bs[i].body, old(ValueOf(data))))
    decreases |nodes| - node.id, 2
  {
    ShownBranch(nodes, cells, node, bs, i);
    RenderMulti(node.parts[i].node, data, out, nodes, cells, bs[i].body);
  }

  /** `LoopPart::render` */
  method RenderLoopNode(node: MultiPart, name: string, query: string, data: Data, out: OutStream,
                        ghost nodes: seq<MultiPart>, ghost cells: seq<Cell>, ghost body: seq<Part>)
    requires Shows(nodes, cells, node, body) && NoIncludesIn(body) && IsData(data)
    modifies out, Touched(data)
    ensures Rendering(out.text, ValueOf(data))
         == Following(old(out.text), RenderPart(Loop(name, query, body), old(ValueOf(data))))
    decreases |nodes| - node.id, 3
  {
    assert out.text + "" == out.text;
    if data.Other? {
      return;
    }
    var v := FindValue(ValueOf(data), query);
    if !v.Array? {
      return;
    }
    RenderItems(node, name, v.items, data.obj, out, nodes, cells, body);
    data.obj.Remove(name);
  }

  /** The loop over the items. */
  method RenderItems(node: MultiPart, name: string, items: seq<JSON>, obj: DataObject, out: OutStream,
                     ghost nodes: seq<MultiPart>, ghost cells: seq<Cell>, ghost body: seq<Part>)
    requires Shows(nodes, cells, node, body) && NoIncludesIn(body)
    modifies out, obj
    ensures Rendering(out.text, Object(obj.fields))
         == Following(old(out.text), RenderLoop(name, items, body, old(Object(obj.fields))))
    decreases |nodes| - node.id, 2, |items|
  {
    ghost var rest, goal := items, Following(out.text, RenderLoop(name, items, body, Object(obj.fields)));
    var i := 0;
    while i < |items|
      invariant 0 <= i <= |items| && rest == items[i..]
      invariant Following(out.text, RenderLoop(name, rest, body, Object(obj.fields))) == goal
    {
      NextItem(out.text, name, rest, body, Object(obj.fields));
      obj.Set(name, items[i]);
      RenderMulti(node, Shared(obj), out, nodes, cells, body);
      i, rest := i + 1, rest[1..];
    }
    assert out.text + "" == out.text;
  }

  /** One round of a loop, and then the rest. */
  lemma NextItem(text: string, name: string, items: seq<JSON>, body: seq<Part>, data: JSON)
    requires items != [] && NoIncludesIn(body)
    ensures var r := RenderParts(body, Bind(data, name, items[0]));
            && Following(text, RenderLoop(name, items, body, data))
            == Following(text + r.text, RenderLoop(name, items[1..], body, r.data))
  {
    var r := RenderParts(body, Bind(data, name, items[0]));
    FollowingTwice(text, r.text, RenderLoop(name, items[1..], body, r.data));
  }

  // ---------------------------------------------------------------- from text to output

  /** The parser accepts the text; its parts, with blocks that were left open, form this tree. */
  ghost predicate Parses(text: string, ps: seq<Part>) {
    ParseText(text).Some? && HasTree(ParseText(text).value, ps)
  }

  lemma ParsesOnce(text: string, ps: seq<Part>, qs: seq<Part>)
    requires Parses(text, ps) && Parses(text, qs)
    ensures ps == qs
  {
  }

  /** A text has a tree, and only one, exactly if the parser accepts it. */
  lemma ParsesIff(text: string)
    ensures ParseText(text).Some? <==> exists ps :: Parses(text, ps)
    ensures forall ps, qs | Parses(text, ps) && Parses(text, qs) :: ps == qs
  {
    forall ps, qs | Parses(text, ps) && Parses(text, qs) ensures ps == qs {
      ParsesOnce(text, ps, qs);
    }
    if ParseText(text).Some? {
      var ps := ParsedIsPrintable(text, ParseText(text).value);
      assert Parses(text, ps);
    }
  }

  /** `render(data, ostr)` of a parsed template. */
  method RenderTemplate(tpl: Template, data: Data, out: OutStream, ghost ps: seq<Part>)
    requires tpl.Valid() && HasTree(tpl.store, ps) && NoIncludesIn(ps) && IsData(data)
    modifies out, Touched(data)
    ensures Rendering(out.text, ValueOf(data)) == Following(old(out.text), RenderParts(ps, old(ValueOf(data))))
  {
    assert TreesIn(tpl.store.cells, 0) == Tree(tpl.store);
    assert tpl.nodes[0].IsAt(0, tpl.nodes, tpl.store.cells[0]);
    RenderMulti(tpl.parts, data, out, tpl.nodes, tpl.store.cells, ps);
  }

  /** Parsing a text into parts on the heap and rendering those prints what its tree does, and nothing
      if the parser throws. */
  method ParseAndRender(text: string, data: Data, out: OutStream) returns (ok: bool)
    requires IsData(data) && forall ps | Parses(text, ps) :: NoIncludesIn(ps)
    modifies out, Touched(data)
    ensures ok <==> exists ps :: Parses(text, ps)
    ensures !ok ==> Rendering(out.text, ValueOf(data)) == old(Rendering(out.text, ValueOf(data)))
    ensures forall ps | Parses(text, ps) ::
              Rendering(out.text, ValueOf(data)) == Following(old(out.text), RenderParts(ps, old(ValueOf(data))))
  {
    ParsesIff(text);
    var tpl := new Template();
    var istr := new InStream(text);
    ok := tpl.Parse(istr);
    if ok {
      ghost var ps :| Parses(text, ps);
      RenderTemplate(tpl, data, out, ps);
    }
  }

  /** Whatever template is written as a text: parsing and rendering the text prints what the template
      means, if loop variables are no keys of the data and differ where loops nest, and the data are
      what they were. */
  method PrintAndRender(ghost ps: seq<Part>, text: string, data: Data, out: OutStream,
                        ghost bound: set<string>) returns (ok: bool)
    requires IsTemplate(ps) && NoIncludesIn(ps) && text == PrintParts(ps) && IsData(data)
    requires WellFormed(ValueOf(data)) && KeysIn(ValueOf(data), bound) && AllApart(ps, bound)
    modifies out, Touched(data)
    ensures ok && out.text == old(out.text) + DenoteAll(ps, old(ValueOf(data)))
    ensures ValueOf(data) == old(ValueOf(data))
  {
    ParseUndoesPrint(ps);
    assert Parses(text, ps);
    RenderRefines(ps, ValueOf(data), bound);
    ok := ParseAndRender(text, data, out);
  }
}
