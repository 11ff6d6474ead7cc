/** The default handler: parse events build a tree of shared, mutable objects and arrays.

    `Handler` is the class, with its stack of open containers, its pending key and the nodes it has
    allocated. What its methods do is stated on `Store`, a picture of those nodes in which a shared
    pointer is the number of the node it points to. A child is always allocated after its parent,
    so following pointers terminates and `TreeOf` reads the finished tree off a store. */
module JsonHandler {
  import opened TextStream
  import opened JsonValue

  datatype Event =
    | StartObject
    | EndObject
    | StartArray
    | EndArray
    | Key(k: string)
    | Value(scalar: Scalar)

  // ---------------------------------------------------------------- the store

  datatype Slot = Held(scalar: Scalar) | Ref(id: nat)

  datatype Cell = ArrayCell(items: seq<Slot>) | ObjectCell(fields: seq<Field<Slot>>)

  datatype Store = Store(cells: seq<Cell>, stack: seq<nat>, key: string, root: Option<nat>)

  const EMPTY_STORE := Store([], [], "", None)

  function Top(stack: seq<nat>): nat
    requires stack != []
  {
    stack[|stack| - 1]
  }

  /** `arr->add(value)` or `obj->set(_key, value)` */
  function AddSlot(cell: Cell, key: string, slot: Slot): Cell {
    match cell
    case ArrayCell(items) => ArrayCell(items + [slot])
    case ObjectCell(fields) => ObjectCell(Insert(fields, key, slot))
  }

  ghost predicate InRange(st: Store) {
    && (forall i | 0 <= i < |st.stack| :: st.stack[i] < |st.cells|)
    && (st.root.Some? ==> st.root.value < |st.cells|)
  }

  predicate HasOpen(st: Store) {
    st.stack != [] && Top(st.stack) < |st.cells|
  }

  /** `setValue`: the container on top of the stack takes the value; an object uses up the key. */
  function Attach(st: Store, slot: Slot): Store {
    if !HasOpen(st) then st
    else
      var top := Top(st.stack);
      st.(cells := st.cells[top := AddSlot(st.cells[top], st.key, slot)],
          key := if st.cells[top].ObjectCell? then "" else st.key)
  }

  /** `startObject` and `startArray`: a new container, attached to the open one if there is one. */
  function Open(st: Store, empty: Cell): Store {
    var id := |st.cells|;
    var attached := if st.stack == [] then st.(root := Some(id)) else Attach(st, Ref(id));
    attached.(cells := attached.cells + [empty], stack := st.stack + [id])
  }

  /** `Open` in the order of allocating the container, attaching it and pushing it. */
  lemma OpenByParts(st: Store, empty: Cell)
    requires InRange(st)
    ensures var id, grown := |st.cells|, st.(cells := st.cells + [empty]);
            var attached := if st.stack == [] then grown.(root := Some(id)) else Attach(grown, Ref(id));
            Open(st, empty) == attached.(stack := attached.stack + [id])
  {
    if st.stack != [] {
      var top := Top(st.stack);
      var cell := AddSlot(st.cells[top], st.key, Ref(|st.cells|));
      assert (st.cells + [empty])[top := cell] == st.cells[top := cell] + [empty];
    }
  }

  /** The end of a container and a plain value must find an open container: `top` and `pop` of an
      empty `std::stack` are undefined, and `Step` leaves the store as it is. */
  predicate Fits(st: Store, e: Event) {
    e.EndObject? || e.EndArray? || e.Value? ==> st.stack != []
  }

  function Step(st: Store, e: Event): Store {
    match e
    case StartObject => Open(st, ObjectCell([]))
    case StartArray => Open(st, ArrayCell([]))
    case EndObject | EndArray => if st.stack == [] then st else st.(stack := st.stack[..|st.stack| - 1])
    case Key(k) => st.(key := k)
    case Value(s) => Attach(st, Held(s))
  }

  lemma StepKeepsRange(st: Store, e: Event)
    requires InRange(st)
    ensures InRange(Step(st, e))
  {
  }

  // ---------------------------------------------------------------- runs of events

  /** Every event of a run finds the open container that it needs. */
  ghost predicate CanRun(st: Store, evs: seq<Event>)
    decreases |evs|
  {
    evs == [] || (Fits(st, evs[0]) && CanRun(Step(st, evs[0]), evs[1..]))
  }

  ghost function Run(st: Store, evs: seq<Event>): Store
    decreases |evs|
  {
    if evs == [] then st else Run(Step(st, evs[0]), evs[1..])
  }

  /** A value uses up the pending key in an object, not in an array. */
  lemma KeyIsUsedUp(st: Store, k: string, s: Scalar)
    requires st.stack != [] && Top(st.stack) < |st.cells|
    ensures Run(st, [Key(k), Value(s)]).key == if st.cells[Top(st.stack)].ObjectCell? then "" else k
  {
    var evs := [Key(k), Value(s)];
    assert evs[1..] == [Value(s)] && evs[1..][1..] == [];
    assert Run(st, evs) == Run(Step(Step(st, Key(k)), Value(s)), []);
  }

  lemma {:induction false} RunConcat(st: Store, a: seq<Event>, b: seq<Event>)
    ensures Run(st, a + b) == Run(Run(st, a), b)
    ensures CanRun(st, a + b) <==> CanRun(st, a) && CanRun(Run(st, a), b)
    decreases |a|
  {
    if a == [] {
      assert [] + b == b;
    } else {
      RunConcat(Step(st, a[0]), a[1..], b);
      assert (a + b)[0] == a[0] && (a + b)[1..] == a[1..] + b;
    }
  }

  lemma RunOne(st: Store, e: Event)
    ensures Run(st, [e]) == Step(st, e)
    ensures CanRun(st, [e]) <==> Fits(st, e)
  {
    assert [e][1..] == [];
  }

  lemma RunWrapped(st: Store, open: Event, evs: seq<Event>, close: Event)
    ensures var st2 := Run(Step(st, open), evs);
            && Run(st, [open] + evs + [close]) == Step(st2, close)
            && (CanRun(st, [open] + evs + [close]) <==>
                  Fits(st, open) && CanRun(Step(st, open), evs) && Fits(st2, close))
  {
    RunOne(st, open);
    RunConcat(st, [open], evs);
    RunOne(Run(st, [open] + evs), close);
    RunConcat(st, [open] + evs, [close]);
  }

  // ---------------------------------------------------------------- reading a tree off a store

  ghost predicate SlotsAbove(slots: seq<Slot>, lo: int, hi: nat) {
    forall i | 0 <= i < |slots| && slots[i].Ref? :: lo < slots[i].id < hi
  }

  ghost predicate FieldsAbove(fields: seq<Field<Slot>>, lo: int, hi: nat) {
    forall i | 0 <= i < |fields| && fields[i].value.Ref? :: lo < fields[i].value.id < hi
  }

  ghost predicate CellAbove(cell: Cell, lo: int, hi: nat) {
    match cell
    case ArrayCell(items) => SlotsAbove(items, lo, hi)
    case ObjectCell(fields) => FieldsAbove(fields, lo, hi)
  }

  /** Every pointer leads from a node to a later one. */
  ghost predicate Closed(cells: seq<Cell>) {
    forall i | 0 <= i < |cells| :: CellAbove(cells[i], i, |cells|)
  }

  ghost function TreeOf(cells: seq<Cell>, slot: Slot): JSON
    requires Closed(cells)
    requires slot.Ref? ==> slot.id < |cells|
    decreases if slot.Ref? then |cells| - slot.id else 0, 1, 0
  {
    match slot
    case Held(s) => Leaf(s)
    case Ref(id) =>
      assert CellAbove(cells[id], id, |cells|);
      match cells[id]
      case ArrayCell(items) => Array(TreesOf(cells, items, id))
      case ObjectCell(fields) => Object(FieldTreesOf(cells, fields, id))
  }

  ghost function TreesOf(cells: seq<Cell>, items: seq<Slot>, lo: nat): seq<JSON>
    requires Closed(cells) && lo < |cells| && SlotsAbove(items, lo, |cells|)
    decreases |cells| - lo, 0, |items|
  {
    if items == [] then []
    else TreesOf(cells, items[..|items| - 1], lo) + [TreeOf(cells, items[|items| - 1])]
  }

  ghost function FieldTreesOf(cells: seq<Cell>, fields: seq<Field<Slot>>, lo: nat): seq<Field<JSON>>
    requires Closed(cells) && lo < |cells| && FieldsAbove(fields, lo, |cells|)
    decreases |cells| - lo, 0, |fields|
  {
    if fields == [] then []
    else [Field(fields[0].key, TreeOf(cells, fields[0].value))] + FieldTreesOf(cells, fields[1..], lo)
  }

  /** Two stores that agree from `lo` on, as far as the first one goes. */
  ghost predicate AgreeFrom(c1: seq<Cell>, c2: seq<Cell>, lo: int) {
    |c1| <= |c2| && forall j | 0 <= j < |c1| && lo <= j :: c1[j] == c2[j]
  }

  lemma {:induction false} TreeFrame(c1: seq<Cell>, c2: seq<Cell>, slot: Slot)
    requires Closed(c1) && Closed(c2)
    requires slot.Ref? ==> slot.id < |c1| && AgreeFrom(c1, c2, slot.id)
    ensures slot.Ref? ==> slot.id < |c2|
    ensures TreeOf(c1, slot) == TreeOf(c2, slot)
    decreases if slot.Ref? then |c1| - slot.id else 0, 1, 0
  {
    if slot.Ref? {
      assert CellAbove(c1[slot.id], slot.id, |c1|);
      match c1[slot.id] {
        case ArrayCell(items) => TreesFrame(c1, c2, items, slot.id);
        case ObjectCell(fields) => FieldTreesFrame(c1, c2, fields, slot.id);
      }
    }
  }

  lemma {:induction false} TreesFrame(c1: seq<Cell>, c2: seq<Cell>, items: seq<Slot>, lo: nat)
    requires Closed(c1) && Closed(c2) && lo < |c1| && AgreeFrom(c1, c2, lo + 1)
    requires SlotsAbove(items, lo, |c1|)
    ensures TreesOf(c1, items, lo) == TreesOf(c2, items, lo)
    decreases |c1| - lo, 0, |items|
  {
    if items != [] {
      TreesFrame(c1, c2, items[..|items| - 1], lo);
      TreeFrame(c1, c2, items[|items| - 1]);
    }
  }

  lemma {:induction false} FieldTreesFrame(c1: seq<Cell>, c2: seq<Cell>, fields: seq<Field<Slot>>, lo: nat)
    requires Closed(c1) && Closed(c2) && lo < |c1| && AgreeFrom(c1, c2, lo + 1)
    requires FieldsAbove(fields, lo, |c1|)
    ensures FieldTreesOf(c1, fields, lo) == FieldTreesOf(c2, fields, lo)
    decreases |c1| - lo, 0, |fields|
  {
    if fields != [] {
      TreeFrame(c1, c2, fields[0].value);
      FieldTreesFrame(c1, c2, fields[1..], lo);
    }
  }

  lemma {:induction false} InsertStaysAbove(fields: seq<Field<Slot>>, key: string, slot: Slot, lo: int, hi: nat)
    requires FieldsAbove(fields, lo, hi) && (slot.Ref? ==> lo < slot.id < hi)
    ensures FieldsAbove(Insert(fields, key, slot), lo, hi)
  {
    if fields != [] && key != fields[0].key && !Less(key, fields[0].key) {
      assert fields == [fields[0]] + fields[1..];
      InsertStaysAbove(fields[1..], key, slot, lo, hi);
    }
  }

  /** Setting a field in a node sets it in the tree. */
  lemma {:induction false} FieldTreesOfInsert(cells: seq<Cell>, fields: seq<Field<Slot>>, key: string, slot: Slot,
                                              lo: nat)
    requires Closed(cells) && lo < |cells| && FieldsAbove(fields, lo, |cells|)
    requires slot.Ref? ==> lo < slot.id < |cells|
    ensures FieldsAbove(Insert(fields, key, slot), lo, |cells|)
    ensures FieldTreesOf(cells, Insert(fields, key, slot), lo)
         == Insert(FieldTreesOf(cells, fields, lo), key, TreeOf(cells, slot))
  {
    InsertStaysAbove(fields, key, slot, lo, |cells|);
    var r := Insert(fields, key, slot);
    if fields == [] {
      assert r[1..] == [];
    } else if key == fields[0].key {
      assert r[1..] == fields[1..];
    } else if Less(key, fields[0].key) {
      assert r[1..] == fields;
    } else {
      FieldTreesOfInsert(cells, fields[1..], key, slot, lo);
      assert r[1..] == Insert(fields[1..], key, slot);
    }
  }

  // ---------------------------------------------------------------- the class

  /** A `Dynamic::Var`: a plain value, or a shared pointer to an object or an array. */
  datatype Var = Plain(scalar: Scalar) | Ptr(node: Node)

  /** A `JSON::Object` or a `JSON::Array`; `id` counts allocations. */
  class Node {
    const isObject: bool
    ghost const id: nat
    var values: seq<Var>         // of an array
    var fields: seq<Field<Var>>  // of an object

    constructor (isObject: bool, ghost id: nat)
      ensures this.isObject == isObject && this.id == id
      ensures values == [] && fields == []
    {
      this.isObject, this.id := isObject, id;
      values, fields := [], [];
    }

    /** `Object::set` */
    method Set(key: string, value: Var)
      modifies this
      ensures fields == Insert(old(fields), key, value) && values == old(values)
      ensures isObject ==> Picture() == AddSlot(old(Picture()), key, SlotOf(value))
    {
      FieldSlotsOfInsert(fields, key, value);
      fields := Insert(fields, key, value);
    }

    /** `Array::add` */
    method Add(value: Var)
      modifies this
      ensures values == old(values) + [value] && fields == old(fields)
      ensures !isObject ==> Picture() == AddSlot(old(Picture()), "", SlotOf(value))
    {
      assert Slots(values + [value]) == Slots(values) + [SlotOf(value)];
      values := values + [value];
    }

    ghost function Picture(): Cell
      reads this
    {
      if isObject then ObjectCell(FieldSlots(fields)) else ArrayCell(Slots(values))
    }

    /** The node is at its place in the list, its pointers lead into the list, and the cell is its
        picture. */
    ghost predicate IsAt(i: nat, nodes: seq<Node>, cell: Cell)
      reads this
    {
      id == i && Picture() == cell && Inside(values, nodes) && FieldsInside(fields, nodes)
    }
  }

  /** The pointer, if it is one, leads to the node in the list that has its number. */
  ghost predicate Leads(v: Var, nodes: seq<Node>) {
    v.Ptr? ==> v.node.id < |nodes| && nodes[v.node.id] == v.node
  }

  ghost predicate Inside(values: seq<Var>, nodes: seq<Node>) {
    forall i | 0 <= i < |values| :: Leads(values[i], nodes)
  }

  ghost predicate FieldsInside(fields: seq<Field<Var>>, nodes: seq<Node>) {
    forall i | 0 <= i < |fields| :: Leads(fields[i].value, nodes)
  }

  lemma {:induction false} InsertInside(fields: seq<Field<Var>>, key: string, value: Var, nodes: seq<Node>)
    requires FieldsInside(fields, nodes) && Leads(value, nodes)
    ensures FieldsInside(Insert(fields, key, value), nodes)
  {
    if fields != [] && key != fields[0].key && !Less(key, fields[0].key) {
      InsertInside(fields[1..], key, value, nodes);
      assert Insert(fields, key, value) == [fields[0]] + Insert(fields[1..], key, value);
    }
  }

  ghost function SlotOf(v: Var): Slot {
    match v
    case Plain(s) => Held(s)
    case Ptr(n) => Ref(n.id)
  }

  ghost function Slots(values: seq<Var>): seq<Slot> {
    seq(|values|, i requires 0 <= i < |values| => SlotOf(values[i]))
  }

  ghost function FieldSlots(fields: seq<Field<Var>>): seq<Field<Slot>> {
    if fields == [] then []
    else [Field(fields[0].key, SlotOf(fields[0].value))] + FieldSlots(fields[1..])
  }

  lemma {:induction false} FieldSlotsOfInsert(fields: seq<Field<Var>>, key: string, value: Var)
    ensures FieldSlots(Insert(fields, key, value)) == Insert(FieldSlots(fields), key, SlotOf(value))
  {
    var r := Insert(fields, key, value);
    if fields == [] {
      assert r[1..] == [];
    } else if key == fields[0].key {
      assert r[1..] == fields[1..];
    } else if Less(key, fields[0].key) {
      assert r[1..] == fields;
    } else {
      FieldSlotsOfInsert(fields[1..], key, value);
      assert r[1..] == Insert(fields[1..], key, value);
    }
  }

  class Handler {
    var stack: seq<Node>
    var key: string
    var result: Node?
    ghost var nodes: seq<Node>  // in the order of their allocation
    ghost var store: Store

    /** The store is a picture of the nodes, the stack, the key and the result. */
    ghost predicate Valid()
      reads this, nodes
    {
      && |store.cells| == |nodes|
      && (forall i | 0 <= i < |nodes| :: nodes[i].IsAt(i, nodes, store.cells[i]))
      && |store.stack| == |stack|
      && (forall i | 0 <= i < |stack| :: stack[i].id == store.stack[i] && stack[i] in nodes)
      && store.key == key
      && (result == null <==> store.root == None)
      && (result != null ==> result in nodes && store.root == Some(result.id))
      && InRange(store)
    }

    constructor ()
      ensures Valid() && store == EMPTY_STORE && nodes == []
    {
      stack, key, result := [], "", null;
      nodes, store := [], EMPTY_STORE;
    }

    /** `setValue` */
    method SetValue(value: Var)
      requires Valid() && store.stack != [] && Leads(value, nodes)
      modifies this`key, this`store, nodes
      ensures Valid() && nodes == old(nodes)
      ensures store == Attach(old(store), SlotOf(value))
    {
      var parent := stack[|stack| - 1];
      var top := parent.id;
      assert nodes[top] == parent;
      if parent.isObject {
        InsertInside(parent.fields, key, value, nodes);
        parent.Set(key, value);
        key := "";
      } else {
        parent.Add(value);
      }
      store := Attach(store, SlotOf(value));
      assert parent.IsAt(top, nodes, store.cells[top]);
    }

    /** `new Object()` and `new Array()` */
    method Allocate(isObject: bool) returns (node: Node)
      requires Valid()
      modifies this`nodes, this`store
      ensures Valid() && fresh(node) && nodes == old(nodes) + [node] && node.id == |old(nodes)|
      ensures store == old(store).(cells := old(store).cells + [if isObject then ObjectCell([]) else ArrayCell([])])
    {
      node := new Node(isObject, |nodes|);
      assert node.Picture() == if isObject then ObjectCell([]) else ArrayCell([]);
      nodes := nodes + [node];
      store := store.(cells := store.cells + [node.Picture()]);
    }

    /** `_result = node` */
    method SetResult(node: Node)
      requires Valid() && node in nodes
      modifies this`result, this`store
      ensures Valid() && store == old(store).(root := Some(node.id))
    {
      result := node;
      store := store.(root := Some(node.id));
    }

    /** `_stack.push(node)` */
    method Push(node: Node)
      requires Valid() && node in nodes
      modifies this`stack, this`store
      ensures Valid() && store == old(store).(stack := old(store).stack + [node.id])
    {
      stack := stack + [node];
      store := store.(stack := store.stack + [node.id]);
    }

    /** `startObject` and `startArray` */
    method StartContainer(isObject: bool)
      requires Valid()
      modifies this, nodes
      ensures Valid() && forall i | 0 <= i < |nodes| :: nodes[i] in old(nodes) || fresh(nodes[i])
      ensures store == Open(old(store), if isObject then ObjectCell([]) else ArrayCell([]))
    {
      OpenByParts(store, if isObject then ObjectCell([]) else ArrayCell([]));
      var node := Allocate(isObject);
      if stack == [] {
        SetResult(node);
      } else {
        SetValue(Ptr(node));
      }
      Push(node);
    }

    /** The callbacks of the handler interface. */
    method Handle(e: Event)
      requires Valid() && Fits(store, e)
      modifies this, nodes
      ensures Valid() && forall i | 0 <= i < |nodes| :: nodes[i] in old(nodes) || fresh(nodes[i])
      ensures store == Step(old(store), e)
    {
      match e {
        case StartObject =>
          StartContainer(true);
        case StartArray =>
          StartContainer(false);
        case EndObject | EndArray =>
          stack := stack[..|stack| - 1];
          store := Step(store, e);
        case Key(k) =>
          key := k;
          store := Step(store, e);
        case Value(s) =>
          SetValue(Plain(s));
      }
    }

    /** Any run of callbacks. */
    method HandleAll(evs: seq<Event>)
      requires Valid() && CanRun(store, evs)
      modifies this, nodes
      ensures Valid() && store == Run(old(store), evs)
    {
      for i := 0 to |evs|
        invariant Valid() && forall i | 0 <= i < |nodes| :: nodes[i] in old(nodes) || fresh(nodes[i])
        invariant CanRun(store, evs[i..]) && Run(store, evs[i..]) == Run(old(store), evs)
      {
        assert evs[i..][0] == evs[i] && evs[i..][1..] == evs[i + 1..];
        Handle(evs[i]);
      }
    }
  }
}
