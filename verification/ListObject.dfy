/** Lists inside script objects. A script object holds index keys, which it is enumerated by first and in
    ascending order, and named keys, in the order of their insertion. A list becomes an object with one
    single-key object for each index, and `eachObject` visits the elements of such an object. */
module ListObject {

  datatype Xml = Xml(name: string, attrs: seq<string>, children: seq<Xml>)

  /** A child in an object: its key, its value, and where it stood in the list or document. */
  datatype Entry = Entry(key: string, pos: nat, value: Value)

  /** An index key; its value is an object with the entry as its one key. */
  datatype Slot = Slot(index: nat, entry: Entry)

  /** `attrs` are the named keys whose values are texts; they were all there before the others. */
  datatype Value = Undefined | Text | Obj(attrs: seq<string>, slots: seq<Slot>, named: seq<Entry>)

  // ---------------------------------------------------------------- visiting

  function SlotEntries(slots: seq<Slot>): (es: seq<Entry>)
    ensures |es| == |slots| && forall i | 0 <= i < |slots| :: es[i] == slots[i].entry
  {
    seq(|slots|, i requires 0 <= i < |slots| => slots[i].entry)
  }

  /** The named keys with objects as their values. */
  function ObjectsOf(named: seq<Entry>): seq<Entry> {
    if named == [] then []
    else
      var last := named[|named| - 1];
      ObjectsOf(named[..|named| - 1]) + (if last.value.Obj? then [last] else [])
  }

  /** `eachObject`: the entries that its function is called for, in order. */
  function EachObject(v: Value): seq<Entry> {
    if v.Obj? then SlotEntries(v.slots) + ObjectsOf(v.named) else []
  }

  method VisitEach(v: Value) returns (visits: seq<Entry>)
    ensures visits == EachObject(v)
  {
    visits := [];
    if !v.Obj? {
      return;
    }
    for i := 0 to |v.slots|
      invariant visits == SlotEntries(v.slots)[..i]
    {
      visits := visits + [v.slots[i].entry];
    }
    ghost var before := visits;
    for i := 0 to |v.named|
      invariant visits == before + ObjectsOf(v.named[..i])
    {
      assert v.named[..i + 1][..i] == v.named[..i];
      if v.named[i].value.Obj? {
        visits := visits + [v.named[i]];
      }
    }
    assert v.named[..|v.named|] == v.named;
  }

  // ---------------------------------------------------------------- index keys

  /** The order in which a script enumerates index keys. */
  ghost predicate AscendingSlots(slots: seq<Slot>) {
    forall i, j | 0 <= i < j < |slots| :: slots[i].index < slots[j].index
  }

  /** `obj[index] = ...`, which may replace what is there. */
  function SetSlot(slots: seq<Slot>, s: Slot): seq<Slot> {
    if slots == [] then [s]
    else
      var init, last := slots[..|slots| - 1], slots[|slots| - 1];
      if last.index < s.index then slots + [s]
      else if last.index == s.index then init + [s]
      else SetSlot(init, s) + [last]
  }

  lemma {:induction false} SetSlotAscends(slots: seq<Slot>, s: Slot)
    requires AscendingSlots(slots)
    ensures AscendingSlots(SetSlot(slots, s))
    ensures forall i | 0 <= i < |SetSlot(slots, s)| :: SetSlot(slots, s)[i] == s || SetSlot(slots, s)[i] in slots
  {
    if slots != [] && s.index < slots[|slots| - 1].index {
      var init, last := slots[..|slots| - 1], slots[|slots| - 1];
      SetSlotAscends(init, s);
      var r := SetSlot(init, s);
      forall i | 0 <= i < |r| ensures r[i].index < last.index && (r[i] == s || r[i] in slots) {
        assert r[i] == s || r[i] in init;
      }
    }
  }

  /** The slots after index 0. */
  function AfterZero(slots: seq<Slot>): seq<Slot> {
    if slots != [] && slots[0].index == 0 then slots[1..] else slots
  }

  /** Index 0 is enumerated first. */
  lemma {:induction false} SetZero(slots: seq<Slot>, e: Entry)
    requires AscendingSlots(slots)
    ensures SetSlot(slots, Slot(0, e)) == [Slot(0, e)] + AfterZero(slots)
  {
    if slots != [] && slots[|slots| - 1].index > 0 {
      var init := slots[..|slots| - 1];
      SetZero(init, e);
      assert slots == init + [slots[|slots| - 1]];
      assert AfterZero(slots) == AfterZero(init) + [slots[|slots| - 1]];
    }
  }

  // ---------------------------------------------------------------- lists

  /** `arrayToObject` of a list of single-key objects. */
  function ArrayToObject(es: seq<Entry>): Value {
    if |es| == 0 then Undefined
    else if |es| == 1 then Obj([], [], es)
    else Obj([], seq(|es|, i requires 0 <= i < |es| => Slot(i, es[i])), [])
  }

  /** Visiting what a list was turned into visits the list, whatever its length; only in a list of one
      must the value be an object. */
  lemma ListIsVisited(es: seq<Entry>)
    ensures EachObject(ArrayToObject(es)) == es <==> (|es| == 1 ==> es[0].value.Obj?)
  {
    if |es| == 1 {
      assert es[..0] == [] && ObjectsOf([]) == [];
      assert ObjectsOf(es) == if es[0].value.Obj? then [es[0]] else [];
      assert SlotEntries([]) == [];
    } else if |es| > 1 {
      assert SlotEntries(ArrayToObject(es).slots) == es;
      assert ObjectsOf([]) == [];
    }
  }

  lemma ListAscends(es: seq<Entry>)
    ensures ArrayToObject(es).Obj? ==> AscendingSlots(ArrayToObject(es).slots)
  {
  }

  // ---------------------------------------------------------------- documents

  predicate HasKey(named: seq<Entry>, key: string) {
    exists i :: 0 <= i < |named| && named[i].key == key
  }

  function Drop(named: seq<Entry>, key: string): seq<Entry> {
    if named == [] then []
    else if named[|named| - 1].key == key then named[..|named| - 1]
    else Drop(named[..|named| - 1], key) + [named[|named| - 1]]
  }

  function Named(named: seq<Entry>, key: string): Entry
    requires HasKey(named, key)
  {
    if named[|named| - 1].key == key then named[|named| - 1]
    else
      assert HasKey(named[..|named| - 1], key) by {
        var i :| 0 <= i < |named| && named[i].key == key;
        assert named[..|named| - 1][i].key == key;
      }
      Named(named[..|named| - 1], key)
  }

  datatype Level = Level(attrs: seq<string>, slots: seq<Slot>, named: seq<Entry>)

  /** `obj.hasOwnProperty(key)`, of a named key */
  predicate HasOwn(l: Level, key: string) {
    key in l.attrs || HasKey(l.named, key)
  }

  /** A child: under its own key if that is free, and else under its index. */
  function AddChild(l: Level, e: Entry): Level {
    if HasOwn(l, e.key) then l.(slots := SetSlot(l.slots, Slot(e.pos, e))) else l.(named := l.named + [e])
  }

  /** The children, in an object that holds the attributes. */
  function AddChildren(attrs: seq<string>, es: seq<Entry>): Level {
    if es == [] then Level(attrs, [], []) else AddChild(AddChildren(attrs, es[..|es| - 1]), es[|es| - 1])
  }

  /** What is under the key, an attribute or a child, moves to index 0. */
  function Move(l: Level, key: string): Level
    requires HasOwn(l, key)
  {
    if key in l.attrs then
      Level(Others(l.attrs, key), SetSlot(l.slots, Slot(0, Entry(key, 0, Text))), l.named)
    else
      Level(l.attrs, SetSlot(l.slots, Slot(0, Named(l.named, key))), Drop(l.named, key))
  }

  function Others(attrs: seq<string>, key: string): seq<string> {
    if attrs == [] then [] else (if attrs[0] == key then [] else [attrs[0]]) + Others(attrs[1..], key)
  }

  /** One child, which may be the last: if that one goes under its index, its key moves. */
  function WithChild(l: Level, e: Entry, last: bool): Level {
    var added := AddChild(l, e);
    if last && HasOwn(l, e.key) && HasOwn(added, e.key) then Move(added, e.key) else added
  }

  function LevelOf(attrs: seq<string>, es: seq<Entry>): Level {
    if es == [] then Level(attrs, [], []) else WithChild(AddChildren(attrs, es[..|es| - 1]), es[|es| - 1], true)
  }

  /** The entries of the children of an element. */
  function Entries(cs: seq<Xml>): (es: seq<Entry>)
    ensures |es| == |cs|
    ensures forall i | 0 <= i < |cs| :: es[i] == Entry(cs[i].name, i, ToObject(cs[i]))
    decreases cs, 0
  {
    seq(|cs|, i requires 0 <= i < |cs| => Entry(cs[i].name, i, ToObject(cs[i])))
  }

  function ObjectOf(l: Level): Value {
    Obj(l.attrs, l.slots, l.named)
  }

  /** The object of an element, which begins as its attributes. */
  function ToObject(x: Xml): (v: Value)
    ensures v.Obj?
    decreases x, 1
  {
    ObjectOf(LevelOf(x.attrs, Entries(x.children)))
  }

  lemma {:induction false} OthersAre(attrs: seq<string>, key: string, a: string)
    ensures a in Others(attrs, key) <==> a in attrs && a != key
  {
    if attrs != [] {
      OthersAre(attrs[1..], key, a);
    }
  }

  lemma {:induction false} ChildrenLeaveAttributes(attrs: seq<string>, es: seq<Entry>)
    ensures AddChildren(attrs, es).attrs == attrs
  {
    if es != [] {
      ChildrenLeaveAttributes(attrs, es[..|es| - 1]);
    }
  }

  lemma LevelAttributes(attrs: seq<string>, es: seq<Entry>, a: string)
    ensures a in LevelOf(attrs, es).attrs <==> a in attrs && (es == [] || a != es[|es| - 1].key)
    ensures attrs == [] ==> LevelOf(attrs, es).attrs == []
  {
    if es != [] {
      var init, e := es[..|es| - 1], es[|es| - 1];
      ChildrenLeaveAttributes(attrs, init);
      OthersAre(attrs, e.key, a);
    }
  }

  /** An element keeps its attributes, but for one with the name of its last child; a document's root has
      none. */
  lemma {:induction false} AttributesStay(x: Xml, a: string)
    ensures ToObject(Root(x)).attrs == []
    ensures a in ToObject(x).attrs
            <==> a in x.attrs && (x.children == [] || a != x.children[|x.children| - 1].name)
  {
    LevelAttributes(x.attrs, Entries(x.children), a);
    LevelAttributes([], Entries(Root(x).children), a);
  }

  method Convert(x: Xml) returns (v: Value)
    ensures v == ToObject(x)
    decreases x
  {
    ghost var es := Entries(x.children);
    var l, n := Level(x.attrs, [], []), |x.children|;
    for i := 0 to n
      invariant l == if i < n || n == 0 then AddChildren(x.attrs, es[..i]) else LevelOf(x.attrs, es)
    {
      var value := Convert(x.children[i]);
      l := ConvertChild(l, Entry(x.children[i].name, i, value), i == n - 1);
      assert es[..i + 1][..i] == es[..i];
    }
    v := ObjectOf(l);
  }

  /** The root, without its attributes: the object of a document begins empty. */
  function Root(document: Xml): Xml {
    document.(attrs := [])
  }

  /** `Xml2Json` */
  method Xml2Json(document: Xml) returns (json: Value)
    ensures json == ToObject(Root(document))
  {
    json := Convert(Root(document));
  }

  method ConvertChild(level: Level, e: Entry, last: bool) returns (l: Level)
    ensures l == WithChild(level, e, last)
  {
    l := level;
    if !HasOwn(l, e.key) {
      l := l.(named := l.named + [e]);
    } else {
      l := l.(slots := SetSlot(l.slots, Slot(e.pos, e)));
      if last {
        if HasOwn(l, e.key) {
          l := Move(l, e.key);
        }
      }
    }
  }

  // ---------------------------------------------------------------- the order of siblings

  /** The entries with a key, in their order. */
  function Of(es: seq<Entry>, key: string): seq<Entry> {
    if es == [] then []
    else
      var last := es[|es| - 1];
      Of(es[..|es| - 1], key) + (if last.key == key then [last] else [])
  }

  lemma {:induction false} OfConcat(a: seq<Entry>, b: seq<Entry>, key: string)
    ensures Of(a + b, key) == Of(a, key) + Of(b, key)
  {
    if b == [] {
      assert a + b == a;
    } else {
      OfConcat(a, b[..|b| - 1], key);
      assert (a + b)[..|a + b| - 1] == a + b[..|b| - 1];
    }
  }

  lemma {:induction false} OfHas(es: seq<Entry>, key: string)
    ensures HasKey(es, key) <==> Of(es, key) != []
  {
    if es != [] {
      OfHas(es[..|es| - 1], key);
      if HasKey(es, key) {
        var i :| 0 <= i < |es| && es[i].key == key;
        assert i < |es| - 1 ==> es[..|es| - 1][i].key == key;
      }
      if HasKey(es[..|es| - 1], key) {
        var i :| 0 <= i < |es| - 1 && es[..|es| - 1][i].key == key;
        assert es[i].key == key;
      }
    }
  }

  /** Every value is an object, as those of elements are. */
  ghost predicate AllObjects(es: seq<Entry>) {
    forall i | 0 <= i < |es| :: es[i].value.Obj?
  }

  lemma {:induction false} ObjectsAreAll(es: seq<Entry>)
    requires AllObjects(es)
    ensures ObjectsOf(es) == es
  {
    if es != [] {
      ObjectsAreAll(es[..|es| - 1]);
      assert es == es[..|es| - 1] + [es[|es| - 1]];
    }
  }

  lemma SlotsAdd(slots: seq<Slot>, s: Slot)
    ensures SlotEntries(slots + [s]) == SlotEntries(slots) + [s.entry]
    ensures SlotEntries([s] + slots) == [s.entry] + SlotEntries(slots)
  {
  }

  lemma OfAdd(es: seq<Entry>, e: Entry, key: string)
    ensures Of(es + [e], key) == if e.key == key then Of(es, key) + [e] else Of(es, key)
  {
    assert (es + [e])[..|es|] == es;
    assert Of(es, key) + [] == Of(es, key);
  }

  lemma OfCons(e: Entry, es: seq<Entry>, key: string)
    ensures Of([e] + es, key) == if e.key == key then [e] + Of(es, key) else Of(es, key)
  {
    OfConcat([e], es, key);
    assert [e][..0] == [];
    assert [] + Of(es, key) == Of(es, key);
  }

  function Head(es: seq<Entry>): seq<Entry> {
    if es == [] then [] else [es[0]]
  }

  function Tail(es: seq<Entry>): seq<Entry> {
    if es == [] then [] else es[1..]
  }

  /** The children of an element: objects, at their places. */
  ghost predicate AreChildren(es: seq<Entry>) {
    forall i | 0 <= i < |es| :: es[i].value.Obj? && es[i].pos == i
  }

  lemma ChildrenBefore(es: seq<Entry>)
    requires AreChildren(es) && es != []
    ensures AreChildren(es[..|es| - 1]) && es == es[..|es| - 1] + [es[|es| - 1]]
  {
  }

  /** The children with the name of an attribute are under their indexes; of another name, the first
      child is named and the others are under their indexes. */
  ghost predicate Parted(l: Level, all: seq<Entry>, key: string) {
    && Of(l.named, key) == (if key in l.attrs then [] else Head(all))
    && Of(SlotEntries(l.slots), key) == if key in l.attrs then all else Tail(all)
  }

  ghost predicate SlotsBelow(slots: seq<Slot>, n: nat) {
    AscendingSlots(slots) && forall i | 0 <= i < |slots| :: slots[i].index < n
  }

  lemma AddParted(l: Level, all: seq<Entry>, e: Entry, key: string, l': Level, all': seq<Entry>)
    requires Parted(l, all, key) && SlotsBelow(l.slots, e.pos)
    requires l' == AddChild(l, e) && all' == if e.key == key then all + [e] else all
    ensures Parted(l', all', key) && l'.attrs == l.attrs
  {
    OfHas(l.named, e.key);
    if HasOwn(l, e.key) {
      var s := Slot(e.pos, e);
      assert SetSlot(l.slots, s) == l.slots + [s];
      SlotsAdd(l.slots, s);
      OfAdd(SlotEntries(l.slots), e, key);
      AddOwn(l', l, all, e, key);
    } else {
      OfAdd(l.named, e, key);
    }
  }

  lemma AddOwn(l': Level, l: Level, all: seq<Entry>, e: Entry, key: string)
    requires Parted(l, all, key) && l'.attrs == l.attrs && l'.named == l.named
    requires Of(SlotEntries(l'.slots), key)
          == if e.key == key then Of(SlotEntries(l.slots), key) + [e] else Of(SlotEntries(l.slots), key)
    requires e.key in l.attrs || Of(l.named, e.key) != []
    ensures Parted(l', if e.key == key then all + [e] else all, key)
  {
  }

  /** Index 0 is taken before the move exactly if the first child has the name of an attribute. */
  ghost predicate ZeroTaken(attrs: seq<string>, es: seq<Entry>) {
    es != [] && es[0].key in attrs
  }

  lemma {:induction false} AddedSlots(attrs: seq<string>, es: seq<Entry>)
    requires AreChildren(es)
    ensures SlotsBelow(AddChildren(attrs, es).slots, |es|) && AddChildren(attrs, es).attrs == attrs
    decreases |es|
  {
    if es != [] {
      ChildrenBefore(es);
      AddedSlots(attrs, es[..|es| - 1]);
    }
  }

  lemma {:induction false} AddedZero(attrs: seq<string>, es: seq<Entry>)
    requires AreChildren(es)
    ensures var slots := AddChildren(attrs, es).slots;
            if ZeroTaken(attrs, es) then slots != [] && slots[0] == Slot(0, es[0])
            else slots != [] ==> slots[0].index > 0
    decreases |es|
  {
    if es != [] {
      var init := es[..|es| - 1];
      ChildrenBefore(es);
      AddedZero(attrs, init);
      AddedSlots(attrs, init);
      assert init != [] ==> init[0] == es[0];
    }
  }

  /** Before anything moves. */
  lemma {:induction false} AddedOf(attrs: seq<string>, es: seq<Entry>, key: string)
    requires AreChildren(es)
    ensures Parted(AddChildren(attrs, es), Of(es, key), key) && AddChildren(attrs, es).attrs == attrs
    decreases |es|
  {
    if es == [] {
      assert SlotEntries([]) == [];
    } else {
      var init, e := es[..|es| - 1], es[|es| - 1];
      ChildrenBefore(es);
      AddedOf(attrs, init, key);
      AddedSlots(attrs, init);
      OfAdd(init, e, key);
      var l := AddChildren(attrs, init);
      AddParted(l, Of(init, key), e, key, AddChildren(attrs, es), Of(es, key));
    }
  }

  lemma {:induction false} NamedKey(named: seq<Entry>, k: string)
    requires HasKey(named, k)
    ensures Named(named, k).key == k && Named(named, k) in named
  {
    if named[|named| - 1].key != k {
      var i :| 0 <= i < |named| && named[i].key == k;
      assert named[..|named| - 1][i].key == k;
      NamedKey(named[..|named| - 1], k);
    }
  }

  /** Dropping the one entry of a key. */
  lemma {:induction false} DropOf(named: seq<Entry>, k: string, key: string)
    requires HasKey(named, k) && |Of(named, k)| == 1
    ensures Of(named, k) == [Named(named, k)]
    ensures Of(Drop(named, k), key) == if key == k then [] else Of(named, key)
    decreases |named|
  {
    var init, last := named[..|named| - 1], named[|named| - 1];
    if last.key != k {
      OfHas(named, k);
      OfHas(init, k);
      DropOf(init, k, key);
      OfAdd(Drop(init, k), last, key);
    }
  }

  // ---------------------------------------------------------------- what is visited

  /** The last child went under its index: its key moves. */
  ghost predicate Moves(attrs: seq<string>, es: seq<Entry>) {
    es != [] && (es[|es| - 1].key in attrs || |Of(es, es[|es| - 1].key)| > 1)
  }

  lemma LevelIs(attrs: seq<string>, es: seq<Entry>)
    requires AreChildren(es)
    ensures var l := AddChildren(attrs, es);
            if Moves(attrs, es) then HasOwn(l, es[|es| - 1].key) && LevelOf(attrs, es) == Move(l, es[|es| - 1].key)
            else LevelOf(attrs, es) == l
  {
    if es != [] {
      var init, e := es[..|es| - 1], es[|es| - 1];
      var l := AddChildren(attrs, init);
      ChildrenBefore(es);
      AddedOf(attrs, init, e.key);
      OfHas(l.named, e.key);
      OfAdd(init, e, e.key);
      assert HasOwn(l, e.key) <==> e.key in attrs || Of(init, e.key) != [];
      assert AddChildren(attrs, es) == AddChild(l, e);
    }
  }

  /** The children whose slots are not overwritten by the move. */
  ghost function Kept(attrs: seq<string>, es: seq<Entry>): seq<Entry> {
    if Moves(attrs, es) && ZeroTaken(attrs, es) then es[1..] else es
  }

  /** What `eachObject` visits of one name. */
  ghost function Visited(attrs: seq<string>, es: seq<Entry>, key: string): seq<Entry> {
    var all := Of(Kept(attrs, es), key);
    if Moves(attrs, es) && key == es[|es| - 1].key then (if key in attrs then [Entry(key, 0, Text)] else []) + all
    else if key in attrs then all
    else Tail(all) + Head(all)
  }

  lemma VisitsIn(l: Level, key: string)
    requires AllObjects(l.named)
    ensures Of(EachObject(ObjectOf(l)), key) == Of(SlotEntries(l.slots), key) + Of(l.named, key)
  {
    ObjectsAreAll(l.named);
    OfConcat(SlotEntries(l.slots), l.named, key);
  }

  lemma ZeroSlotOf(slots: seq<Slot>, first: Entry, key: string)
    requires AscendingSlots(slots)
    ensures Of(SlotEntries(SetSlot(slots, Slot(0, first))), key)
         == (if first.key == key then [first] else []) + Of(SlotEntries(AfterZero(slots)), key)
  {
    var rest := AfterZero(slots);
    SetZero(slots, first);
    SlotsAdd(rest, Slot(0, first));
    OfCons(first, SlotEntries(rest), key);
    assert [] + Of(SlotEntries(rest), key) == Of(SlotEntries(rest), key);
  }

  /** What the move leaves in the other slots. */
  lemma OtherSlotsOf(attrs: seq<string>, es: seq<Entry>, key: string)
    requires AreChildren(es) && Moves(attrs, es)
    ensures Of(SlotEntries(AfterZero(AddChildren(attrs, es).slots)), key)
         == if key in attrs then Of(Kept(attrs, es), key) else Tail(Of(es, key))
  {
    var slots := AddChildren(attrs, es).slots;
    AddedZero(attrs, es);
    AddedOf(attrs, es, key);
    if ZeroTaken(attrs, es) {
      assert SlotEntries(slots)[1..] == SlotEntries(slots[1..]);
      OfFirst(SlotEntries(slots), key);
      OfFirst(es, key);
      SameTail(SlotEntries(slots), es, key, key in attrs);
    }
  }

  lemma OfFirst(es: seq<Entry>, key: string)
    requires es != []
    ensures Of(es, key) == (if es[0].key == key then [es[0]] else []) + Of(es[1..], key)
  {
    assert es == [es[0]] + es[1..];
    OfCons(es[0], es[1..], key);
    assert [] + Of(es[1..], key) == Of(es[1..], key);
  }

  lemma SameTail(a: seq<Entry>, b: seq<Entry>, key: string, isAttr: bool)
    requires a != [] && b != [] && a[0] == b[0] && (a[0].key == key ==> isAttr)
    requires Of(a, key) == (if a[0].key == key then [a[0]] else []) + Of(a[1..], key)
    requires Of(b, key) == (if b[0].key == key then [b[0]] else []) + Of(b[1..], key)
    requires Of(a, key) == if isAttr then Of(b, key) else Tail(Of(b, key))
    ensures Of(a[1..], key) == if isAttr then Of(b[1..], key) else Tail(Of(b, key))
  {
    var x, y := Of(a[1..], key), Of(b[1..], key);
    if a[0].key == key {
      assert ([a[0]] + x)[1..] == x && ([a[0]] + y)[1..] == y;
    } else {
      assert [] + x == x && [] + y == y;
    }
  }

  /** An overwritten first child has the name of an attribute. */
  lemma KeptOf(attrs: seq<string>, es: seq<Entry>, key: string)
    ensures key !in attrs ==> Of(Kept(attrs, es), key) == Of(es, key)
  {
    if Kept(attrs, es) != es {
      OfFirst(es, key);
    }
  }

  /** What moves: the attribute with the name of the last child, or the first child with that name. */
  ghost function Moved(attrs: seq<string>, es: seq<Entry>): seq<Entry>
    requires es != []
  {
    var k := es[|es| - 1].key;
    if k in attrs then [Entry(k, 0, Text)] else Head(Of(es, k))
  }

  lemma MovedIs(attrs: seq<string>, es: seq<Entry>)
    requires AreChildren(es) && Moves(attrs, es)
    ensures var l, k := AddChildren(attrs, es), es[|es| - 1].key;
            && (k !in attrs ==> HasKey(l.named, k) && |Of(l.named, k)| == 1 && [Named(l.named, k)] == Moved(attrs, es))
            && |Moved(attrs, es)| == 1 && Moved(attrs, es)[0].key == k
            && LevelOf(attrs, es).slots == SetSlot(l.slots, Slot(0, Moved(attrs, es)[0]))
            && LevelOf(attrs, es).named == if k in attrs then l.named else Drop(l.named, k)
  {
    var l, k := AddChildren(attrs, es), es[|es| - 1].key;
    LevelIs(attrs, es);
    AddedSlots(attrs, es);
    if k !in attrs {
      AddedOf(attrs, es, k);
      OfHas(l.named, k);
      DropOf(l.named, k, k);
      NamedKey(l.named, k);
    }
  }

  lemma MovedSlots(attrs: seq<string>, es: seq<Entry>, key: string)
    requires AreChildren(es) && Moves(attrs, es)
    ensures Of(SlotEntries(LevelOf(attrs, es).slots), key)
         == (if key == es[|es| - 1].key then Moved(attrs, es) else [])
            + (if key in attrs then Of(Kept(attrs, es), key) else Tail(Of(es, key)))
  {
    MovedIs(attrs, es);
    AddedSlots(attrs, es);
    ZeroSlotOf(AddChildren(attrs, es).slots, Moved(attrs, es)[0], key);
    OtherSlotsOf(attrs, es, key);
  }

  lemma MovedNamed(attrs: seq<string>, es: seq<Entry>, key: string)
    requires AreChildren(es) && Moves(attrs, es)
    ensures AllObjects(LevelOf(attrs, es).named)
    ensures Of(LevelOf(attrs, es).named, key)
         == if key in attrs || key == es[|es| - 1].key then [] else Head(Of(es, key))
  {
    var l, k := AddChildren(attrs, es), es[|es| - 1].key;
    MovedIs(attrs, es);
    AddedOf(attrs, es, key);
    AddedObjects(attrs, es);
    if k !in attrs {
      DropOf(l.named, k, key);
      DropObjects(l.named, k);
    }
  }

  lemma MovedVisits(attrs: seq<string>, es: seq<Entry>, key: string)
    requires AreChildren(es) && Moves(attrs, es)
    ensures Of(EachObject(ObjectOf(LevelOf(attrs, es))), key) == Visited(attrs, es, key)
  {
    MovedSlots(attrs, es, key);
    MovedNamed(attrs, es, key);
    VisitsIn(LevelOf(attrs, es), key);
    KeptOf(attrs, es, key);
    var l := LevelOf(attrs, es);
    Joined(Of(SlotEntries(l.slots), key), Of(l.named, key), Moved(attrs, es), Of(Kept(attrs, es), key), Of(es, key),
           key in attrs, key == es[|es| - 1].key);
  }

  lemma Joined(slots: seq<Entry>, named: seq<Entry>, moved: seq<Entry>, kept: seq<Entry>, all: seq<Entry>,
               isAttr: bool, isLast: bool)
    requires slots == (if isLast then moved else []) + (if isAttr then kept else Tail(all))
    requires named == if isAttr || isLast then [] else Head(all)
    requires !isAttr ==> kept == all && (isLast ==> moved == Head(all))
    ensures slots + named ==
            if isLast then (if isAttr then moved else []) + kept
            else if isAttr then kept
            else Tail(kept) + Head(kept)
  {
  }

  /** What is visited of one name, for every document. */
  lemma VisitsOf(attrs: seq<string>, es: seq<Entry>, key: string)
    requires AreChildren(es)
    ensures Of(EachObject(ObjectOf(LevelOf(attrs, es))), key) == Visited(attrs, es, key)
  {
    if Moves(attrs, es) {
      MovedVisits(attrs, es, key);
    } else {
      LevelIs(attrs, es);
      AddedOf(attrs, es, key);
      AddedSlots(attrs, es);
      AddedObjects(attrs, es);
      VisitsIn(AddChildren(attrs, es), key);
    }
  }

  lemma {:induction false} AddedObjects(attrs: seq<string>, es: seq<Entry>)
    requires AreChildren(es)
    ensures AllObjects(AddChildren(attrs, es).named)
    decreases |es|
  {
    if es != [] {
      ChildrenBefore(es);
      AddedObjects(attrs, es[..|es| - 1]);
    }
  }

  lemma {:induction false} DropObjects(named: seq<Entry>, k: string)
    requires AllObjects(named)
    ensures AllObjects(Drop(named, k))
  {
    if named != [] {
      DropObjects(named[..|named| - 1], k);
    }
  }

  // ---------------------------------------------------------------- the main results

  lemma EntriesAreChildren(cs: seq<Xml>)
    ensures AreChildren(Entries(cs))
  {
  }

  /** The index keys of every object made from an element are in the order in which they are enumerated. */
  lemma ElementAscends(x: Xml)
    ensures AscendingSlots(ToObject(x).slots)
  {
    var es := Entries(x.children);
    var l := AddChildren(x.attrs, es);
    EntriesAreChildren(x.children);
    LevelIs(x.attrs, es);
    AddedSlots(x.attrs, es);
    if Moves(x.attrs, es) {
      var k := es[|es| - 1].key;
      var first := if k in l.attrs then Entry(k, 0, Text) else Named(l.named, k);
      SetSlotAscends(l.slots, Slot(0, first));
    }
  }

  /** Siblings with one name are visited in the order of the document. */
  ghost predicate InOrder(x: Xml) {
    forall name :: Of(EachObject(ToObject(x)), name) == Of(Entries(x.children), name)
  }

  /** Only the name of the last child is given to several children, attributes aside; the last child has
      not the name of an attribute, and neither has the first if the name of the last is repeated. */
  ghost predicate Tidy(attrs: seq<string>, es: seq<Entry>) {
    es == [] ||
    var last := es[|es| - 1].key;
    && last !in attrs
    && (|Of(es, last)| > 1 ==> es[0].key !in attrs)
    && forall name | name !in attrs && |Of(es, name)| > 1 :: name == last
  }

  lemma {:induction false} OfPlaces(es: seq<Entry>, key: string)
    requires AreChildren(es)
    ensures var all := Of(es, key);
            && (forall i | 0 <= i < |all| :: all[i] in es && all[i].key == key)
            && forall i, j | 0 <= i < j < |all| :: all[i].pos < all[j].pos
    decreases |es|
  {
    if es != [] {
      var init := es[..|es| - 1];
      ChildrenBefore(es);
      OfPlaces(init, key);
      OfAdd(init, es[|es| - 1], key);
      forall i | 0 <= i < |Of(init, key)| ensures Of(init, key)[i].pos < es[|es| - 1].pos {
        assert Of(init, key)[i] in init;
      }
    }
  }

  lemma RotatedIff(es: seq<Entry>, key: string)
    requires AreChildren(es)
    ensures var all := Of(es, key); Tail(all) + Head(all) == all <==> |all| <= 1
  {
    var all := Of(es, key);
    OfPlaces(es, key);
    if |all| > 1 {
      assert (Tail(all) + Head(all))[0] == all[1];
    }
  }

  /** When one name is in order. */
  ghost predicate NameTidy(attrs: seq<string>, es: seq<Entry>, key: string) {
    if Moves(attrs, es) && key == es[|es| - 1].key then key !in attrs
    else if key in attrs then !(Moves(attrs, es) && es[0].key == key)
    else |Of(es, key)| <= 1
  }

  lemma NameTidyIff(attrs: seq<string>, es: seq<Entry>, key: string)
    requires AreChildren(es)
    ensures Visited(attrs, es, key) == Of(es, key) <==> NameTidy(attrs, es, key)
  {
    if Moves(attrs, es) && key == es[|es| - 1].key {
      LastNameIff(attrs, es);
    } else if key in attrs {
      AttributeNameIff(attrs, es, key);
    } else {
      KeptOf(attrs, es, key);
      RotatedIff(es, key);
    }
  }

  lemma AttributeNameIff(attrs: seq<string>, es: seq<Entry>, key: string)
    requires key in attrs
    ensures Of(Kept(attrs, es), key) == Of(es, key) <==> !(Moves(attrs, es) && es[0].key == key)
  {
    if Moves(attrs, es) {
      OfFirst(es, key);
    }
  }

  lemma LastNameIff(attrs: seq<string>, es: seq<Entry>)
    requires AreChildren(es) && Moves(attrs, es)
    ensures var key := es[|es| - 1].key; Visited(attrs, es, key) == Of(es, key) <==> key !in attrs
  {
    var key := es[|es| - 1].key;
    KeptOf(attrs, es, key);
    if key in attrs {
      TextIsNoChild(es, key);
      assert Visited(attrs, es, key)[0].value == Text;
    } else {
      assert [] + Of(es, key) == Of(es, key);
    }
  }

  lemma TextIsNoChild(es: seq<Entry>, key: string)
    requires AreChildren(es)
    ensures forall i | 0 <= i < |Of(es, key)| :: Of(es, key)[i].value != Text
  {
    OfPlaces(es, key);
  }

  lemma TidyIff(attrs: seq<string>, es: seq<Entry>)
    requires AreChildren(es)
    ensures Tidy(attrs, es) <==> forall name :: NameTidy(attrs, es, name)
  {
    if es != [] && forall name :: NameTidy(attrs, es, name) {
      var last := es[|es| - 1].key;
      assert NameTidy(attrs, es, last);
      assert NameTidy(attrs, es, es[0].key);
      forall name | name !in attrs && |Of(es, name)| > 1 ensures name == last {
        assert NameTidy(attrs, es, name);
      }
    }
    if es == [] {
      assert forall name :: Of(es, name) == [];
    }
  }

  /** When a document turned into objects keeps the order of siblings with one name. */
  lemma InOrderIff(x: Xml)
    ensures InOrder(x) <==> Tidy(x.attrs, Entries(x.children))
  {
    var es := Entries(x.children);
    EntriesAreChildren(x.children);
    TidyIff(x.attrs, es);
    forall name
      ensures Of(EachObject(ToObject(x)), name) == Of(es, name) <==> NameTidy(x.attrs, es, name)
    {
      VisitsOf(x.attrs, es, name);
      NameTidyIff(x.attrs, es, name);
    }
  }

  /** The same at every level of the document. */
  ghost predicate InOrderBelow(x: Xml)
    decreases x
  {
    InOrder(x) && forall i | 0 <= i < |x.children| :: InOrderBelow(x.children[i])
  }

  ghost predicate TidyBelow(x: Xml)
    decreases x
  {
    Tidy(x.attrs, Entries(x.children)) && forall i | 0 <= i < |x.children| :: TidyBelow(x.children[i])
  }

  lemma {:induction false} InOrderBelowIff(x: Xml)
    ensures InOrderBelow(x) <==> TidyBelow(x)
    decreases x
  {
    InOrderIff(x);
    forall i | 0 <= i < |x.children| ensures InOrderBelow(x.children[i]) <==> TidyBelow(x.children[i]) {
      InOrderBelowIff(x.children[i]);
    }
  }

  /** For a document: the attributes of its root play no part. */
  lemma DocumentInOrderIff(document: Xml)
    ensures InOrderBelow(Root(document)) <==>
            && Tidy([], Entries(document.children))
            && forall i | 0 <= i < |document.children| :: TidyBelow(document.children[i])
  {
    InOrderBelowIff(Root(document));
  }

  /** A document with the children `b`, `b` and `c`: the second `b` is visited before the first. */
  lemma OutOfOrder()
    ensures var b := Xml("b", [], []);
            var x := Xml("a", [], [b, b, Xml("c", [], [])]);
            !InOrder(x) && Of(EachObject(ToObject(x)), "b") == [Entry("b", 1, ToObject(b)), Entry("b", 0, ToObject(b))]
  {
    var b, c := Xml("b", [], []), Xml("c", [], []);
    var x := Xml("a", [], [b, b, c]);
    EntriesAreChildren(x.children);
    var es := Entries(x.children);
    TwiceThenOnce(es);
    VisitsOf([], es, "b");
  }

  lemma TwiceThenOnce(es: seq<Entry>)
    requires |es| == 3 && es[0].key == es[1].key != es[2].key && es[0].pos != es[1].pos
    ensures Visited([], es, es[0].key) == [es[1], es[0]] != Of(es, es[0].key)
  {
    var a, b, c := es[0], es[1], es[2];
    assert es == [] + [a] + [b] + [c];
    OfThree(a, b, c, a.key);
    OfThree(a, b, c, c.key);
    SecondFirst(es, a, b, c);
  }

  lemma SecondFirst(es: seq<Entry>, a: Entry, b: Entry, c: Entry)
    requires es != [] && es[|es| - 1] == c && a.key != c.key && a != b
    requires Of(es, a.key) == [a, b] && Of(es, c.key) == [c]
    ensures Visited([], es, a.key) == [b, a] != Of(es, a.key)
  {
    assert !Moves([], es);
    assert Tail([a, b]) + Head([a, b]) == [b, a];
    assert [b, a][0] != [a, b][0];
  }

  lemma OfThree(e0: Entry, e1: Entry, e2: Entry, key: string)
    ensures Of([] + [e0] + [e1] + [e2], key)
         == (if e0.key == key then [e0] else []) + (if e1.key == key then [e1] else [])
             + (if e2.key == key then [e2] else [])
  {
    OfAdd([], e0, key);
    OfAdd([] + [e0], e1, key);
    OfAdd([] + [e0] + [e1], e2, key);
  }

  /** A document whose last child has the name of an attribute: the text of the attribute is visited. */
  lemma AttributeIsVisited(name: string, x: Xml)
    requires x.attrs == [name] && x.children == [Xml(name, [], [])]
    ensures !InOrder(x) && Of(EachObject(ToObject(x)), name) == [Entry(name, 0, Text)]
  {
    var es := Entries(x.children);
    EntriesAreChildren(x.children);
    assert es == [] + [es[0]] && es[1..] == [];
    OfAdd([], es[0], name);
    VisitsOf(x.attrs, es, name);
    assert Visited(x.attrs, es, name) == [Entry(name, 0, Text)];
  }
}
