/** Rendering a template. A loop binds its variable in the data object itself and removes it at the
    end: `RenderParts` says what that prints and what it leaves of the data, and `Denote` is the
    meaning that a reader of the template expects, with an environment that is extended. */
module TemplateRender {
  import opened TextStream
  import opened JsonValue
  import opened JsonPrinter
  import opened TemplateSyntax
  import opened TemplateQuery

  // ---------------------------------------------------------------- values

  /** A mantissa of zeros. */
  predicate IsZeroText(s: string) {
    s == "" || s[0] == 'e' || s[0] == 'E' || (s[0] in "-0." && IsZeroText(s[1..]))
  }

  /** `LogicQuery::apply` after the query. */
  predicate IsTrue(v: JSON) {
    match v
    case Leaf(Null) => false
    case Leaf(Bool(b)) => b
    case Leaf(Int(n)) => n != 0
    case Leaf(Long(n)) => n != 0
    case Leaf(Float(text)) => !IsZeroText(text)
    case Leaf(Str(s)) => s != ""
    case Array(items) => items != []
    case Object(fields) => fields != []
  }

  /** `EchoPart::render` after the query: an empty value prints nothing, a string itself. */
  function EchoText(v: JSON): string {
    match v
    case Leaf(Null) => ""
    case Leaf(Str(s)) => s
    case Leaf(s) => ScalarText(s)
    case _ => PrintContainer(v, 2)
  }

  /** `apply` of the three queries. */
  predicate Applies(cond: Cond, data: JSON) {
    match cond
    case Otherwise => true
    case Truth(query) => IsTrue(Find(data, query))
    case Exists(query) => Find(data, query) != EMPTY
  }

  /** `dataObject->set(name, value)` */
  function Bind(data: JSON, name: string, value: JSON): JSON {
    if data.Object? then Object(Insert(data.fields, name, value)) else data
  }

  /** `dataObject->remove(name)` */
  function Unbind(data: JSON, name: string): JSON {
    if data.Object? then Object(Remove(data.fields, name)) else data
  }

  /** `query.findArray` of a loop, whose data must be an object. */
  function LoopItems(data: JSON, query: string): Option<seq<JSON>> {
    if data.Object? && Find(data, query).Array? then Some(Find(data, query).items) else None
  }

  // ---------------------------------------------------------------- what rendering does

  datatype Rendering = Rendering(text: string, data: JSON)

  function RenderPart(p: Part, data: JSON): Rendering
    requires NoIncludes(p)
    decreases p, 0
  {
    match p
    case Text(content) => Rendering(content, data)
    case Echo(query) => Rendering(EchoText(Find(data, query)), data)
    case Logic(branches) => RenderBranches(branches, data)
    case Loop(name, query, body) =>
      match LoopItems(data, query)
      case None => Rendering("", data)
      case Some(items) =>
        var r := RenderLoop(name, items, body, data);
        Rendering(r.text, Unbind(r.data, name))
  }

  function RenderParts(ps: seq<Part>, data: JSON): Rendering
    requires NoIncludesIn(ps)
    decreases ps, 1
  {
    if ps == [] then Rendering("", data)
    else
      var r := RenderPart(ps[0], data);
      Following(r.text, RenderParts(ps[1..], r.data))
  }

  function Following(text: string, r: Rendering): Rendering {
    Rendering(text + r.text, r.data)
  }

  function RenderLoop(name: string, items: seq<JSON>, body: seq<Part>, data: JSON): Rendering
    requires NoIncludesIn(body)
    decreases body, 2, |items|
  {
    if items == [] then Rendering("", data)
    else
      var r := RenderParts(body, Bind(data, name, items[0]));
      Following(r.text, RenderLoop(name, items[1..], body, r.data))
  }

  function RenderBranches(bs: seq<Branch>, data: JSON): Rendering
    requires NoIncludesInBranches(bs)
    decreases bs, 1
  {
    if bs == [] then Rendering("", data)
    else if Applies(bs[0].cond, data) then RenderParts(bs[0].body, data)
    else RenderBranches(bs[1..], data)
  }

  ghost predicate NoIncludes(p: Part)
    decreases p, 0
  {
    match p
    case Include(_) => false
    case Loop(_, _, body) => NoIncludesIn(body)
    case Logic(branches) => NoIncludesInBranches(branches)
    case _ => true
  }

  ghost predicate NoIncludesIn(ps: seq<Part>)
    decreases ps, 1
  {
    ps == [] || (NoIncludes(ps[0]) && NoIncludesIn(ps[1..]))
  }

  ghost predicate NoIncludesInBranches(bs: seq<Branch>)
    decreases bs, 1
  {
    bs == [] || (NoIncludesIn(bs[0].body) && NoIncludesInBranches(bs[1..]))
  }

  /** Exactly the first branch whose condition holds is rendered. */
  lemma {:induction false} FirstTrueBranch(bs: seq<Branch>, data: JSON, i: nat)
    requires NoIncludesInBranches(bs) && i <= |bs|
    requires forall j | 0 <= j < i :: !Applies(bs[j].cond, data)
    ensures i == |bs| ==> RenderBranches(bs, data) == Rendering("", data)
    ensures i < |bs| && Applies(bs[i].cond, data) ==>
              NoIncludesIn(bs[i].body) && RenderBranches(bs, data) == RenderParts(bs[i].body, data)
    decreases |bs|
  {
    if i > 0 {
      var rest := bs[1..];
      assert forall j | 0 <= j < i - 1 :: rest[j] == bs[j + 1];
      assert !Applies(bs[0].cond, data);
      assert i < |bs| ==> rest[i - 1] == bs[i];
      FirstTrueBranch(rest, data, i - 1);
    }
  }

  // ---------------------------------------------------------------- the data afterwards

  function ValueAt(data: JSON, key: string): Option<JSON> {
    if data.Object? then Get(data.fields, key) else None
  }

  ghost predicate WellFormed(data: JSON) {
    data.Object? ==> Sorted(data.fields)
  }

  lemma {:induction false} GetSome<T>(fields: seq<Field<T>>, key: string)
    ensures Get(fields, key).Some? <==> HasKey(fields, key)
  {
    if fields != [] {
      GetSome(fields[1..], key);
      assert HasKey(fields, key) <==> fields[0].key == key || HasKey(fields[1..], key) by {
        assert forall i | 0 <= i < |fields| - 1 :: fields[1..][i] == fields[i + 1];
        assert HasKey(fields[1..], key) ==> exists i | 0 < i < |fields| :: fields[i].key == key by {
          if HasKey(fields[1..], key) {
            var i :| 0 <= i < |fields[1..]| && fields[1..][i].key == key;
            assert fields[i + 1].key == key;
          }
        }
      }
    }
  }

  lemma SortedTail<T>(fields: seq<Field<T>>)
    requires Sorted(fields) && fields != []
    ensures Sorted(fields[1..])
    ensures forall i | 0 <= i < |fields| - 1 ::
              && fields[1..][i] == fields[i + 1]
              && Less(fields[0].key, fields[1..][i].key)
  {
  }

  lemma {:induction false} GetAfterRemove<T>(fields: seq<Field<T>>, key: string, k: string)
    requires Sorted(fields)
    ensures Get(Remove(fields, key), k) == if k == key then None else Get(fields, k)
  {
    if fields != [] {
      SortedTail(fields);
      GetAfterRemove(fields[1..], key, k);
      if fields[0].key == key {
        GetSome(fields[1..], key);
        LessIrreflexive(key);
      } else {
        assert Remove(fields, key)[1..] == Remove(fields[1..], key);
      }
    }
  }

  lemma {:induction false} RemoveKeepsSorted<T>(fields: seq<Field<T>>, key: string)
    requires Sorted(fields)
    ensures Sorted(Remove(fields, key))
    ensures forall k :: HasKey(Remove(fields, key), k) ==> HasKey(fields, k)
  {
    if fields != [] {
      var tail := fields[1..];
      SortedTail(fields);
      forall k | HasKey(tail, k) ensures HasKey(fields, k) && Less(fields[0].key, k) {
        var j :| 0 <= j < |tail| && tail[j].key == k;
        assert fields[j + 1].key == k;
      }
      if fields[0].key != key {
        RemoveKeepsSorted(tail, key);
        SortedCons(fields[0], Remove(tail, key));
      }
    }
  }

  lemma SortedCons<T>(head: Field<T>, rest: seq<Field<T>>)
    requires Sorted(rest) && forall k | HasKey(rest, k) :: Less(head.key, k)
    ensures Sorted([head] + rest)
    ensures forall k | HasKey([head] + rest, k) :: k == head.key || HasKey(rest, k)
  {
    var all := [head] + rest;
    forall j | 0 <= j < |rest| ensures Less(head.key, rest[j].key) {
      assert HasKey(rest, rest[j].key);
    }
    forall k | HasKey(all, k) ensures k == head.key || HasKey(rest, k) {
      var i :| 0 <= i < |all| && all[i].key == k;
      assert i > 0 ==> rest[i - 1].key == k;
    }
  }

  /** A sorted map is its values. */
  lemma {:induction false} SortedExtensional<T>(a: seq<Field<T>>, b: seq<Field<T>>)
    requires Sorted(a) && Sorted(b) && forall k :: Get(a, k) == Get(b, k)
    ensures a == b
  {
    if a == [] || b == [] {
      var x := if b == [] then None else Get(b, b[0].key);
      var y := if a == [] then None else Get(a, a[0].key);
    } else {
      var x, y := a[0].key, b[0].key;
      HeadIsLeast(a, y);
      HeadIsLeast(b, x);
      if x != y {
        LessAsymmetric(x, y);
      }
      assert Get(a, x) == Get(b, x);
      forall k ensures Get(a[1..], k) == Get(b[1..], k) {
        assert Get(a, k) == Get(b, k);
        HeadIsOnce(a);
        HeadIsOnce(b);
      }
      SortedExtensional(a[1..], b[1..]);
      assert a == [a[0]] + a[1..] && b == [b[0]] + b[1..];
    }
  }

  lemma HeadIsLeast<T>(a: seq<Field<T>>, k: string)
    requires Sorted(a) && a != [] && Get(a, k).Some?
    ensures k == a[0].key || Less(a[0].key, k)
  {
    GetSome(a, k);
  }

  lemma HeadIsOnce<T>(a: seq<Field<T>>)
    requires Sorted(a) && a != []
    ensures Get(a[1..], a[0].key) == None
  {
    GetSome(a[1..], a[0].key);
    LessIrreflexive(a[0].key);
  }

  lemma BindValue(data: JSON, name: string, v: JSON, k: string)
    requires data.Object?
    ensures ValueAt(Bind(data, name, v), k) == if k == name then Some(v) else ValueAt(data, k)
  {
    GetAfterInsert(data.fields, name, v, k);
  }

  lemma BindWellFormed(data: JSON, name: string, v: JSON)
    requires WellFormed(data)
    ensures WellFormed(Bind(data, name, v))
  {
    if data.Object? {
      InsertKeepsSorted(data.fields, name, v);
    }
  }

  lemma UnbindValue(data: JSON, name: string, k: string)
    requires data.Object? && WellFormed(data)
    ensures ValueAt(Unbind(data, name), k) == if k == name then None else ValueAt(data, k)
    ensures WellFormed(Unbind(data, name))
  {
    GetAfterRemove(data.fields, name, k);
    RemoveKeepsSorted(data.fields, name);
  }

  /** The variables of the loops that run: their query leads to an array. */
  ghost function Unbound(p: Part, data: JSON): set<string>
    requires NoIncludes(p)
    decreases p, 0
  {
    match p
    case Loop(name, query, body) =>
      (match LoopItems(data, query)
       case Some(items) => {name} + UnboundInLoop(name, items, body, data)
       case None => {})
    case Logic(branches) => UnboundInBranches(branches, data)
    case _ => {}
  }

  ghost function UnboundIn(ps: seq<Part>, data: JSON): set<string>
    requires NoIncludesIn(ps)
    decreases ps, 1
  {
    if ps == [] then {} else Unbound(ps[0], data) + UnboundIn(ps[1..], RenderPart(ps[0], data).data)
  }

  ghost function UnboundInLoop(name: string, items: seq<JSON>, body: seq<Part>, data: JSON): set<string>
    requires NoIncludesIn(body)
    decreases body, 2, |items|
  {
    if items == [] then {}
    else
      var bound := Bind(data, name, items[0]);
      UnboundIn(body, bound) + UnboundInLoop(name, items[1..], body, RenderParts(body, bound).data)
  }

  ghost function UnboundInBranches(bs: seq<Branch>, data: JSON): set<string>
    requires NoIncludesInBranches(bs)
    decreases bs, 1
  {
    if bs == [] then {}
    else if Applies(bs[0].cond, data) then UnboundIn(bs[0].body, data)
    else UnboundInBranches(bs[1..], data)
  }

  /** The data with the given keys removed. */
  ghost predicate Without(data: JSON, keys: set<string>, after: JSON) {
    if !data.Object? then after == data
    else after.Object? && WellFormed(after)
         && forall k :: ValueAt(after, k) == if k in keys then None else ValueAt(data, k)
  }

  lemma WithoutNothing(data: JSON)
    requires WellFormed(data)
    ensures Without(data, {}, data)
  {
  }

  lemma WithoutBoth(d0: JSON, a: set<string>, d1: JSON, b: set<string>, d2: JSON)
    requires Without(d0, a, d1) && Without(d1, b, d2)
    ensures Without(d0, a + b, d2)
  {
  }

  lemma WithoutKeepsForm(data: JSON, keys: set<string>, after: JSON)
    requires WellFormed(data) && Without(data, keys, after)
    ensures WellFormed(after)
  {
  }

  /** What rendering leaves of the data: every key of it but the variables of the loops that ran, which
      are gone even when they were in the data before. */
  lemma {:induction false} PartLeaves(p: Part, data: JSON)
    requires NoIncludes(p) && WellFormed(data)
    ensures Without(data, Unbound(p, data), RenderPart(p, data).data)
    decreases p, 0
  {
    WithoutNothing(data);
    match p {
      case Loop(name, query, body) =>
        if LoopItems(data, query).Some? {
          var items := LoopItems(data, query).value;
          LoopLeaves(name, items, body, data);
          var after := RenderLoop(name, items, body, data).data;
          UnbindLeaves(data, UnboundInLoop(name, items, body, data), after, name);
        }
      case Logic(branches) => BranchesLeave(branches, data);
      case _ =>
    }
  }

  /** Everything but the value of one key. */
  ghost predicate WithoutBut(data: JSON, keys: set<string>, name: string, after: JSON) {
    if !data.Object? then after == data
    else after.Object? && WellFormed(after)
         && forall k | k != name :: ValueAt(after, k) == if k in keys then None else ValueAt(data, k)
  }

  lemma UnbindLeaves(data: JSON, keys: set<string>, after: JSON, name: string)
    requires WithoutBut(data, keys, name, after) && data.Object?
    ensures Without(data, {name} + keys, Unbind(after, name))
  {
    forall k ensures ValueAt(Unbind(after, name), k) == if k in {name} + keys then None else ValueAt(data, k) {
      UnbindValue(after, name, k);
    }
    UnbindValue(after, name, name);
  }

  lemma {:induction false} PartsLeave(ps: seq<Part>, data: JSON)
    requires NoIncludesIn(ps) && WellFormed(data)
    ensures Without(data, UnboundIn(ps, data), RenderParts(ps, data).data)
    decreases ps, 1
  {
    WithoutNothing(data);
    if ps != [] {
      var data' := RenderPart(ps[0], data).data;
      PartLeaves(ps[0], data);
      WithoutKeepsForm(data, Unbound(ps[0], data), data');
      PartsLeave(ps[1..], data');
      WithoutBoth(data, Unbound(ps[0], data), data', UnboundIn(ps[1..], data'), RenderParts(ps, data).data);
    }
  }

  lemma {:induction false} LoopLeaves(name: string, items: seq<JSON>, body: seq<Part>, data: JSON)
    requires NoIncludesIn(body) && WellFormed(data)
    ensures WithoutBut(data, UnboundInLoop(name, items, body, data), name, RenderLoop(name, items, body, data).data)
    decreases body, 2, |items|
  {
    if items != [] {
      var bound := Bind(data, name, items[0]);
      BindWellFormed(data, name, items[0]);
      PartsLeave(body, bound);
      var data' := RenderParts(body, bound).data;
      WithoutKeepsForm(bound, UnboundIn(body, bound), data');
      LoopLeaves(name, items[1..], body, data');
      if data.Object? {
        LoopStepLeaves(data, name, items[0], UnboundIn(body, bound), data',
                       UnboundInLoop(name, items[1..], body, data'), RenderLoop(name, items[1..], body, data').data);
      }
    }
  }

  lemma LoopStepLeaves(data: JSON, name: string, v: JSON, a: set<string>, data': JSON, b: set<string>, after: JSON)
    requires data.Object? && Without(Bind(data, name, v), a, data') && WithoutBut(data', b, name, after)
    ensures WithoutBut(data, a + b, name, after)
  {
    forall k | k != name ensures ValueAt(after, k) == if k in a + b then None else ValueAt(data, k) {
      BindValue(data, name, v, k);
    }
  }

  lemma {:induction false} BranchesLeave(bs: seq<Branch>, data: JSON)
    requires NoIncludesInBranches(bs) && WellFormed(data)
    ensures Without(data, UnboundInBranches(bs, data), RenderBranches(bs, data).data)
    decreases bs, 1
  {
    WithoutNothing(data);
    if bs != [] {
      if Applies(bs[0].cond, data) {
        PartsLeave(bs[0].body, data);
      } else {
        BranchesLeave(bs[1..], data);
      }
    }
  }

  /** Rendering leaves the data as it was exactly if no loop that ran has a key of the data as its
      variable. */
  lemma DataUnchangedIff(ps: seq<Part>, data: JSON)
    requires NoIncludesIn(ps) && WellFormed(data)
    ensures RenderParts(ps, data).data == data <==> forall k | k in UnboundIn(ps, data) :: ValueAt(data, k) == None
  {
    PartsLeave(ps, data);
    var after := RenderParts(ps, data).data;
    if data.Object? && forall k | k in UnboundIn(ps, data) :: ValueAt(data, k) == None {
      forall k ensures Get(after.fields, k) == Get(data.fields, k) {
        assert ValueAt(after, k) == ValueAt(data, k);
      }
      SortedExtensional(after.fields, data.fields);
    }
  }

  // ---------------------------------------------------------------- the meaning of a template

  function Denote(p: Part, env: JSON): string
    requires NoIncludes(p)
    decreases p, 0
  {
    match p
    case Text(content) => content
    case Echo(query) => EchoText(Find(env, query))
    case Logic(branches) => DenoteBranches(branches, env)
    case Loop(name, query, body) =>
      match LoopItems(env, query)
      case None => ""
      case Some(items) => DenoteLoop(name, items, body, env)
  }

  function DenoteAll(ps: seq<Part>, env: JSON): string
    requires NoIncludesIn(ps)
    decreases ps, 1
  {
    if ps == [] then "" else Denote(ps[0], env) + DenoteAll(ps[1..], env)
  }

  /** The body once for each item, each time with the variable added to the same environment. */
  function DenoteLoop(name: string, items: seq<JSON>, body: seq<Part>, env: JSON): string
    requires NoIncludesIn(body)
    decreases body, 2, |items|
  {
    if items == [] then ""
    else DenoteAll(body, Bind(env, name, items[0])) + DenoteLoop(name, items[1..], body, env)
  }

  function DenoteBranches(bs: seq<Branch>, env: JSON): string
    requires NoIncludesInBranches(bs)
    decreases bs, 1
  {
    if bs == [] then ""
    else if Applies(bs[0].cond, env) then DenoteAll(bs[0].body, env)
    else DenoteBranches(bs[1..], env)
  }

  /** No loop binds a name that is bound where it stands. */
  ghost predicate Apart(p: Part, bound: set<string>)
    decreases p, 0
  {
    match p
    case Loop(name, _, body) => name !in bound && AllApart(body, bound + {name})
    case Logic(branches) => BranchesApart(branches, bound)
    case _ => true
  }

  ghost predicate AllApart(ps: seq<Part>, bound: set<string>)
    decreases ps, 1
  {
    ps == [] || (Apart(ps[0], bound) && AllApart(ps[1..], bound))
  }

  ghost predicate BranchesApart(bs: seq<Branch>, bound: set<string>)
    decreases bs, 1
  {
    bs == [] || (AllApart(bs[0].body, bound) && BranchesApart(bs[1..], bound))
  }

  ghost predicate KeysIn(data: JSON, bound: set<string>) {
    forall k :: ValueAt(data, k).Some? ==> k in bound
  }

  lemma {:induction false} PartRefines(p: Part, data: JSON, bound: set<string>)
    requires NoIncludes(p) && WellFormed(data) && KeysIn(data, bound) && Apart(p, bound)
    ensures RenderPart(p, data) == Rendering(Denote(p, data), data)
    decreases p, 0
  {
    match p {
      case Loop(name, query, body) =>
        var items := LoopItems(data, query);
        if items.Some? {
          LoopRefines(name, items.value, body, data, data, bound);
        }
      case Logic(branches) => BranchesRefine(branches, data, bound);
      case _ =>
    }
  }

  /** With loop variables that are no keys of the data, and different ones in nested loops, rendering
      prints what the template means, and the data are unchanged afterwards. */
  lemma {:induction false} RenderRefines(ps: seq<Part>, data: JSON, bound: set<string>)
    requires NoIncludesIn(ps) && WellFormed(data) && KeysIn(data, bound) && AllApart(ps, bound)
    ensures RenderParts(ps, data) == Rendering(DenoteAll(ps, data), data)
    decreases ps, 1
  {
    if ps != [] {
      PartRefines(ps[0], data, bound);
      RenderRefines(ps[1..], data, bound);
    }
  }

  /** The data of a loop: those before it, perhaps with its variable. */
  ghost predicate BoundFrom(now: JSON, data: JSON, name: string) {
    now == data || exists v :: now == Bind(data, name, v)
  }

  lemma {:induction false} BindTwice<T>(fields: seq<Field<T>>, key: string, v: T, w: T)
    ensures Insert(Insert(fields, key, v), key, w) == Insert(fields, key, w)
  {
    if fields != [] && key != fields[0].key && !Less(key, fields[0].key) {
      BindTwice(fields[1..], key, v, w);
      assert Insert(fields, key, v)[1..] == Insert(fields[1..], key, v);
    } else if fields != [] && key != fields[0].key {
      assert Insert(fields, key, v)[1..] == fields;
    }
  }

  lemma {:induction false} RemoveUndoesInsert<T>(fields: seq<Field<T>>, key: string, v: T)
    requires Get(fields, key) == None
    ensures Remove(Insert(fields, key, v), key) == fields && Remove(fields, key) == fields
  {
    if fields != [] {
      RemoveUndoesInsert(fields[1..], key, v);
      if !Less(key, fields[0].key) {
        assert Insert(fields, key, v)[1..] == Insert(fields[1..], key, v);
      } else {
        assert Insert(fields, key, v)[1..] == fields;
      }
      assert fields == [fields[0]] + fields[1..];
    }
  }

  lemma UnbindRestores(now: JSON, data: JSON, name: string)
    requires BoundFrom(now, data, name) && ValueAt(data, name) == None
    ensures Unbind(now, name) == data
  {
    if data.Object? {
      RemoveUndoesInsert(data.fields, name, EMPTY);
      if now != data {
        var v :| now == Bind(data, name, v);
        RemoveUndoesInsert(data.fields, name, v);
      }
    }
  }

  lemma Rebind(now: JSON, data: JSON, name: string, v: JSON)
    requires BoundFrom(now, data, name)
    ensures Bind(now, name, v) == Bind(data, name, v)
  {
    if now != data && data.Object? {
      var w :| now == Bind(data, name, w);
      BindTwice(data.fields, name, w, v);
    }
  }

  lemma BindAddsKey(data: JSON, name: string, v: JSON, bound: set<string>)
    requires KeysIn(data, bound)
    ensures KeysIn(Bind(data, name, v), bound + {name})
  {
    forall k | ValueAt(Bind(data, name, v), k).Some? ensures k in bound + {name} {
      if data.Object? {
        BindValue(data, name, v, k);
      }
    }
  }

  lemma {:induction false} LoopRefines(name: string, items: seq<JSON>, body: seq<Part>, now: JSON, data: JSON,
                                       bound: set<string>)
    requires NoIncludesIn(body) && WellFormed(data) && KeysIn(data, bound)
    requires name !in bound && AllApart(body, bound + {name}) && BoundFrom(now, data, name)
    ensures var r := RenderLoop(name, items, body, now);
            r.text == DenoteLoop(name, items, body, data) && Unbind(r.data, name) == data
    decreases body, 2, |items|
  {
    if items == [] {
      UnbindRestores(now, data, name);
    } else {
      var next := Bind(data, name, items[0]);
      Rebind(now, data, name, items[0]);
      BindWellFormed(data, name, items[0]);
      BindAddsKey(data, name, items[0], bound);
      RenderRefines(body, next, bound + {name});
      LoopRefines(name, items[1..], body, next, data, bound);
    }
  }

  lemma {:induction false} BranchesRefine(bs: seq<Branch>, data: JSON, bound: set<string>)
    requires NoIncludesInBranches(bs) && WellFormed(data) && KeysIn(data, bound) && BranchesApart(bs, bound)
    ensures RenderBranches(bs, data) == Rendering(DenoteBranches(bs, data), data)
    decreases bs, 1
  {
    if bs != [] {
      RenderRefines(bs[0].body, data, bound);
      BranchesRefine(bs[1..], data, bound);
    }
  }

  // ---------------------------------------------------------------- where the two differ

  ghost predicate IsPlainName(name: string) {
    name != "" && forall i | 0 <= i < |name| :: name[i] != '.' && name[i] != '['
  }

  lemma FindPlain(data: JSON, name: string)
    requires data.Object? && IsPlainName(name)
    ensures Find(data, name) == Member(data.fields, name)
  {
    SplitLast(name);
    NameIsSkipped(name, "");
    assert name + "" == name;
    assert [name][1..] == [];
    assert FindTokens(Member(data.fields, name), []) == Member(data.fields, name);
  }

  /** A loop whose variable is already bound, by the data or by an outer loop, takes it away, even when
      there is nothing to loop over: what follows prints nothing where its meaning is the old value. */
  lemma LoopTakesVariable(data: JSON, name: string, query: string, v: string)
    requires data.Object? && WellFormed(data) && IsPlainName(name) && IsPlainName(query)
    requires Get(data.fields, query) == Some(Array([])) && Get(data.fields, name) == Some(Leaf(Str(v)))
    ensures NoIncludesIn([Loop(name, query, []), Echo(name)])
    ensures DenoteAll([Loop(name, query, []), Echo(name)], data) == v
    ensures RenderParts([Loop(name, query, []), Echo(name)], data) == Rendering("", Unbind(data, name))
  {
    var loop, echo, after := Loop(name, query, []), Echo(name), Unbind(data, name);
    FindPlain(data, query);
    FindPlain(data, name);
    FindPlain(after, name);
    UnbindValue(data, name, name);
    assert LoopItems(data, query) == Some([]);
    assert RenderPart(loop, data) == Rendering("", after) && Denote(loop, data) == "";
    assert RenderPart(echo, after) == Rendering("", after) && Denote(echo, data) == v;
    RenderTwo(loop, echo, data, "", after, "", after);
    DenoteTwo(loop, echo, data, "", v);
    assert "" + v == v;
  }

  lemma RenderTwo(p: Part, q: Part, data: JSON, s: string, d1: JSON, t: string, d2: JSON)
    requires NoIncludes(p) && NoIncludes(q)
    requires RenderPart(p, data) == Rendering(s, d1) && RenderPart(q, d1) == Rendering(t, d2)
    ensures NoIncludesIn([p, q]) && RenderParts([p, q], data) == Rendering(s + t, d2)
  {
    assert [p, q][1..] == [q] && [q][1..] == [];
    assert NoIncludesIn([q]);
    assert t + "" == t;
    assert RenderParts([q], d1) == Rendering(t, d2);
  }

  lemma DenoteTwo(p: Part, q: Part, env: JSON, s: string, t: string)
    requires NoIncludes(p) && NoIncludes(q) && Denote(p, env) == s && Denote(q, env) == t
    ensures NoIncludesIn([p, q]) && DenoteAll([p, q], env) == s + t
  {
    assert [p, q][1..] == [q] && [q][1..] == [];
    assert NoIncludesIn([q]);
    assert t + "" == t;
    assert DenoteAll([q], env) == t;
  }

  // ---------------------------------------------------------------- the methods

  /** A `JSON::Object` that a template is rendered with. */
  class DataObject {
    var fields: seq<Field<JSON>>

    constructor (fields: seq<Field<JSON>>)
      ensures this.fields == fields
    {
      this.fields := fields;
    }

    method Set(key: string, value: JSON)
      modifies this
      ensures fields == Insert(old(fields), key, value)
    {
      fields := Insert(fields, key, value);
    }

    method Remove(key: string)
      modifies this
      ensures fields == JsonValue.Remove(old(fields), key)
    {
      fields := JsonValue.Remove(fields, key);
    }
  }

  /** The `Var` given to `render`: a shared pointer to an object, or another value. */
  datatype Data = Shared(obj: DataObject) | Other(value: JSON)

  function ValueOf(data: Data): JSON
    reads if data.Shared? then {data.obj} else {}
  {
    match data
    case Shared(obj) => Object(obj.fields)
    case Other(value) => value
  }

  ghost function Touched(data: Data): set<object> {
    if data.Shared? then {data.obj} else {}
  }

  ghost predicate IsData(data: Data) {
    data.Other? ==> !data.value.Object?
  }

  /** `LogicQuery::apply` */
  method Apply(cond: Cond, data: Data) returns (r: bool)
    ensures r <==> Applies(cond, ValueOf(data))
  {
    match cond {
      case Otherwise =>
        return true;
      case Truth(query) =>
        var v := FindValue(ValueOf(data), query);
        return IsTrue(v);
      case Exists(query) =>
        var v := FindValue(ValueOf(data), query);
        return v != EMPTY;
    }
  }

  lemma FollowingTwice(a: string, b: string, r: Rendering)
    ensures Following(a + b, r) == Following(a, Following(b, r))
  {
    assert a + b + r.text == a + (b + r.text);
  }
}
