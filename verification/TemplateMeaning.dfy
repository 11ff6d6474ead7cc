/** What commands mean for a path of names and indexes: what an echo prints of each kind of value, which
    values choose a branch, and the rounds of a loop. */
module TemplateMeaning {
  import opened TextStream
  import opened JsonValue
  import opened JsonPrinter
  import opened TemplateSyntax
  import opened TemplateQuery
  import opened TemplateRender

  // ---------------------------------------------------------------- where a path leads

  ghost predicate ArePath(hops: seq<Hop>) {
    hops != [] && forall i | 0 <= i < |hops| :: IsHop(hops[i])
  }

  /** A null stays; a name leads into an object, to null if it has no such key, and not away from
      anything else; the same for an index and an array. */
  function AfterName(v: JSON, name: string): JSON {
    if !v.Object? then v
    else match Get(v.fields, name) case Some(w) => w case None => Leaf(Null)
  }

  function AfterIndex(v: JSON, index: nat): JSON {
    if !v.Array? then v else if index < |v.items| then v.items[index] else Leaf(Null)
  }

  function AfterIndexes(v: JSON, indexes: seq<nat>): JSON
    decreases |indexes|
  {
    if indexes == [] then v else AfterIndexes(AfterIndex(v, indexes[0]), indexes[1..])
  }

  function Reach(v: JSON, hops: seq<Hop>): JSON
    decreases |hops|
  {
    if hops == [] then v else Reach(AfterIndexes(AfterName(v, hops[0].name), hops[0].indexes), hops[1..])
  }

  lemma {:induction false} NullStays(hops: seq<Hop>)
    ensures Reach(Leaf(Null), hops) == Leaf(Null)
    decreases |hops|
  {
    if hops != [] {
      NullHasNoIndex(hops[0].indexes);
      NullStays(hops[1..]);
    }
  }

  lemma {:induction false} NullHasNoIndex(indexes: seq<nat>)
    ensures AfterIndexes(Leaf(Null), indexes) == Leaf(Null)
    decreases |indexes|
  {
    if indexes != [] {
      NullHasNoIndex(indexes[1..]);
    }
  }

  lemma {:induction false} IndexesAreFound(v: JSON, indexes: seq<nat>)
    ensures FindIndexes(v, indexes) == AfterIndexes(v, indexes)
    decreases |indexes|
  {
    if v == Leaf(Null) {
      NullHasNoIndex(indexes);
    } else if indexes != [] {
      IndexesAreFound(AfterIndex(v, indexes[0]), indexes[1..]);
    }
  }

  lemma HopIsReached(v: JSON, h: Hop)
    requires IsHop(h)
    ensures FindToken(v, HopText(h)) == AfterIndexes(AfterName(v, h.name), h.indexes)
  {
    HopIsRead(h);
    IndexesAreFound(AfterName(v, h.name), h.indexes);
  }

  /** Whatever the data, the text of a path leads where its names and indexes lead. */
  lemma {:induction false} FindIsReach(v: JSON, hops: seq<Hop>)
    requires ArePath(hops)
    ensures Find(v, PathText(hops)) == Reach(v, hops)
    decreases |hops|
  {
    var h := hops[0];
    IndexesTextHasNoDot(h.indexes);
    HopIsReached(v, h);
    var w := FindToken(v, HopText(h));
    if |hops| == 1 {
      SplitLast(HopText(h));
      assert hops[1..] == [] && [HopText(h)][1..] == [];
      assert FindTokens(w, []) == w && Reach(w, []) == w;
    } else {
      var tail := PathText(hops[1..]);
      SplitHop(HopText(h), tail);
      FindIsReach(w, hops[1..]);
      assert ([HopText(h)] + Split(tail))[1..] == Split(tail);
    }
  }

  /** Steps that all exist lead to the value at their end. */
  lemma {:induction false} LookupIsReach(v: JSON, hops: seq<Hop>)
    requires Lookup(v, hops).Some?
    ensures Reach(v, hops) == Lookup(v, hops).value
    decreases |hops|
  {
    if hops != [] {
      var w := Get(v.fields, hops[0].name).value;
      WalkIsIndexes(w, hops[0].indexes);
      LookupIsReach(Walk(w, hops[0].indexes).value, hops[1..]);
    }
  }

  lemma {:induction false} WalkIsIndexes(v: JSON, indexes: seq<nat>)
    requires Walk(v, indexes).Some?
    ensures AfterIndexes(v, indexes) == Walk(v, indexes).value
    decreases |indexes|
  {
    if indexes != [] {
      WalkIsIndexes(v.items[indexes[0]], indexes[1..]);
    }
  }

  /** An index that an array does not have, or one of anything else. */
  ghost predicate NoIndex(v: JSON, indexes: seq<nat>, j: nat)
    requires j < |indexes|
  {
    var w := AfterIndexes(v, indexes[..j]);
    !w.Array? || indexes[j] >= |w.items|
  }

  ghost predicate NoStep(v: JSON, h: Hop) {
    || !v.Object? || Get(v.fields, h.name) == None
    || exists j :: 0 <= j < |h.indexes| && NoIndex(Get(v.fields, h.name).value, h.indexes, j)
  }

  lemma {:induction false} WalkFails(v: JSON, indexes: seq<nat>) returns (j: nat)
    requires Walk(v, indexes) == None
    ensures j < |indexes| && NoIndex(v, indexes, j)
    decreases |indexes|
  {
    if v.Array? && indexes[0] < |v.items| {
      var k := WalkFails(v.items[indexes[0]], indexes[1..]);
      j := k + 1;
      assert indexes[..j][1..] == indexes[1..][..k];
    } else {
      j := 0;
      assert indexes[..0] == [];
    }
  }

  /** A lookup finds nothing only where a step does not exist. */
  lemma {:induction false} LookupFails(v: JSON, hops: seq<Hop>) returns (i: nat)
    requires Lookup(v, hops) == None
    ensures i < |hops| && NoStep(Reach(v, hops[..i]), hops[i])
    decreases |hops|
  {
    var h := hops[0];
    i := 0;
    assert hops[..0] == [];
    if v.Object? && Get(v.fields, h.name).Some? {
      var x := Get(v.fields, h.name).value;
      if Walk(x, h.indexes).Some? {
        WalkIsIndexes(x, h.indexes);
        var k := LookupFails(Walk(x, h.indexes).value, hops[1..]);
        i := k + 1;
        assert hops[..i][0] == h && hops[..i][1..] == hops[1..][..k];
      } else {
        var j := WalkFails(x, h.indexes);
        assert NoIndex(x, h.indexes, j);
      }
    }
  }

  // ---------------------------------------------------------------- texts, and parts in a row

  /** Parts in a row print in a row, each on the data that those before it have left. */
  lemma {:induction false} RenderConcat(ps: seq<Part>, qs: seq<Part>, data: JSON)
    requires NoIncludesIn(ps) && NoIncludesIn(qs)
    ensures NoIncludesIn(ps + qs)
    ensures var r := RenderParts(ps, data);
            var more := RenderParts(qs, r.data);
            RenderParts(ps + qs, data) == Rendering(r.text + more.text, more.data)
    decreases |ps|
  {
    if ps == [] {
      assert ps + qs == qs;
      assert "" + RenderParts(qs, data).text == RenderParts(qs, data).text;
    } else {
      assert (ps + qs)[0] == ps[0] && (ps + qs)[1..] == ps[1..] + qs;
      var first := RenderPart(ps[0], data);
      RenderConcat(ps[1..], qs, first.data);
      var rest := RenderParts(ps[1..], first.data);
      Assoc(first.text, rest.text, RenderParts(qs, rest.data).text);
    }
  }

  lemma TextPrints(content: string, data: JSON)
    ensures NoIncludesIn([Text(content)]) && RenderParts([Text(content)], data) == Rendering(content, data)
  {
    RenderOne(Text(content), data);
  }

  // ---------------------------------------------------------------- echo

  lemma RenderOne(p: Part, data: JSON)
    requires NoIncludes(p)
    ensures NoIncludesIn([p]) && RenderParts([p], data) == RenderPart(p, data)
    ensures DenoteAll([p], data) == Denote(p, data)
  {
    assert [p][1..] == [] && NoIncludesIn([]);
    assert RenderPart(p, data).text + "" == RenderPart(p, data).text;
    assert Denote(p, data) + "" == Denote(p, data);
    assert RenderParts([], RenderPart(p, data).data) == Rendering("", RenderPart(p, data).data);
  }

  /** An echo prints nothing for null, a string as it is, words for truth values, integers in decimals,
      and an object or an array as JSON with an indentation of two. */
  lemma EchoPrints(data: JSON, hops: seq<Hop>)
    requires ArePath(hops)
    ensures NoIncludesIn([Echo(PathText(hops))])
    ensures var r := RenderParts([Echo(PathText(hops))], data);
            && r.data == data
            && match Reach(data, hops)
               case Leaf(Null) => r.text == ""
               case Leaf(Bool(b)) => r.text == if b then "true" else "false"
               case Leaf(Int(n)) => IsIntText(r.text) && IntValue(r.text) == n
               case Leaf(Long(n)) => IsIntText(r.text) && IntValue(r.text) == n
               case Leaf(Float(text)) => r.text == text
               case Leaf(Str(s)) => r.text == s
               case v => r.text == PrintContainer(v, 2)
  {
    FindIsReach(data, hops);
    RenderOne(Echo(PathText(hops)), data);
    match Reach(data, hops) {
      case Leaf(Int(n)) => IntTextIsCanonical(n);
      case Leaf(Long(n)) => IntTextIsCanonical(n);
      case _ =>
    }
  }

  // ---------------------------------------------------------------- branches

  /** A float whose digits up to the exponent are zeros. */
  ghost predicate IsZero(text: string) {
    exists k | 0 <= k <= |text| :: ZerosUpto(text, k)
  }

  /** The exponent, if there is one, begins at `k`. */
  ghost predicate ZerosUpto(text: string, k: nat)
    requires k <= |text|
  {
    (forall i | 0 <= i < k :: text[i] in "-0.") && (k == |text| || text[k] in "eE")
  }

  lemma {:induction false} ZeroTextIff(text: string)
    ensures IsZeroText(text) <==> IsZero(text)
  {
    if IsZeroText(text) {
      var k := Mantissa(text);
    }
    if IsZero(text) && text != "" && !(text[0] in "eE") {
      var k :| 0 <= k <= |text| && ZerosUpto(text, k);
      assert k > 0 && text[0] in "-0.";
      assert forall i | 0 <= i < k - 1 :: text[1..][i] == text[i + 1];
      assert ZerosUpto(text[1..], k - 1);
      ZeroTextIff(text[1..]);
    }
  }

  lemma {:induction false} Mantissa(text: string) returns (k: nat)
    requires IsZeroText(text)
    ensures k <= |text| && ZerosUpto(text, k)
  {
    k := 0;
    if text != "" && !(text[0] in "eE") {
      var n := Mantissa(text[1..]);
      k := n + 1;
    }
  }

  /** The values that do not choose a branch. */
  ghost predicate IsFalse(v: JSON) {
    || v in {Leaf(Null), Leaf(Bool(false)), Leaf(Int(0)), Leaf(Long(0)), Leaf(Str("")), Array([]), Object([])}
    || (v.Leaf? && v.scalar.Float? && IsZero(v.scalar.text))
  }

  /** `if`, with an `else`: the first body unless the path leads to a false value. */
  lemma IfChooses(data: JSON, hops: seq<Hop>, yes: seq<Part>, no: seq<Part>)
    requires ArePath(hops) && NoIncludesIn(yes) && NoIncludesIn(no)
    ensures var p := Logic([Branch(Truth(PathText(hops)), yes), Branch(Otherwise, no)]);
            && NoIncludesIn([p])
            && RenderParts([p], data) == RenderParts(if IsFalse(Reach(data, hops)) then no else yes, data)
  {
    FindIsReach(data, hops);
    TruthIff(Reach(data, hops));
    TwoBranches(Truth(PathText(hops)), yes, no, data);
  }

  /** `ifexist`, with an `else`: the first body unless the path leads to null. */
  lemma IfExistChooses(data: JSON, hops: seq<Hop>, yes: seq<Part>, no: seq<Part>)
    requires ArePath(hops) && NoIncludesIn(yes) && NoIncludesIn(no)
    ensures var p := Logic([Branch(Exists(PathText(hops)), yes), Branch(Otherwise, no)]);
            && NoIncludesIn([p])
            && RenderParts([p], data) == RenderParts(if Reach(data, hops) == Leaf(Null) then no else yes, data)
  {
    FindIsReach(data, hops);
    TwoBranches(Exists(PathText(hops)), yes, no, data);
  }

  lemma TruthIff(v: JSON)
    ensures IsTrue(v) <==> !IsFalse(v)
  {
    if v.Leaf? && v.scalar.Float? {
      ZeroTextIff(v.scalar.text);
    }
  }

  lemma TwoBranches(cond: Cond, yes: seq<Part>, no: seq<Part>, data: JSON)
    requires NoIncludesIn(yes) && NoIncludesIn(no)
    ensures var p := Logic([Branch(cond, yes), Branch(Otherwise, no)]);
            NoIncludesIn([p]) && RenderParts([p], data) == RenderParts(if Applies(cond, data) then yes else no, data)
  {
    var a, b := Branch(cond, yes), Branch(Otherwise, no);
    assert [a, b][1..] == [b] && [b][1..] == [];
    assert NoIncludesInBranches([]) && NoIncludesInBranches([b]) && NoIncludesInBranches([a, b]);
    assert RenderBranches([b], data) == RenderParts(no, data);
    RenderOne(Logic([a, b]), data);
  }

  // ---------------------------------------------------------------- loops

  /** The body for the first `n` items, each time with the variable added to the same data. */
  ghost function Rounds(name: string, items: seq<JSON>, body: seq<Part>, data: JSON, n: nat): string
    requires NoIncludesIn(body) && n <= |items|
  {
    if n == 0 then ""
    else Rounds(name, items, body, data, n - 1) + DenoteAll(body, Bind(data, name, items[n - 1]))
  }

  lemma {:induction false} RoundsFirst(name: string, items: seq<JSON>, body: seq<Part>, data: JSON, n: nat)
    requires NoIncludesIn(body) && 0 < n <= |items|
    ensures Rounds(name, items, body, data, n)
         == DenoteAll(body, Bind(data, name, items[0])) + Rounds(name, items[1..], body, data, n - 1)
    decreases n
  {
    var first := DenoteAll(body, Bind(data, name, items[0]));
    if n == 1 {
      assert "" + first == first && first + "" == first;
    } else {
      var last := DenoteAll(body, Bind(data, name, items[n - 1]));
      RoundsFirst(name, items, body, data, n - 1);
      assert items[1..][n - 2] == items[n - 1];
      Assoc(first, Rounds(name, items[1..], body, data, n - 2), last);
    }
  }

  lemma {:induction false} LoopIsRounds(name: string, items: seq<JSON>, body: seq<Part>, data: JSON)
    requires NoIncludesIn(body)
    ensures DenoteLoop(name, items, body, data) == Rounds(name, items, body, data, |items|)
    decreases |items|
  {
    if items != [] {
      LoopIsRounds(name, items[1..], body, data);
      RoundsFirst(name, items, body, data, |items|);
    }
  }

  /** A loop over an array means its body once for each item, from the first to the last; a loop over
      anything else means nothing. */
  lemma LoopMeans(data: JSON, name: string, hops: seq<Hop>, body: seq<Part>)
    requires ArePath(hops) && NoIncludesIn(body)
    ensures NoIncludesIn([Loop(name, PathText(hops), body)])
    ensures var v := Reach(data, hops);
            && DenoteAll([Loop(name, PathText(hops), body)], data)
            == if data.Object? && v.Array? then Rounds(name, v.items, body, data, |v.items|) else ""
  {
    FindIsReach(data, hops);
    RenderOne(Loop(name, PathText(hops), body), data);
    if data.Object? && Reach(data, hops).Array? {
      LoopIsRounds(name, Reach(data, hops).items, body, data);
    }
  }

  /** What rendering does in the first `n` rounds: each begins with what the round before has left. */
  ghost function RoundsDone(name: string, items: seq<JSON>, body: seq<Part>, data: JSON, n: nat): Rendering
    requires NoIncludesIn(body) && n <= |items|
  {
    if n == 0 then Rendering("", data)
    else
      var before := RoundsDone(name, items, body, data, n - 1);
      var r := RenderParts(body, Bind(before.data, name, items[n - 1]));
      Rendering(before.text + r.text, r.data)
  }

  lemma {:induction false} RoundsDoneFirst(name: string, items: seq<JSON>, body: seq<Part>, data: JSON, n: nat)
    requires NoIncludesIn(body) && 0 < n <= |items|
    ensures var r := RenderParts(body, Bind(data, name, items[0]));
            var more := RoundsDone(name, items[1..], body, r.data, n - 1);
            RoundsDone(name, items, body, data, n) == Rendering(r.text + more.text, more.data)
    decreases n
  {
    var r := RenderParts(body, Bind(data, name, items[0]));
    if n == 1 {
      assert "" + r.text == r.text && r.text + "" == r.text;
    } else {
      RoundsDoneFirst(name, items, body, data, n - 1);
      var more := RoundsDone(name, items[1..], body, r.data, n - 2);
      assert items[1..][n - 2] == items[n - 1];
      Assoc(r.text, more.text, RenderParts(body, Bind(more.data, name, items[n - 1])).text);
    }
  }

  lemma {:induction false} LoopIsRoundsDone(name: string, items: seq<JSON>, body: seq<Part>, data: JSON)
    requires NoIncludesIn(body)
    ensures RenderLoop(name, items, body, data) == RoundsDone(name, items, body, data, |items|)
    decreases |items|
  {
    if items != [] {
      var r := RenderParts(body, Bind(data, name, items[0]));
      LoopIsRoundsDone(name, items[1..], body, r.data);
      RoundsDoneFirst(name, items, body, data, |items|);
    }
  }

  /** What a loop does to the data: the rounds, and then the variable is gone. */
  lemma LoopDoes(data: JSON, name: string, hops: seq<Hop>, body: seq<Part>)
    requires ArePath(hops) && NoIncludesIn(body)
    ensures NoIncludesIn([Loop(name, PathText(hops), body)])
    ensures var v := Reach(data, hops);
            && RenderParts([Loop(name, PathText(hops), body)], data)
            == if data.Object? && v.Array? then
                 var done := RoundsDone(name, v.items, body, data, |v.items|);
                 Rendering(done.text, Unbind(done.data, name))
               else Rendering("", data)
  {
    FindIsReach(data, hops);
    RenderOne(Loop(name, PathText(hops), body), data);
    if data.Object? && Reach(data, hops).Array? {
      LoopIsRoundsDone(name, Reach(data, hops).items, body, data);
    }
  }
}
