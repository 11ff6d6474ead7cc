/** `Query::find`: following a path such as `person.children[0].name` through a JSON value. */
module TemplateQuery {
  import opened TextStream
  import opened JsonValue

  /** An empty `Dynamic::Var`: what a missing key gives, and a JSON null. */
  const EMPTY := Leaf(Null)

  /** `Object::get` */
  function Member(fields: seq<Field<JSON>>, key: string): JSON {
    match Get(fields, key)
    case None => EMPTY
    case Some(v) => v
  }

  /** `Array::get` */
  function Element(items: seq<JSON>, index: nat): JSON {
    if index < |items| then items[index] else EMPTY
  }

  // ---------------------------------------------------------------- paths

  /** The `StringTokenizer` with "." as its separator. */
  function Split(path: string): (tokens: seq<string>)
    ensures tokens != []
  {
    if path == [] then [""]
    else
      var rest := Split(path[1..]);
      if path[0] == '.' then [""] + rest else [[path[0]] + rest[0]] + rest[1..]
  }

  predicate AllDigits(s: string) { forall c | c in s :: IsDigit(c) }

  function DigitRun(s: string): (d: string)
    ensures AllDigits(d) && d <= s
  {
    if s == [] || !IsDigit(s[0]) then "" else [s[0]] + DigitRun(s[1..])
  }

  /** A match of the regular expression `\[([0-9]+)\]`, with what is before and after it. */
  datatype Match = Match(before: string, digits: string, rest: string)

  function FirstMatch(s: string): (m: Option<Match>)
    ensures m.Some? ==> AllDigits(m.value.digits) && |m.value.rest| < |s|
  {
    if s == [] then None
    else
      var d := if s[0] == '[' then DigitRun(s[1..]) else "";
      if d != "" && |d| + 1 < |s| && s[|d| + 1] == ']' then Some(Match("", d, s[|d| + 2..]))
      else match FirstMatch(s[1..])
        case None => None
        case Some(m) => Some(m.(before := [s[0]] + m.before))
  }

  /** The numbers in brackets. */
  function Indexes(s: string): seq<nat>
    decreases |s|
  {
    match FirstMatch(s)
    case None => []
    case Some(m) => [Saturated(NatValue(m.digits))] + Indexes(m.rest)
  }

  /** What precedes the first number in brackets. */
  function NameOf(s: string): string {
    match FirstMatch(s)
    case None => s
    case Some(m) => m.before
  }

  // ---------------------------------------------------------------- finding

  /** Indexes into anything but an array are passed over. */
  function FindIndexes(v: JSON, indexes: seq<nat>): JSON
    decreases |indexes|
  {
    if v == EMPTY || indexes == [] then v
    else FindIndexes(if v.Array? then Element(v.items, indexes[0]) else v, indexes[1..])
  }

  /** A name in anything but an object is passed over. */
  function FindName(v: JSON, name: string): JSON {
    if name != "" && v.Object? then Member(v.fields, name) else v
  }

  function FindToken(v: JSON, token: string): JSON {
    if v == EMPTY then v else FindIndexes(FindName(v, NameOf(token)), Indexes(token))
  }

  function FindTokens(v: JSON, tokens: seq<string>): JSON
    decreases |tokens|
  {
    if tokens == [] then v else FindTokens(FindToken(v, tokens[0]), tokens[1..])
  }

  function Find(source: JSON, path: string): JSON {
    FindTokens(source, Split(path))
  }

  // ---------------------------------------------------------------- the method

  /** The inner loop of `find` over the matches of one token. */
  method ReadIndexes(token: string) returns (name: string, indexes: seq<nat>)
    ensures name == NameOf(token) && indexes == Indexes(token)
  {
    name, indexes := NameOf(token), [];
    var rest, found := token, FirstMatch(token);
    while found.Some?
      invariant found == FirstMatch(rest)
      invariant indexes + Indexes(rest) == Indexes(token)
      decreases |rest|
    {
      var index := Saturated(NatValue(found.value.digits));
      OneMore(Indexes(token), indexes, index, Indexes(found.value.rest));
      indexes := indexes + [index];
      rest := found.value.rest;
      found := FirstMatch(rest);
    }
  }

  lemma OneMore(all: seq<nat>, done: seq<nat>, next: nat, rest: seq<nat>)
    requires all == done + ([next] + rest)
    ensures all == done + [next] + rest
  {
  }

  /** The loop of `find` over the indexes of one token. */
  method FollowIndexes(v: JSON, indexes: seq<nat>) returns (result: JSON)
    ensures result == FindIndexes(v, indexes)
  {
    result := v;
    var i := 0;
    while i < |indexes| && result != EMPTY
      invariant 0 <= i <= |indexes|
      invariant FindIndexes(result, indexes[i..]) == FindIndexes(v, indexes)
    {
      if result.Array? {
        result := Element(result.items, indexes[i]);
      }
      assert indexes[i..][1..] == indexes[i + 1..];
      i := i + 1;
    }
  }

  /** `find` */
  method FindValue(source: JSON, path: string) returns (value: JSON)
    ensures value == Find(source, path)
  {
    value := source;
    var tokens := Split(path);
    for i := 0 to |tokens|
      invariant FindTokens(value, tokens[i..]) == Find(source, path)
    {
      assert tokens[i..][1..] == tokens[i + 1..];
      if value != EMPTY {
        var name, indexes := ReadIndexes(tokens[i]);
        if name != "" && value.Object? {
          value := Member(value.fields, name);
        }
        value := FollowIndexes(value, indexes);
      }
    }
  }

  // ---------------------------------------------------------------- a path leads to its value

  /** One name and the indexes after it. */
  datatype Hop = Hop(name: string, indexes: seq<nat>)

  function IndexesText(indexes: seq<nat>): string {
    if indexes == [] then "" else "[" + Digits(indexes[0]) + "]" + IndexesText(indexes[1..])
  }

  function HopText(h: Hop): string {
    h.name + IndexesText(h.indexes)
  }

  function PathText(hops: seq<Hop>): string
    requires hops != []
  {
    if |hops| == 1 then HopText(hops[0]) else HopText(hops[0]) + "." + PathText(hops[1..])
  }

  /** The value at the end of a path, if every step of it exists. */
  function Walk(v: JSON, indexes: seq<nat>): Option<JSON>
    decreases |indexes|
  {
    if indexes == [] then Some(v)
    else if v.Array? && indexes[0] < |v.items| then Walk(v.items[indexes[0]], indexes[1..])
    else None
  }

  function Lookup(v: JSON, hops: seq<Hop>): Option<JSON>
    decreases |hops|
  {
    if hops == [] then Some(v)
    else if !v.Object? || Get(v.fields, hops[0].name) == None then None
    else
      var w := Walk(Get(v.fields, hops[0].name).value, hops[0].indexes);
      if w == None then None else Lookup(w.value, hops[1..])
  }

  /** Names without a dot or a bracket, and indexes that are `int`s. */
  ghost predicate IsHop(h: Hop) {
    && h.name != "" && (forall i | 0 <= i < |h.name| :: h.name[i] != '.' && h.name[i] != '[')
    && (forall i | 0 <= i < |h.indexes| :: h.indexes[i] <= INT_MAX)
  }

  lemma {:induction false} SplitHop(a: string, rest: string)
    requires forall i | 0 <= i < |a| :: a[i] != '.'
    ensures Split(a + "." + rest) == [a] + Split(rest)
  {
    var s := a + "." + rest;
    if a == [] {
      assert s[1..] == rest;
    } else {
      assert s[1..] == a[1..] + "." + rest;
      SplitHop(a[1..], rest);
      assert [a[0]] + a[1..] == a;
    }
  }

  lemma {:induction false} SplitLast(a: string)
    requires forall i | 0 <= i < |a| :: a[i] != '.'
    ensures Split(a) == [a]
  {
    if a != [] {
      SplitLast(a[1..]);
      assert [a[0]] + a[1..] == a;
    }
  }

  lemma {:induction false} IndexesTextHasNoDot(indexes: seq<nat>)
    ensures forall i | 0 <= i < |IndexesText(indexes)| :: IndexesText(indexes)[i] != '.'
    ensures indexes == [] || IndexesText(indexes)[0] == '['
  {
    if indexes != [] {
      DigitsAreCanonical(indexes[0]);
      IndexesTextHasNoDot(indexes[1..]);
      assert forall i | 0 <= i < |Digits(indexes[0])| :: Digits(indexes[0])[i] in Digits(indexes[0]);
    }
  }

  lemma {:induction false} DigitRunIs(d: string, rest: string)
    requires AllDigits(d) && rest != [] && !IsDigit(rest[0])
    ensures DigitRun(d + rest) == d
  {
    if d == [] {
      assert d + rest == rest;
    } else {
      assert d[0] in d;
      assert (d + rest)[1..] == d[1..] + rest;
      DigitRunIs(d[1..], rest);
    }
  }

  lemma {:induction false} NameIsSkipped(name: string, rest: string)
    requires forall i | 0 <= i < |name| :: name[i] != '['
    ensures FirstMatch(name + rest) ==
            match FirstMatch(rest)
            case None => None
            case Some(m) => Some(m.(before := name + m.before))
  {
    if name == [] {
      assert name + rest == rest;
      assert FirstMatch(rest).Some? ==> "" + FirstMatch(rest).value.before == FirstMatch(rest).value.before;
    } else {
      assert (name + rest)[1..] == name[1..] + rest;
      NameIsSkipped(name[1..], rest);
      var m := FirstMatch(rest);
      assert m.Some? ==> [name[0]] + (name[1..] + m.value.before) == name + m.value.before;
    }
  }

  lemma BracketIsMatched(d: string, rest: string)
    requires AllDigits(d) && d != []
    ensures FirstMatch("[" + d + "]" + rest) == Some(Match("", d, rest))
  {
    var s := "[" + d + "]" + rest;
    assert s[1..] == d + ("]" + rest);
    DigitRunIs(d, "]" + rest);
    assert s[|d| + 2..] == rest;
  }

  /** The numbers in brackets are read back. */
  lemma {:induction false} IndexesAreRead(indexes: seq<nat>)
    requires forall i | 0 <= i < |indexes| :: indexes[i] <= INT_MAX
    ensures Indexes(IndexesText(indexes)) == indexes
  {
    if indexes != [] {
      DigitsAreCanonical(indexes[0]);
      BracketIsMatched(Digits(indexes[0]), IndexesText(indexes[1..]));
      IndexesAreRead(indexes[1..]);
    }
  }

  lemma HopIsRead(h: Hop)
    requires IsHop(h)
    ensures NameOf(HopText(h)) == h.name && Indexes(HopText(h)) == h.indexes
  {
    NameIsSkipped(h.name, IndexesText(h.indexes));
    IndexesAreRead(h.indexes);
    if h.indexes == [] {
      assert HopText(h) == h.name;
    } else {
      DigitsAreCanonical(h.indexes[0]);
      BracketIsMatched(Digits(h.indexes[0]), IndexesText(h.indexes[1..]));
      assert h.name + "" == h.name;
    }
  }

  lemma {:induction false} WalkIsFound(v: JSON, indexes: seq<nat>)
    requires Walk(v, indexes).Some? && Walk(v, indexes).value != EMPTY
    ensures FindIndexes(v, indexes) == Walk(v, indexes).value
    decreases |indexes|
  {
    if indexes != [] {
      WalkIsFound(v.items[indexes[0]], indexes[1..]);
    }
  }

  lemma HopIsFound(v: JSON, h: Hop)
    requires IsHop(h) && v.Object? && Get(v.fields, h.name).Some?
    requires var w := Walk(Get(v.fields, h.name).value, h.indexes); w.Some? && w.value != EMPTY
    ensures FindToken(v, HopText(h)) == Walk(Get(v.fields, h.name).value, h.indexes).value
  {
    HopIsRead(h);
    WalkIsFound(Get(v.fields, h.name).value, h.indexes);
  }

  /** A path whose steps all exist leads to its value. */
  lemma {:induction false} FindFollowsPath(v: JSON, hops: seq<Hop>)
    requires hops != [] && (forall i | 0 <= i < |hops| :: IsHop(hops[i]))
    requires Lookup(v, hops).Some? && Lookup(v, hops).value != EMPTY
    ensures Find(v, PathText(hops)) == Lookup(v, hops).value
    decreases |hops|
  {
    var h := hops[0];
    var w := Walk(Get(v.fields, h.name).value, h.indexes).value;
    IndexesTextHasNoDot(h.indexes);
    HopIsFound(v, h);
    if |hops| == 1 {
      SplitLast(HopText(h));
      assert hops[1..] == [] && [HopText(h)][1..] == [];
      assert FindTokens(w, []) == w && Lookup(w, []) == Some(w);
    } else {
      var tail := PathText(hops[1..]);
      SplitHop(HopText(h), tail);
      FindFollowsPath(w, hops[1..]);
      assert ([HopText(h)] + Split(tail))[1..] == Split(tail);
    }
  }
}
