/** The other JSON of the program: `Dynamic::Var` prints itself with `toString` and reads itself back
    with a lenient parser. A leaf without quotes ends at the first space, comma or bracket, which is
    taken with it. */
module DynamicVar {
  import opened TextStream
  import opened JsonValue

  /** `Plain` is a leaf that prints as its text: a number or a boolean. A struct is a `std::map`. */
  datatype Dyn =
    | Empty
    | Plain(text: string)
    | Chars(s: string)
    | Vec(items: seq<Dyn>)
    | Struct(fields: seq<Field<Dyn>>)

  // ---------------------------------------------------------------- printing

  function Quoted(s: string): string {
    "\"" + s + "\""
  }

  /** `toString` */
  function Text(v: Dyn): string
    decreases v, 1
  {
    match v
    case Empty => "null"
    case Plain(text) => text
    case Chars(s) => Quoted(s)
    case Vec(items) => "[ " + ItemsText(items) + " ]"
    case Struct(fields) => "{ " + FieldsText(fields) + " }"
  }

  function ItemsText(items: seq<Dyn>): string
    decreases items, 0
  {
    if items == [] then ""
    else if |items| == 1 then Text(items[0])
    else Text(items[0]) + ", " + ItemsText(items[1..])
  }

  function FieldsText(fields: seq<Field<Dyn>>): string
    decreases fields, 0
  {
    if fields == [] then ""
    else if |fields| == 1 then FieldText(fields[0])
    else FieldText(fields[0]) + ", " + FieldsText(fields[1..])
  }

  function FieldText(f: Field<Dyn>): string
    decreases f, 2
  {
    Quoted(f.key) + " : " + Text(f.value)
  }

  // ---------------------------------------------------------------- reading

  /** A value and the text after it; none if the position is past the end of the text. `Outside` is a
      read at such a position. */
  datatype Parsed<+T> = Parsed(value: T, rest: Option<string>) | Throws | Outside

  predicate IsStop(c: char) { c == ' ' || c == ',' || c == ']' || c == '}' }

  /** `find_first_of`, the length of the text if there is none. */
  function FindQuote(s: string): (i: nat)
    ensures i <= |s| && (i < |s| ==> s[i] == '"') && forall k | 0 <= k < i :: s[k] != '"'
  {
    if s == [] || s[0] == '"' then 0 else 1 + FindQuote(s[1..])
  }

  function FindStop(s: string): (i: nat)
    ensures i <= |s| && (i < |s| ==> IsStop(s[i])) && forall k | 0 <= k < i :: !IsStop(s[k])
  {
    if s == [] || IsStop(s[0]) then 0 else 1 + FindStop(s[1..])
  }

  /** The text up to an end, and the text after the character there. */
  function Upto(s: string, stop: nat): Parsed<string>
    requires stop <= |s|
  {
    Parsed(s[..stop], if stop == |s| then None else Some(s[stop + 1..]))
  }

  /** `parseString` */
  function ParseString(s: string): (r: Parsed<string>)
    ensures r.Parsed? && r.rest.Some? ==> |r.rest.value| < |s|
  {
    if s != [] && s[0] == '"' then
      var stop := FindQuote(s[1..]);
      if stop == |s| - 1 then Throws else Upto(s[1..], stop)
    else
      var stop := FindStop(s);
      if FindQuote(s) < stop then Throws else Upto(s, stop)
  }

  /** `aStruct.insert(key, value)` keeps the value of a key that is there. */
  function InsertNew(fields: seq<Field<Dyn>>, key: string, value: Dyn): seq<Field<Dyn>> {
    if Get(fields, key).Some? then fields else Insert(fields, key, value)
  }

  function SkipComma(s: string): (r: string)
    ensures |r| <= |s| && (r != [] ==> !IsSpace(r[0]))
  {
    var t := SkipSpace(s);
    if t != [] && t[0] == ',' then SkipSpace(t[1..]) else t
  }

  /** `parse` */
  function ParseVar(s: string): (r: Parsed<Dyn>)
    ensures r.Parsed? && r.rest.Some? ==> |r.rest.value| <= |s|
    ensures r.Parsed? && r.rest.Some? && SkipSpace(s) != [] ==> |r.rest.value| < |s|
    decreases |s|, 1
  {
    var t := SkipSpace(s);
    if t == [] then Parsed(Chars(""), Some([]))
    else if t[0] == '{' then ParseFields(SkipSpace(t[1..]), [])
    else if t[0] == '[' then ParseItems(SkipSpace(t[1..]), [])
    else match ParseString(t)
      case Throws => Throws
      case Outside => Outside
      case Parsed(text, rest) => Parsed(Chars(text), rest)
  }

  /** The loop of `parseArray`. */
  function ParseItems(s: string, done: seq<Dyn>): (r: Parsed<Dyn>)
    requires s != [] ==> !IsSpace(s[0])
    ensures r.Parsed? && r.rest.Some? ==> |r.rest.value| <= |s|
    decreases |s|, 2
  {
    if s == [] then Throws
    else if s[0] == ']' then Parsed(Vec(done), Some(s[1..]))
    else match ParseVar(s)
      case Throws => Throws
      case Outside => Outside
      case Parsed(value, None) => Outside
      case Parsed(value, Some(rest)) => ParseItems(SkipComma(rest), done + [value])
  }

  /** `parseString` for a key, and the colon after it. */
  function ParseKey(s: string): (r: Parsed<string>)
    ensures r.Parsed? ==> r.rest.Some? && |r.rest.value| < |s|
  {
    match ParseString(s)
    case Throws => Throws
    case Outside => Outside
    case Parsed(key, None) => Outside
    case Parsed(key, Some(rest)) =>
      var t := SkipSpace(rest);
      if t == [] || t[0] != ':' then Throws else Parsed(key, Some(t[1..]))
  }

  /** The loop of `parseObject`. */
  function ParseFields(s: string, done: seq<Field<Dyn>>): (r: Parsed<Dyn>)
    ensures r.Parsed? && r.rest.Some? ==> |r.rest.value| <= |s|
    decreases |s|, 2
  {
    if s == [] then Throws
    else if s[0] == '}' then Parsed(Struct(done), Some(s[1..]))
    else match ParseKey(s)
      case Throws => Throws
      case Outside => Outside
      case Parsed(key, after) =>
        match ParseVar(after.value)
        case Throws => Throws
        case Outside => Outside
        case Parsed(value, None) => Outside
        case Parsed(value, Some(rest)) => ParseFields(SkipComma(rest), InsertNew(done, key, value))
  }

  // ---------------------------------------------------------------- what comes back

  /** A leaf comes back as a string. */
  function Shape(v: Dyn): Dyn
    decreases v, 1
  {
    match v
    case Empty => Chars("null")
    case Plain(text) => Chars(text)
    case Chars(s) => v
    case Vec(items) => Vec(Shapes(items))
    case Struct(fields) => Struct(FieldShapes(fields))
  }

  function Shapes(items: seq<Dyn>): seq<Dyn>
    decreases items, 0
  {
    if items == [] then [] else [Shape(items[0])] + Shapes(items[1..])
  }

  function FieldShapes(fields: seq<Field<Dyn>>): seq<Field<Dyn>>
    decreases fields, 0
  {
    if fields == [] then [] else [Field(fields[0].key, Shape(fields[0].value))] + FieldShapes(fields[1..])
  }

  predicate NoQuote(s: string) {
    forall i | 0 <= i < |s| :: s[i] != '"'
  }

  /** The text of a number or a boolean. */
  predicate IsPlain(s: string) {
    s != "" && s[0] != '[' && s[0] != '{' && forall i | 0 <= i < |s| :: s[i] != '"' && !IsStop(s[i]) && !IsSpace(s[i])
  }

  /** Maps in the order of their keys, and plain leaves that are numbers or booleans. */
  ghost predicate IsVar(v: Dyn)
    decreases v, 1
  {
    match v
    case Plain(text) => IsPlain(text)
    case Vec(items) => forall i | 0 <= i < |items| :: IsVar(items[i])
    case Struct(fields) => Sorted(fields) && forall i | 0 <= i < |fields| :: IsVar(fields[i].value)
    case _ => true
  }

  /** No string and no key has a quotation mark. */
  ghost predicate Quoteless(v: Dyn)
    decreases v, 1
  {
    match v
    case Plain(text) => NoQuote(text)
    case Chars(s) => NoQuote(s)
    case Vec(items) => forall i | 0 <= i < |items| :: Quoteless(items[i])
    case Struct(fields) => forall i | 0 <= i < |fields| :: NoQuote(fields[i].key) && Quoteless(fields[i].value)
    case Empty => true
  }

  // ---------------------------------------------------------------- what is read has no quotes

  lemma ParseStringQuoteless(s: string)
    ensures ParseString(s).Parsed? ==> NoQuote(ParseString(s).value)
  {
  }

  lemma {:induction false} InsertQuoteless(fields: seq<Field<Dyn>>, key: string, value: Dyn)
    requires Quoteless(Struct(fields)) && NoQuote(key) && Quoteless(value)
    ensures Quoteless(Struct(Insert(fields, key, value)))
  {
    if fields != [] && key != fields[0].key && !Less(key, fields[0].key) {
      var tail := fields[1..];
      assert forall i | 0 <= i < |tail| :: tail[i] == fields[i + 1];
      InsertQuoteless(tail, key, value);
    }
  }

  lemma {:induction false} ParseVarQuoteless(s: string)
    ensures ParseVar(s).Parsed? ==> Quoteless(ParseVar(s).value)
    decreases |s|, 1
  {
    var t := SkipSpace(s);
    if t != [] {
      ParseStringQuoteless(t);
      if t[0] == '{' {
        ParseFieldsQuoteless(SkipSpace(t[1..]), []);
      } else if t[0] == '[' {
        ParseItemsQuoteless(SkipSpace(t[1..]), []);
      }
    }
  }

  lemma {:induction false} ParseItemsQuoteless(s: string, done: seq<Dyn>)
    requires s != [] ==> !IsSpace(s[0])
    requires Quoteless(Vec(done))
    ensures ParseItems(s, done).Parsed? ==> Quoteless(ParseItems(s, done).value)
    decreases |s|, 2
  {
    if s != [] && s[0] != ']' {
      ParseVarQuoteless(s);
      var r := ParseVar(s);
      if r.Parsed? && r.rest.Some? {
        ParseItemsQuoteless(SkipComma(r.rest.value), done + [r.value]);
      }
    }
  }

  lemma {:induction false} ParseFieldsQuoteless(s: string, done: seq<Field<Dyn>>)
    requires Quoteless(Struct(done))
    ensures ParseFields(s, done).Parsed? ==> Quoteless(ParseFields(s, done).value)
    decreases |s|, 2
  {
    if s != [] && s[0] != '}' {
      ParseStringQuoteless(s);
      var k := ParseKey(s);
      if k.Parsed? {
        ParseVarQuoteless(k.rest.value);
        var r := ParseVar(k.rest.value);
        if r.Parsed? && r.rest.Some? {
          InsertQuoteless(done, k.value, r.value);
          ParseFieldsQuoteless(SkipComma(r.rest.value), InsertNew(done, k.value, r.value));
        }
      }
    }
  }

  lemma {:induction false} ShapeQuoteless(v: Dyn)
    requires IsVar(v) && Quoteless(Shape(v))
    ensures Quoteless(v)
    decreases v
  {
    match v {
      case Vec(items) =>
        ShapesAt(items);
        forall i | 0 <= i < |items| ensures Quoteless(items[i]) {
          ShapeQuoteless(items[i]);
        }
      case Struct(fields) =>
        FieldShapesAt(fields);
        forall i | 0 <= i < |fields| ensures NoQuote(fields[i].key) && Quoteless(fields[i].value) {
          assert NoQuote(FieldShapes(fields)[i].key);
          ShapeQuoteless(fields[i].value);
        }
      case _ =>
    }
  }

  lemma {:induction false} ShapesAt(items: seq<Dyn>)
    ensures |Shapes(items)| == |items| && forall i | 0 <= i < |items| :: Shapes(items)[i] == Shape(items[i])
  {
    if items != [] {
      ShapesAt(items[1..]);
    }
  }

  lemma {:induction false} FieldShapesAt(fields: seq<Field<Dyn>>)
    ensures |FieldShapes(fields)| == |fields|
    ensures forall i | 0 <= i < |fields| :: FieldShapes(fields)[i] == Field(fields[i].key, Shape(fields[i].value))
  {
    if fields != [] {
      FieldShapesAt(fields[1..]);
    }
  }

  // ---------------------------------------------------------------- reading a printed value

  /** A leaf that prints without quotes. */
  predicate IsBareLeaf(v: Dyn) { v.Empty? || v.Plain? }

  lemma {:induction false} FindQuoteIs(s: string, rest: string)
    requires NoQuote(s)
    ensures FindQuote(s + "\"" + rest) == |s|
  {
    var t := s + "\"" + rest;
    if s != [] {
      assert t[1..] == s[1..] + "\"" + rest;
      FindQuoteIs(s[1..], rest);
    }
  }

  lemma QuotedIsRead(s: string, rest: string)
    requires NoQuote(s)
    ensures ParseString(Quoted(s) + rest) == Parsed(s, Some(rest))
  {
    var t := Quoted(s) + rest;
    assert t[1..] == s + "\"" + rest;
    FindQuoteIs(s, rest);
    assert t[1..][..|s|] == s && t[1..][|s| + 1..] == rest;
  }

  /** An unquoted leaf takes the character after it. */
  lemma BareIsRead(v: Dyn, d: char, rest: string)
    requires IsBareLeaf(v) && IsVar(v) && IsStop(d)
    ensures ParseVar(Text(v) + [d] + rest) == Parsed(Shape(v), Some(rest))
  {
    var s := Text(v);
    var t := s + [d] + rest;
    assert forall k | 0 <= k < |s| :: t[k] == s[k];
    assert t[|s|] == d;
    assert FindStop(t) == |s|;
    assert t[..|s|] == s && t[|s| + 1..] == rest;
  }

  lemma BareIsReadAtEnd(v: Dyn)
    requires IsBareLeaf(v) && IsVar(v)
    ensures ParseVar(Text(v)) == Parsed(Shape(v), None)
  {
    var s := Text(v);
    assert s[..|s|] == s;
  }

  /** The first character of what follows a value in a container. */
  predicate Starts(next: string) {
    next != "" && !IsSpace(next[0]) && next[0] != ','
  }

  lemma SkipOne(next: string)
    requires Starts(next)
    ensures SkipSpace(next) == next && SkipSpace(" " + next) == next && SkipSpace("  " + next) == next
    ensures SkipComma(next) == next && SkipComma(" " + next) == next && SkipComma(", " + next) == next
  {
    assert (" " + next)[1..] == next && ("  " + next)[1..] == " " + next;
    assert (", " + next)[1..] == " " + next;
  }

  lemma TextStarts(v: Dyn)
    requires IsVar(v)
    ensures Starts(Text(v)) && Text(v)[0] != ']' && Text(v)[0] != '}'
  {
  }

  /** An element of a container: with the comma or the space after it, the parser comes to the next. */
  lemma {:induction false} ElementIsRead(v: Dyn, gap: string, next: string)
    requires IsVar(v) && Quoteless(v) && (gap == " " || gap == ", ") && Starts(next)
    ensures var r := ParseVar(Text(v) + gap + next);
            r.Parsed? && r.value == Shape(v) && r.rest.Some? && SkipComma(r.rest.value) == next
    decreases v, 2
  {
    SkipOne(next);
    if IsBareLeaf(v) {
      var rest := if gap == " " then next else " " + next;
      assert Text(v) + gap + next == Text(v) + [gap[0]] + rest;
      BareIsRead(v, gap[0], rest);
    } else {
      assert Text(v) + gap + next == Text(v) + (gap + next);
      ClosedIsRead(v, gap + next);
    }
  }

  lemma Opened(open: string, inner: string, close: string, rest: string)
    requires |open| == 2 && open[1] == ' '
    ensures var s := open + inner + close + rest; s[0] == open[0] && s[1..] == " " + (inner + close + rest)
  {
  }

  lemma EmptyInside(close: char, rest: string)
    requires Starts([close])
    ensures " " + ("" + [' ', close] + rest) == "  " + ([close] + rest)
    ensures Starts([close] + rest) && ([close] + rest)[1..] == rest
  {
  }

  lemma ClosesAfter(s: string, close: char, rest: string)
    ensures s + [' ', close] + rest == s + " " + ([close] + rest)
    ensures ([close] + rest)[1..] == rest && ([close] + rest)[0] == close
  {
  }

  lemma CommaAfter(s: string, more: string, close: string, rest: string)
    ensures (s + ", " + more) + close + rest == s + ", " + (more + close + rest)
  {
  }

  lemma {:induction false} ClosedIsRead(v: Dyn, rest: string)
    requires IsVar(v) && Quoteless(v) && !IsBareLeaf(v)
    ensures ParseVar(Text(v) + rest) == Parsed(Shape(v), Some(rest))
    decreases v, 1
  {
    match v {
      case Chars(text) => QuotedIsRead(text, rest);
      case Vec(items) => VecIsRead(items, rest);
      case Struct(fields) => StructIsRead(fields, rest);
    }
  }

  lemma {:induction false} VecIsRead(items: seq<Dyn>, rest: string)
    requires forall i | 0 <= i < |items| :: IsVar(items[i]) && Quoteless(items[i])
    ensures ParseVar(Text(Vec(items)) + rest) == Parsed(Vec(Shapes(items)), Some(rest))
    decreases items, 1
  {
    VecOpens(items, rest);
    if items == [] {
      EmptyInside(']', rest);
      SkipOne("]" + rest);
    } else {
      ItemsStart(items);
      SkipOne(ItemsText(items) + " ]" + rest);
      ItemsAreRead(items, [], rest);
      assert [] + Shapes(items) == Shapes(items);
    }
  }

  lemma VecOpens(items: seq<Dyn>, rest: string)
    ensures ParseVar(Text(Vec(items)) + rest) == ParseItems(SkipSpace(" " + (ItemsText(items) + " ]" + rest)), [])
  {
    Opened("[ ", ItemsText(items), " ]", rest);
  }

  lemma {:induction false} StructIsRead(fields: seq<Field<Dyn>>, rest: string)
    requires IsVar(Struct(fields)) && Quoteless(Struct(fields))
    ensures ParseVar(Text(Struct(fields)) + rest) == Parsed(Struct(FieldShapes(fields)), Some(rest))
    decreases fields, 1
  {
    var inner := FieldsText(fields) + " }" + rest;
    Opened("{ ", FieldsText(fields), " }", rest);
    if fields == [] {
      EmptyInside('}', rest);
      SkipOne("}" + rest);
    } else {
      FieldsStart(fields);
      SkipOne(inner);
      FieldsAreRead(fields, [], rest);
      assert [] + FieldShapes(fields) == FieldShapes(fields);
    }
  }

  lemma ItemsStart(items: seq<Dyn>)
    requires items != [] && IsVar(items[0])
    ensures Starts(ItemsText(items)) && ItemsText(items)[0] != ']'
  {
    TextStarts(items[0]);
  }

  /** One round of the loop of `parseArray`. */
  lemma {:induction false} ItemStep(v: Dyn, gap: string, next: string, done: seq<Dyn>)
    requires IsVar(v) && Quoteless(v) && (gap == " " || gap == ", ") && Starts(next)
    ensures var s := Text(v) + gap + next;
            s != "" && !IsSpace(s[0]) && ParseItems(s, done) == ParseItems(next, done + [Shape(v)])
    decreases v, 3
  {
    TextStarts(v);
    ElementIsRead(v, gap, next);
  }

  lemma {:induction false} LastItem(v: Dyn, done: seq<Dyn>, rest: string)
    requires IsVar(v) && Quoteless(v)
    ensures Starts(Text(v) + " ]" + rest)
    ensures ParseItems(Text(v) + " ]" + rest, done) == Parsed(Vec(done + [Shape(v)]), Some(rest))
    decreases v, 4
  {
    TextStarts(v);
    ClosesAfter(Text(v), ']', rest);
    ItemStep(v, " ", "]" + rest, done);
  }

  lemma {:induction false} NextItem(v: Dyn, more: string, done: seq<Dyn>, rest: string)
    requires IsVar(v) && Quoteless(v) && Starts(more)
    ensures Starts((Text(v) + ", " + more) + " ]" + rest) && Starts(more + " ]" + rest)
    ensures ParseItems((Text(v) + ", " + more) + " ]" + rest, done) == ParseItems(more + " ]" + rest, done + [Shape(v)])
    decreases v, 4
  {
    TextStarts(v);
    CommaAfter(Text(v), more, " ]", rest);
    ItemStep(v, ", ", more + " ]" + rest, done);
  }

  lemma {:induction false} ItemsSplit(items: seq<Dyn>, done: seq<Dyn>)
    requires items != []
    ensures |items| == 1 ==> ItemsText(items) == Text(items[0]) && done + Shapes(items) == done + [Shape(items[0])]
    ensures |items| > 1 ==> ItemsText(items) == Text(items[0]) + ", " + ItemsText(items[1..])
    ensures done + Shapes(items) == done + [Shape(items[0])] + Shapes(items[1..])
  {
    assert |items| == 1 ==> Shapes(items[1..]) == [];
  }

  lemma {:induction false} ItemsAreRead(items: seq<Dyn>, done: seq<Dyn>, rest: string)
    requires items != [] && forall i | 0 <= i < |items| :: IsVar(items[i]) && Quoteless(items[i])
    ensures Starts(ItemsText(items) + " ]" + rest)
    ensures ParseItems(ItemsText(items) + " ]" + rest, done) == Parsed(Vec(done + Shapes(items)), Some(rest))
    decreases items, 0
  {
    ItemsSplit(items, done);
    if |items| == 1 {
      LastItem(items[0], done, rest);
    } else {
      ItemsStart(items[1..]);
      NextItem(items[0], ItemsText(items[1..]), done, rest);
      ItemsAreRead(items[1..], done + [Shape(items[0])], rest);
    }
  }

  lemma FieldsStart(fields: seq<Field<Dyn>>)
    requires fields != []
    ensures FieldsText(fields) != "" && FieldsText(fields)[0] == '"'
  {
  }

  lemma KeyIsRead(key: string, value: string)
    requires NoQuote(key)
    ensures ParseKey(Quoted(key) + " : " + value) == Parsed(key, Some(" " + value))
  {
    var after := " : " + value;
    assert Quoted(key) + " : " + value == Quoted(key) + after;
    QuotedIsRead(key, after);
    assert after[1..] == ": " + value && (": " + value)[1..] == " " + value;
    assert SkipSpace(after) == ": " + value;
  }

  lemma SkipsSpace(s: string)
    requires Starts(s)
    ensures ParseVar(" " + s) == ParseVar(s)
  {
    SkipOne(s);
  }

  lemma FieldSplit(key: string, value: string, gap: string, next: string)
    ensures key + " : " + value + gap + next == key + " : " + (value + gap + next)
  {
  }

  /** One round of the loop of `parseObject`. */
  lemma {:induction false} FieldStep(f: Field<Dyn>, gap: string, next: string, done: seq<Field<Dyn>>)
    requires NoQuote(f.key) && IsVar(f.value) && Quoteless(f.value) && (gap == " " || gap == ", ") && Starts(next)
    ensures ParseFields(FieldText(f) + gap + next, done) == ParseFields(next, InsertNew(done, f.key, Shape(f.value)))
    decreases f.value, 3
  {
    var value := Text(f.value) + gap + next;
    FieldSplit(Quoted(f.key), Text(f.value), gap, next);
    KeyIsRead(f.key, value);
    TextStarts(f.value);
    SkipsSpace(value);
    ElementIsRead(f.value, gap, next);
  }

  lemma {:induction false} NotThere(fields: seq<Field<Dyn>>, key: string)
    requires forall i | 0 <= i < |fields| :: Less(fields[i].key, key)
    ensures Get(fields, key) == None
  {
    if fields != [] {
      assert Less(fields[0].key, key);
      LessIrreflexive(key);
      NotThere(fields[1..], key);
    }
  }

  lemma {:induction false} LastField(f: Field<Dyn>, done: seq<Field<Dyn>>, rest: string)
    requires NoQuote(f.key) && IsVar(f.value) && Quoteless(f.value)
    requires forall i | 0 <= i < |done| :: Less(done[i].key, f.key)
    ensures ParseFields(FieldText(f) + " }" + rest, done)
         == Parsed(Struct(done + [Field(f.key, Shape(f.value))]), Some(rest))
    decreases f.value, 4
  {
    NotThere(done, f.key);
    InsertLast(done, f.key, Shape(f.value));
    ClosesAfter(FieldText(f), '}', rest);
    FieldStep(f, " ", "}" + rest, done);
  }

  lemma {:induction false} NextField(f: Field<Dyn>, more: string, done: seq<Field<Dyn>>, rest: string)
    requires NoQuote(f.key) && IsVar(f.value) && Quoteless(f.value) && Starts(more)
    requires forall i | 0 <= i < |done| :: Less(done[i].key, f.key)
    ensures ParseFields((FieldText(f) + ", " + more) + " }" + rest, done)
         == ParseFields(more + " }" + rest, done + [Field(f.key, Shape(f.value))])
    decreases f.value, 4
  {
    NotThere(done, f.key);
    InsertLast(done, f.key, Shape(f.value));
    CommaAfter(FieldText(f), more, " }", rest);
    FieldStep(f, ", ", more + " }" + rest, done);
  }

  lemma {:induction false} FieldsSplit(fields: seq<Field<Dyn>>, done: seq<Field<Dyn>>)
    requires fields != []
    ensures |fields| == 1 ==> FieldShapes(fields) == [Field(fields[0].key, Shape(fields[0].value))]
    ensures done + FieldShapes(fields)
         == done + [Field(fields[0].key, Shape(fields[0].value))] + FieldShapes(fields[1..])
  {
    var head, tail := [Field(fields[0].key, Shape(fields[0].value))], FieldShapes(fields[1..]);
    assert FieldShapes(fields) == head + tail;
    Assoc(done, head, tail);
    if |fields| == 1 {
      assert tail == [] && head + [] == head;
    }
  }

  lemma {:induction false} FieldsAreRead(fields: seq<Field<Dyn>>, done: seq<Field<Dyn>>, rest: string)
    requires fields != [] && Sorted(fields)
    requires forall i | 0 <= i < |fields| :: IsVar(fields[i].value)
    requires forall i | 0 <= i < |fields| :: NoQuote(fields[i].key) && Quoteless(fields[i].value)
    requires forall i, j | 0 <= i < |done| && 0 <= j < |fields| :: Less(done[i].key, fields[j].key)
    ensures ParseFields(FieldsText(fields) + " }" + rest, done)
            == Parsed(Struct(done + FieldShapes(fields)), Some(rest))
    decreases fields, 0
  {
    var f := fields[0];
    FieldsSplit(fields, done);
    if |fields| == 1 {
      LastField(f, done, rest);
    } else {
      FieldsStart(fields[1..]);
      NextField(f, FieldsText(fields[1..]), done, rest);
      FieldsAreRead(fields[1..], done + [Field(f.key, Shape(f.value))], rest);
    }
  }

  /** Reading a printed value gives its shape exactly if no string and no key has a quotation mark; and
      then no read was outside the text. */
  lemma RoundTrip(v: Dyn)
    requires IsVar(v)
    ensures ParseVar(Text(v)).Parsed? && ParseVar(Text(v)).value == Shape(v) <==> Quoteless(v)
  {
    if Quoteless(v) {
      if IsBareLeaf(v) {
        BareIsReadAtEnd(v);
      } else {
        ClosedIsRead(v, "");
        assert Text(v) + "" == Text(v);
      }
    } else {
      ParseVarQuoteless(Text(v));
      if Quoteless(Shape(v)) {
        ShapeQuoteless(v);
      }
    }
  }

  /** Printing and reading a second time changes nothing more. */
  lemma {:induction false} ShapeIsStable(v: Dyn)
    requires IsVar(v)
    ensures Shape(Shape(v)) == Shape(v)
    decreases v
  {
    match v {
      case Vec(items) =>
        ShapesAt(items);
        ShapesAt(Shapes(items));
        forall i | 0 <= i < |items| ensures Shapes(Shapes(items))[i] == Shapes(items)[i] {
          ShapeIsStable(items[i]);
        }
        assert Shapes(Shapes(items)) == Shapes(items);
      case Struct(fields) =>
        FieldShapesAt(fields);
        FieldShapesAt(FieldShapes(fields));
        forall i | 0 <= i < |fields| ensures FieldShapes(FieldShapes(fields))[i] == FieldShapes(fields)[i] {
          ShapeIsStable(fields[i].value);
        }
        assert FieldShapes(FieldShapes(fields)) == FieldShapes(fields);
      case _ =>
    }
  }

  // ---------------------------------------------------------------- the methods

  /** The result of a parse function and the position it leaves, which may be one past the end. */
  datatype Step<+T> = At(value: T, pos: nat) | Error | OutOfRange

  ghost predicate Agrees<T>(val: string, r: Step<T>, p: Parsed<T>) {
    match p
    case Throws => r.Error?
    case Outside => r.OutOfRange?
    case Parsed(value, None) => r == At(value, |val| + 1)
    case Parsed(value, Some(rest)) => r.At? && r.value == value && r.pos <= |val| && val[r.pos..] == rest
  }

  method SkipWhiteSpace(val: string, pos: nat) returns (end: nat)
    requires pos <= |val|
    ensures pos <= end <= |val| && val[end..] == SkipSpace(val[pos..])
  {
    end := pos;
    while end < |val| && IsSpace(val[end])
      invariant pos <= end <= |val| && SkipSpace(val[end..]) == SkipSpace(val[pos..])
    {
      assert val[end..][1..] == val[end + 1..];
      end := end + 1;
    }
  }

  method FindQuoteFrom(val: string, pos: nat) returns (at: nat)
    requires pos <= |val|
    ensures pos <= at <= |val| && at - pos == FindQuote(val[pos..])
  {
    at := pos;
    while at < |val| && val[at] != '"'
      invariant pos <= at <= |val| && at - pos + FindQuote(val[at..]) == FindQuote(val[pos..])
    {
      assert val[at..][1..] == val[at + 1..];
      at := at + 1;
    }
  }

  method FindStopFrom(val: string, pos: nat) returns (at: nat)
    requires pos <= |val|
    ensures pos <= at <= |val| && at - pos == FindStop(val[pos..])
  {
    at := pos;
    while at < |val| && !IsStop(val[at])
      invariant pos <= at <= |val| && at - pos + FindStop(val[at..]) == FindStop(val[pos..])
    {
      assert val[at..][1..] == val[at + 1..];
      at := at + 1;
    }
  }

  /** The end of `parseString`. */
  method TakeUpto(val: string, pos: nat, stop: nat) returns (r: Step<string>)
    requires pos <= stop <= |val|
    ensures Agrees(val, r, Upto(val[pos..], stop - pos))
    ensures r.At? && pos < r.pos
  {
    assert val[pos..stop] == val[pos..][..stop - pos];
    if stop < |val| {
      assert val[stop + 1..] == val[pos..][stop - pos + 1..];
    }
    r := At(val[pos..stop], stop + 1);
  }

  method ParseStringAt(val: string, pos: nat) returns (r: Step<string>)
    requires pos <= |val|
    ensures Agrees(val, r, ParseString(val[pos..]))
    ensures r.At? ==> pos < r.pos
  {
    if pos < |val| && val[pos] == '"' {
      assert val[pos..][1..] == val[pos + 1..];
      var stop := FindQuoteFrom(val, pos + 1);
      if stop == |val| {
        return Error;
      }
      r := TakeUpto(val, pos + 1, stop);
    } else {
      var stop := FindStopFrom(val, pos);
      var safeCheck := FindQuoteFrom(val, pos);
      if safeCheck < stop {
        return Error;
      }
      r := TakeUpto(val, pos, stop);
    }
  }

  method SkipCommaAt(val: string, pos: nat) returns (end: nat)
    requires pos <= |val|
    ensures pos <= end <= |val| && val[end..] == SkipComma(val[pos..])
  {
    end := SkipWhiteSpace(val, pos);
    if end < |val| && val[end] == ',' {
      assert val[end..][1..] == val[end + 1..];
      end := SkipWhiteSpace(val, end + 1);
    }
  }

  /** `Var::parse(val, pos)` */
  method ParseAt(val: string, pos: nat) returns (r: Step<Dyn>)
    requires pos <= |val|
    ensures Agrees(val, r, ParseVar(val[pos..]))
    decreases |val| - pos, 1
  {
    var at := SkipWhiteSpace(val, pos);
    if at == |val| {
      return At(Chars(""), at);
    }
    assert val[at..][1..] == val[at + 1..];
    if val[at] == '{' {
      r := ParseObject(val, at);
    } else if val[at] == '[' {
      r := ParseArray(val, at);
    } else {
      var text := ParseStringAt(val, at);
      match text {
        case At(s, end) => r := At(Chars(s), end);
        case Error => r := Error;
        case OutOfRange => r := OutOfRange;
      }
    }
  }

  method ParseArray(val: string, pos: nat) returns (r: Step<Dyn>)
    requires pos < |val| && val[pos] == '['
    ensures Agrees(val, r, ParseItems(SkipSpace(val[pos + 1..]), []))
    decreases |val| - pos, 0
  {
    var at := SkipWhiteSpace(val, pos + 1);
    var result := [];
    while at < |val| && val[at] != ']'
      invariant pos < at <= |val| && (at < |val| ==> !IsSpace(val[at]))
      invariant ParseItems(val[at..], result) == ParseItems(SkipSpace(val[pos + 1..]), [])
      decreases |val| - at
    {
      assert SkipSpace(val[at..]) == val[at..];
      var item := ParseAt(val, at);
      match item {
        case Error => return Error;
        case OutOfRange => return OutOfRange;
        case At(value, end) =>
          if end > |val| {
            return OutOfRange;
          }
          result := result + [value];
          at := SkipCommaAt(val, end);
      }
    }
    if at == |val| {
      return Error;
    }
    assert val[at..][1..] == val[at + 1..];
    return At(Vec(result), at + 1);
  }

  /** The key of a field and its colon. */
  method ParseKeyAt(val: string, pos: nat) returns (r: Step<string>)
    requires pos <= |val|
    ensures Agrees(val, r, ParseKey(val[pos..]))
    ensures r.At? ==> pos < r.pos <= |val|
  {
    r := ParseStringAt(val, pos);
    if r.At? {
      if r.pos > |val| {
        return OutOfRange;
      }
      var colon := SkipWhiteSpace(val, r.pos);
      if colon == |val| || val[colon] != ':' {
        return Error;
      }
      assert val[colon..][1..] == val[colon + 1..];
      r := At(r.value, colon + 1);
    }
  }

  method ParseObject(val: string, pos: nat) returns (r: Step<Dyn>)
    requires pos < |val| && val[pos] == '{'
    ensures Agrees(val, r, ParseFields(SkipSpace(val[pos + 1..]), []))
    decreases |val| - pos, 0
  {
    var at := SkipWhiteSpace(val, pos + 1);
    var aStruct: seq<Field<Dyn>> := [];
    while at < |val| && val[at] != '}'
      invariant pos < at <= |val|
      invariant ParseFields(val[at..], aStruct) == ParseFields(SkipSpace(val[pos + 1..]), [])
      decreases |val| - at
    {
      var key := ParseKeyAt(val, at);
      if !key.At? {
        return if key.Error? then Error else OutOfRange;
      }
      var field := ParseAt(val, key.pos);
      match field {
        case Error => return Error;
        case OutOfRange => return OutOfRange;
        case At(value, end) =>
          if end > |val| {
            return OutOfRange;
          }
          aStruct := InsertNew(aStruct, key.value, value);
          at := SkipCommaAt(val, end);
      }
    }
    if at == |val| {
      return Error;
    }
    assert val[at..][1..] == val[at + 1..];
    return At(Struct(aStruct), at + 1);
  }

  /** `appendJSONString` */
  method AppendJSONString(val: string, any: Dyn) returns (text: string)
    ensures text == val + Text(any)
    decreases any, 1
  {
    match any {
      case Empty =>
        text := val + "null";
      case Plain(s) =>
        text := val + s;
      case Chars(s) =>
        text := val + "\"" + s + "\"";
      case Vec(items) =>
        var inner := ConvertVector(items);
        text := val + inner;
      case Struct(fields) =>
        var inner := ConvertStruct(fields);
        text := val + inner;
    }
  }

  lemma {:induction false} ItemsTextAdd(items: seq<Dyn>, v: Dyn)
    ensures ItemsText(items + [v]) == if items == [] then Text(v) else ItemsText(items) + ", " + Text(v)
  {
    if items != [] {
      ItemsTextAdd(items[1..], v);
      assert (items + [v])[1..] == items[1..] + [v];
    }
  }

  lemma {:induction false} FieldsTextAdd(fields: seq<Field<Dyn>>, f: Field<Dyn>)
    ensures FieldsText(fields + [f]) == if fields == [] then FieldText(f) else FieldsText(fields) + ", " + FieldText(f)
  {
    if fields != [] {
      FieldsTextAdd(fields[1..], f);
      assert (fields + [f])[1..] == fields[1..] + [f];
    }
  }

  /** `convert(std::string&)` of a vector */
  method ConvertVector(items: seq<Dyn>) returns (val: string)
    ensures val == Text(Vec(items))
    decreases items, 0
  {
    val := "[ ";
    var i := 0;
    if items != [] {
      val := AppendJSONString(val, items[0]);
      i := 1;
      ItemsTextAdd([], items[0]);
      assert items[..1] == [] + [items[0]];
    }
    while i < |items|
      invariant 0 <= i <= |items| && (items != [] ==> i > 0)
      invariant val == "[ " + ItemsText(items[..i])
    {
      ItemsTextAdd(items[..i], items[i]);
      assert items[..i + 1] == items[..i] + [items[i]];
      val := val + ", ";
      val := AppendJSONString(val, items[i]);
      i := i + 1;
    }
    assert items[..i] == items;
    val := val + " ]";
  }

  method AppendField(val: string, f: Field<Dyn>) returns (text: string)
    ensures text == val + FieldText(f)
    decreases f, 2
  {
    text := AppendJSONString(val + "\"" + f.key + "\"" + " : ", f.value);
  }

  /** `convert(std::string&)` of a struct */
  method ConvertStruct(fields: seq<Field<Dyn>>) returns (val: string)
    ensures val == Text(Struct(fields))
    decreases fields, 0
  {
    val := "{ ";
    var i := 0;
    if fields != [] {
      val := AppendField(val, fields[0]);
      i := 1;
      FieldsTextAdd([], fields[0]);
      assert fields[..1] == [] + [fields[0]];
    }
    while i < |fields|
      invariant 0 <= i <= |fields| && (fields != [] ==> i > 0)
      invariant val == "{ " + FieldsText(fields[..i])
    {
      FieldsTextAdd(fields[..i], fields[i]);
      assert fields[..i + 1] == fields[..i] + [fields[i]];
      val := val + ", ";
      val := AppendField(val, fields[i]);
      i := i + 1;
    }
    assert fields[..i] == fields;
    val := val + " }";
  }

  /** `parse(toString(v))`: without quotation marks in `v`, its shape, and every index in the text. */
  method PrintAndParse(v: Dyn) returns (r: Step<Dyn>)
    requires IsVar(v)
    ensures r.At? && r.value == Shape(v) <==> Quoteless(v)
  {
    RoundTrip(v);
    var text := AppendJSONString("", v);
    assert text[0..] == Text(v);
    r := ParseAt(text, 0);
  }
}
