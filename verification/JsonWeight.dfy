/** No text is lighter than the tree that is read from it, where blanks weigh nothing: what the printer
    does not escape is missing from the tree that comes back. */
module JsonWeight {
  import opened TextStream
  import opened JsonValue
  import opened JsonLexer
  import opened JsonParser
  import opened JsonPrinter
  import opened JsonNumber
  import opened JsonTrees

  // ---------------------------------------------------------------- weights

  /** The characters that indentation is made of weigh nothing. */
  function CharWeight(c: char): nat { if c == ' ' || c == '\n' then 0 else 1 }

  function Weight(s: string): nat {
    if s == [] then 0 else CharWeight(s[0]) + Weight(s[1..])
  }

  lemma {:induction false} WeightConcat(a: string, b: string)
    ensures Weight(a + b) == Weight(a) + Weight(b)
  {
    if a == [] {
      assert a + b == b;
    } else {
      assert (a + b)[1..] == a[1..] + b;
      WeightConcat(a[1..], b);
    }
  }

  lemma WeightAfter(s: string, n: nat)
    requires n <= |s|
    ensures Weight(s) == Weight(s[..n]) + Weight(s[n..])
  {
    assert s == s[..n] + s[n..];
    WeightConcat(s[..n], s[n..]);
  }

  /** The least weight of the characters between quotation marks that are read as the given one. */
  function CharCost(c: char): nat {
    if c == ' ' then 0
    else if c == '\0' then 6
    else if IsBare(c) then 1
    else 1 + |EscapeCode(c)|
  }

  function Cost(s: string): nat {
    if s == [] then 0 else CharCost(s[0]) + Cost(s[1..])
  }

  lemma {:induction false} CostConcat(a: string, b: string)
    ensures Cost(a + b) == Cost(a) + Cost(b)
  {
    if a == [] {
      assert a + b == b;
    } else {
      assert (a + b)[1..] == a[1..] + b;
      CostConcat(a[1..], b);
    }
  }

  function ScalarNeed(s: Scalar): nat {
    match s
    case Null => 4
    case Bool(b) => if b then 4 else 5
    case Int(n) => |IntText(n)|
    case Long(n) => |IntText(n)|
    case Float(text) => |text|
    case Str(s) => 2 + Cost(s)
  }

  /** The least weight of a text that is read as the tree. */
  function Need(v: JSON): nat {
    match v
    case Leaf(s) => ScalarNeed(s)
    case Array(items) => if items == [] then 2 else 1 + ItemsNeed(items)
    case Object(fields) => if fields == [] then 2 else 1 + RowsNeed(fields)
  }

  /** Each element with the comma or the bracket after it. */
  function ItemsNeed(items: seq<JSON>): nat {
    if items == [] then 0 else Need(items[0]) + 1 + ItemsNeed(items[1..])
  }

  /** The key, the colon, the value, and the comma or the brace after it. */
  function RowNeed(row: Field<JSON>): nat
    decreases row
  {
    2 + Cost(row.key) + 1 + Need(row.value) + 1
  }

  function RowsNeed(fields: seq<Field<JSON>>): nat {
    if fields == [] then 0 else RowNeed(fields[0]) + RowsNeed(fields[1..])
  }

  // ---------------------------------------------------------------- tokens

  lemma {:induction false} HexWeighs(s: string, n: nat, acc: nat)
    ensures var r := HexCode(s, n, acc); r.Done? ==> Weight(s) >= n + Weight(r.rest)
    decreases n
  {
    if n > 0 && s != [] && HexValue(s[0]).Some? {
      HexWeighs(s[1..], n - 1, acc * 16 + HexValue(s[0]).value);
    }
  }

  lemma EscapeWeighs(s: string)
    ensures var r := Escape(s); r.Done? ==> Weight(s) + 1 >= CharCost(r.value) + Weight(r.rest)
  {
    if s != [] && s[0] == 'u' {
      HexWeighs(s[1..], 4, 0);
      var high := HexCode(s[1..], 4, 0);
      if high.Done? && |high.rest| >= 2 {
        WeightAfter(high.rest, 2);
        HexWeighs(high.rest[2..], 4, 0);
      }
    }
  }

  lemma {:induction false} BodyWeighs(s: string)
    ensures var r := StringBody(s); r.Done? ==> Weight(s) >= Cost(r.value) + 1 + Weight(r.rest)
    decreases |s|
  {
    if s != [] && !IsControl(s[0]) && s[0] != '"' {
      if s[0] == '\\' {
        EscapeConsumes(s[1..]);
        EscapeWeighs(s[1..]);
        var e := Escape(s[1..]);
        if e.Done? {
          BodyWeighs(e.rest);
          CostOfPrepended(e.value, StringBody(e.rest));
        }
      } else {
        BodyWeighs(s[1..]);
        CostOfPrepended(s[0], StringBody(s[1..]));
      }
    }
  }

  lemma CostOfPrepended(c: char, scan: Scan<string>)
    ensures scan.Done? ==> Cost(Prepend([c], scan).value) == CharCost(c) + Cost(scan.value)
  {
    if scan.Done? {
      assert ([c] + scan.value)[1..] == scan.value;
    }
  }

  lemma WeightOfTwo(s: string)
    requires |s| >= 2
    ensures Weight(s) == CharWeight(s[0]) + CharWeight(s[1]) + Weight(s[2..])
  {
    assert s[1..][1..] == s[2..];
  }

  lemma {:induction false} NumberTailWeighs(cls: NumberClass, s: string)
    ensures var r := NumberTail(cls, s); r.Done? ==> Weight(s) >= |r.value.text| + Weight(r.rest)
    decreases |s|
  {
    if s == [] {
    } else if IsDigit(s[0]) {
      NumberTailWeighs(cls, s[1..]);
    } else if s[0] == '.' && DigitFirst(s[1..]) {
      WeightOfTwo(s);
      NumberTailWeighs(FloatClass, s[2..]);
    } else if (s[0] == 'e' || s[0] == 'E') && DigitFirst(s[SignLength(s)..]) {
      var sign := SignLength(s);
      WeightOfTwo(s);
      assert s[2..] != [] ==> s[2..][1..] == s[3..];
      NumberTailWeighs(DoubleClass, s[sign + 1..]);
    }
  }

  lemma StartWeighs(c: char, s: string)
    ensures var r := StartNumber(c, s); r.Started? ==> CharWeight(c) + Weight(s) >= |r.text| + Weight(r.rest)
  {
  }

  lemma {:induction false} AlphaWeighs(s: string)
    ensures Weight(s) == AlphaLength(s) + Weight(s[AlphaLength(s)..])
  {
    if s != [] && IsAlpha(s[0]) {
      AlphaWeighs(s[1..]);
      assert s[1..][AlphaLength(s[1..])..] == s[AlphaLength(s)..];
    } else {
      assert s[0..] == s;
    }
  }

  function TokenWeight(t: Token): nat {
    match t
    case Separator(_) => 1
    case StringLiteral(s) => 2 + Cost(s)
    case IntegerLiteral(text) => |text|
    case FloatLiteral(text) => |text|
    case DoubleLiteral(text) => |text|
    case Keyword(word) => |word|
    case _ => 0
  }

  function StreamWeight(ts: TokenStream): nat {
    if ts.Cons? then TokenWeight(ts.head) + StreamWeight(ts.tail) else 0
  }

  lemma NumberWeighs(s: string)
    requires s != [] && StartNumber(s[0], s[1..]).Started?
    ensures var start := StartNumber(s[0], s[1..]);
            var r := PrependText(start.text, NumberTail(IntegerClass, start.rest));
            r.Done? ==> Weight(s) >= |r.value.text| + Weight(r.rest)
  {
    StartWeighs(s[0], s[1..]);
    NumberTailWeighs(IntegerClass, StartNumber(s[0], s[1..]).rest);
  }

  lemma {:induction false} TokenWeighs(s: string)
    ensures var r := NextToken(s); r.Lexed? ==> Weight(s) >= TokenWeight(r.token) + Weight(r.rest)
    decreases |s|
  {
    if s == [] {
    } else if IsSpace(s[0]) {
      TokenWeighs(s[1..]);
    } else if s[0] == '"' {
      BodyWeighs(s[1..]);
    } else if StartNumber(s[0], s[1..]).Started? {
      NumberWeighs(s);
    } else if IsAlpha(s[0]) {
      AlphaWeighs(s);
    }
  }

  lemma {:induction false} TextWeighs(s: string)
    ensures Weight(s) >= StreamWeight(Tokens(s))
    decreases |s|
  {
    TokenWeighs(s);
    if NextToken(s).Lexed? {
      TextWeighs(NextToken(s).rest);
    }
  }

  // ---------------------------------------------------------------- values

  lemma {:induction false} DigitsAreShort(s: string)
    requires s != [] && forall c | c in s :: IsDigit(c)
    ensures |Digits(NatValue(s))| <= |s|
  {
    var n := |s| - 1;
    if n > 0 {
      var init := s[..n];
      assert forall c | c in init :: c in s;
      assert s[n] in s;
      DigitsAreShort(init);
      DigitsOfNext(NatValue(init), (s[n] - '0') as nat);
      assert NatValue(s) == NatValue(init) * 10 + (s[n] - '0') as nat;
    } else {
      assert s[0] in s && NatValue(s[..0]) == 0;
    }
  }

  lemma DigitsOfNext(m: nat, d: nat)
    requires d < 10
    ensures |Digits(m * 10 + d)| <= |Digits(m)| + 1
  {
    var n := m * 10 + d;
    if n >= 10 {
      assert n / 10 == m;
    }
  }

  lemma IntegerIsShort(text: string)
    requires IsSignedDigits(text)
    ensures |IntText(IntValue(text))| <= |text|
  {
    if text[0] == '-' {
      var d := text[1..];
      assert forall c | c in d :: IsDigit(c);
      if d != [] {
        DigitsAreShort(d);
      }
    } else {
      assert forall c | c in text :: IsDigit(c);
      DigitsAreShort(text);
    }
  }

  lemma ScalarWeighs(t: Token)
    ensures ScalarOf(t).Some? ==> TokenWeight(t) >= ScalarNeed(ScalarOf(t).value)
  {
    if t.IntegerLiteral? && IsSignedDigits(t.text) {
      IntegerIsShort(t.text);
    }
  }

  lemma {:induction false} InsertNeeds(fields: seq<Field<JSON>>, key: string, value: JSON)
    ensures RowsNeed(Insert(fields, key, value)) <= RowsNeed(fields) + RowNeed(Field(key, value))
  {
    var r := Insert(fields, key, value);
    if fields == [] {
      assert r[1..] == [];
    } else if key == fields[0].key {
      assert r[1..] == fields[1..];
    } else if Less(key, fields[0].key) {
      assert r[1..] == fields;
    } else {
      InsertNeeds(fields[1..], key, value);
      assert r[1..] == Insert(fields[1..], key, value);
    }
  }

  lemma {:induction false} ItemsNeedMore(items: seq<JSON>, item: JSON)
    ensures ItemsNeed(items + [item]) == ItemsNeed(items) + Need(item) + 1
  {
    if items != [] {
      assert (items + [item])[1..] == items[1..] + [item];
      ItemsNeedMore(items[1..], item);
    }
  }

  function NeedOf(v: Option<JSON>): nat {
    match v case None => 0 case Some(t) => Need(t)
  }

  lemma {:induction false} ValueWeighs(ts: TokenStream)
    ensures var r := ReadValue(ts); r.Read? ==> StreamWeight(ts) >= NeedOf(r.value) + StreamWeight(r.rest)
    decreases ts, 0
  {
    if !ts.Cons? {
    } else if ts.head == Separator('{') {
      RowsWeigh(ts.tail, true, []);
    } else if ts.head == Separator('[') {
      ElementsWeigh(ts.tail, true, []);
    } else {
      ScalarWeighs(ts.head);
    }
  }

  lemma {:induction false} RowsWeigh(ts: TokenStream, first: bool, fields: seq<Field<JSON>>)
    ensures var r := ReadRows(ts, first, fields);
            r.Rows? ==> && StreamWeight(ts) + RowsNeed(fields) >= RowsNeed(r.fields) + StreamWeight(r.rest)
                        && StreamWeight(ts) >= 1 + StreamWeight(r.rest)
    decreases ts, 1
  {
    if ts.Cons? && !(first && ts.head == Separator('}')) && ReadRows(ts, first, fields).Rows? {
      var r := ReadValue(ts.tail.tail);
      ValueWeighs(ts.tail.tail);
      var fields' := if r.value.Some? then Insert(fields, ts.head.s, r.value.value) else fields;
      if r.value.Some? {
        InsertNeeds(fields, ts.head.s, r.value.value);
      }
      if r.rest.head == Separator(',') {
        RowsWeigh(r.rest.tail, false, fields');
      }
    }
  }

  lemma {:induction false} ElementsWeigh(ts: TokenStream, first: bool, items: seq<JSON>)
    ensures var r := ReadElements(ts, first, items);
            r.Elements? ==> && StreamWeight(ts) + ItemsNeed(items) >= ItemsNeed(r.items) + StreamWeight(r.rest)
                            && StreamWeight(ts) >= 1 + StreamWeight(r.rest)
    decreases ts, 1
  {
    if ts.Cons? && !(first && ts.head == Separator(']')) && ReadElements(ts, first, items).Elements? {
      var r := ReadValue(ts);
      ValueWeighs(ts);
      var items' := if r.value.Some? then items + [r.value.value] else items;
      if r.value.Some? {
        ItemsNeedMore(items, r.value.value);
      }
      if r.rest.head == Separator(',') {
        ElementsWeigh(r.rest.tail, false, items');
      }
    }
  }

  /** Whatever is read from a text, the text has at least the weight that the tree needs. */
  lemma TextIsHeavy(text: string)
    ensures ReadText(text).Some? ==> Weight(text) >= Need(ReadText(text).value)
  {
    TextWeighs(text);
    ValueWeighs(Tokens(text));
  }

  // ---------------------------------------------------------------- what is printed

  /** What is printed weighs as much as it needs, or less if something is lost. */
  predicate Weighs(text: string, need: nat, kept: bool) {
    if kept then Weight(text) == need else Weight(text) < need
  }

  lemma {:induction false} HexIsHeavy(c: char)
    requires !IsBare(c)
    ensures Weight(EscapeCode(c)) == |EscapeCode(c)|
  {
    var code := EscapeCode(c);
    if |code| == 1 {
      assert code[1..] == [];
    } else {
      HexIsVisible(c as nat / 16);
      HexIsVisible(c as nat % 16);
      WeightOfTwo(code);
      WeightOfTwo(code[2..]);
      assert code[2..][2..] == [code[4]];
      assert [code[4]][1..] == [];
    }
  }

  lemma HexIsVisible(d: nat)
    requires d < 16
    ensures CharWeight(HexDigit(d)) == 1
  {
  }

  lemma CharIsWeighed(c: char)
    ensures Weighs(EscapeChar(c), CharCost(c), c != '\0')
  {
    if IsBare(c) {
      assert [c][1..] == [];
    } else {
      HexIsHeavy(c);
      assert EscapeChar(c)[1..] == EscapeCode(c);
    }
  }

  lemma {:induction false} EscapedIsWeighed(s: string)
    ensures Weighs(EscapeText(s), Cost(s), '\0' !in s)
  {
    if s != [] {
      CharIsWeighed(s[0]);
      EscapedIsWeighed(s[1..]);
      WeightConcat(EscapeChar(s[0]), EscapeText(s[1..]));
      assert '\0' in s <==> s[0] == '\0' || '\0' in s[1..];
    }
  }

  /** The unquoted form lacks its first two characters and both quotation marks. */
  lemma StringIsWeighed(s: string)
    ensures Weighs(StringText(s), 2 + Cost(s), Faithful(s))
  {
    if IsUnquoted(s) {
      EscapedIsWeighed(s[2..]);
      assert s == s[..2] + s[2..];
      CostConcat(s[..2], s[2..]);
    } else {
      EscapedIsWeighed(s);
      QuotedWeighs(EscapeText(s));
    }
  }

  lemma QuotedWeighs(s: string)
    ensures Weight("\"" + s + "\"") == 2 + Weight(s)
  {
    assert ("\"" + s + "\"")[1..] == s + "\"";
    WeightConcat(s, "\"");
    assert "\""[1..] == "";
  }

  lemma {:induction false} KeyIsWeighed(key: string)
    ensures Weighs(key, Cost(key), PlainKey(key))
  {
    if key != [] {
      KeyIsWeighed(key[1..]);
      assert PlainKey(key) <==> PlainKey([key[0]]) && PlainKey(key[1..]) by {
        assert key == [key[0]] + key[1..];
      }
    }
  }

  lemma {:induction false} DigitsWeigh(s: string)
    requires forall c | c in s :: IsDigit(c)
    ensures Weight(s) == |s|
  {
    if s != [] {
      assert s[0] in s && forall c | c in s[1..] :: c in s;
      DigitsWeigh(s[1..]);
    }
  }

  lemma IntWeighs(n: int)
    ensures Weight(IntText(n)) == |IntText(n)|
  {
    DigitsAreCanonical(if n < 0 then -n else n);
    DigitsWeigh(Digits(if n < 0 then -n else n));
    assert n < 0 ==> IntText(n)[1..] == Digits(-n);
  }

  lemma AreDigitsWeigh(s: string)
    requires AreDigits(s)
    ensures Weight(s) == |s|
  {
    forall c | c in s ensures IsDigit(c) {
      var i :| 0 <= i < |s| && s[i] == c;
    }
    DigitsWeigh(s);
  }

  lemma {:induction false} SegmentsWeigh(cls: NumberClass, gs: seq<Segment>)
    requires Alternate(cls, gs)
    ensures Weight(SegmentsText(gs)) == |SegmentsText(gs)|
    decreases |gs|
  {
    if gs != [] {
      SegmentWeighs(gs[0]);
      SegmentsWeigh(ClassAfter(gs[0]), gs[1..]);
      WeightConcat(SegmentText(gs[0]), SegmentsText(gs[1..]));
    }
  }

  lemma SegmentWeighs(g: Segment)
    requires IsSegment(g)
    ensures Weight(SegmentText(g)) == |SegmentText(g)|
  {
    AreDigitsWeigh(g.digits);
    match g {
      case Fraction(digits) =>
        assert ("." + digits)[1..] == digits;
      case Exponent(mark, sign, digits) =>
        WeightConcat([mark] + sign, digits);
        WeightConcat([mark], sign);
        assert [mark][1..] == "" && "+"[1..] == "" && "-"[1..] == "";
    }
  }

  lemma FloatWeighs(text: string)
    requires IsFloatText(text)
    ensures Weight(text) == |text|
  {
    var minus, whole, gs :| IsFloat(text, minus, whole, gs);
    var sign := if minus then "-" else "";
    AreDigitsWeigh(whole);
    SegmentsWeigh(IntegerClass, gs);
    WeightConcat(sign + whole, SegmentsText(gs));
    WeightConcat(sign, whole);
    assert "-"[1..] == "";
  }

  lemma WordsWeigh()
    ensures Weight("null") == 4 && Weight("true") == 4 && Weight("false") == 5
  {
    WeightOfTwo("null");
    WeightOfTwo("true");
    WeightOfTwo("false");
    assert "null"[2..] == "ll" && "true"[2..] == "ue" && "false"[2..] == "lse";
    assert Weight("ll") == 2 && Weight("ue") == 2 && Weight("lse") == 3 by {
      WeightOfTwo("ll");
      WeightOfTwo("ue");
      WeightOfTwo("lse");
      assert "lse"[2..][1..] == "";
    }
  }

  lemma ScalarIsWeighed(s: Scalar)
    requires PrintableScalar(s)
    ensures Weighs(ScalarText(s), ScalarNeed(s), s.Str? ==> Faithful(s.s))
  {
    match s {
      case Str(t) => StringIsWeighed(t);
      case Int(n) => IntWeighs(n);
      case Long(n) => IntWeighs(n);
      case Float(text) => FloatWeighs(text);
      case _ => WordsWeigh();
    }
  }

  lemma {:induction false} SpacesWeigh(n: nat)
    ensures Weight(Spaces(n)) == 0
  {
    if n > 0 {
      assert Spaces(n)[1..] == Spaces(n - 1);
      SpacesWeigh(n - 1);
    }
  }

  lemma MarksWeigh(more: bool, indent: nat)
    ensures Weight(NewLine(indent)) == 0 && Weight(Colon(indent)) == 1
    ensures Weight(RowEnd(more, indent)) == Weight(ItemEnd(more, indent)) == if more then 1 else 0
  {
    assert "\n"[1..] == "" && ":"[1..] == "" && ","[1..] == "";
    assert " : "[1..] == ": " && ": "[1..] == " " && " "[1..] == "";
    WeightConcat(if more then "," else "", NewLine(indent));
  }

  ghost predicate IsKept(v: JSON) {
    AllPlain(v) && AllFaithful(v)
  }

  ghost predicate RowsKept(fields: seq<Field<JSON>>) {
    forall i | 0 <= i < |fields| :: PlainKey(fields[i].key) && IsKept(fields[i].value)
  }

  ghost predicate ItemsKept(items: seq<JSON>) {
    forall i | 0 <= i < |items| :: IsKept(items[i])
  }

  lemma {:induction false} RowsKeptSplit(fields: seq<Field<JSON>>)
    requires fields != []
    ensures RowsKept(fields) <==> PlainKey(fields[0].key) && IsKept(fields[0].value) && RowsKept(fields[1..])
  {
    assert fields == [fields[0]] + fields[1..];
  }

  lemma {:induction false} ItemsKeptSplit(items: seq<JSON>)
    requires items != []
    ensures ItemsKept(items) <==> IsKept(items[0]) && ItemsKept(items[1..])
  {
    assert items == [items[0]] + items[1..];
  }

  lemma {:induction false} ValueIsWeighed(v: JSON, indent: nat)
    requires Storable(v)
    ensures Weighs(Print(v, indent), Need(v), IsKept(v))
    decreases v, 1
  {
    if v.Leaf? {
      ScalarIsWeighed(v.scalar);
    } else {
      ContainerIsWeighed(v, Inner(indent));
    }
  }

  /** The text of a tree weighs what the tree needs if its keys and strings are kept, and less if not. */
  lemma {:induction false} ContainerIsWeighed(v: JSON, indent: nat)
    requires Storable(v) && !v.Leaf? && indent != 1
    ensures Weighs(PrintContainer(v, indent), Need(v), IsKept(v))
    decreases v, 0
  {
    match v {
      case Object(fields) =>
        ObjectIsWeighed(fields, indent);
        assert IsKept(v) <==> RowsKept(fields);
      case Array(items) =>
        ArrayIsWeighed(items, indent);
        assert IsKept(v) <==> ItemsKept(items);
    }
  }

  lemma {:induction false} ObjectIsWeighed(fields: seq<Field<JSON>>, indent: nat)
    requires indent != 1 && forall i | 0 <= i < |fields| :: Storable(fields[i].value)
    ensures Weighs(PrintContainer(Object(fields), indent), Need(Object(fields)), RowsKept(fields))
    decreases fields, 1
  {
    MarksWeigh(false, indent);
    SpacesWeigh(Outdent(indent));
    RowsAreWeighed(fields, indent);
    BracketsWeigh("{", NewLine(indent), PrintRows(fields, indent), Spaces(Outdent(indent)), "}");
  }

  lemma {:induction false} ArrayIsWeighed(items: seq<JSON>, indent: nat)
    requires indent != 1 && forall i | 0 <= i < |items| :: Storable(items[i])
    ensures Weighs(PrintContainer(Array(items), indent), Need(Array(items)), ItemsKept(items))
    decreases items, 1
  {
    var nl, spaces := NewLine(indent), Spaces(Outdent(indent));
    MarksWeigh(false, indent);
    SpacesWeigh(Outdent(indent));
    ItemsAreWeighed(items, indent);
    WeightConcat(nl, spaces);
    BracketsWeigh("[", nl, PrintItems(items, indent), nl + spaces, "]");
    assert PrintContainer(Array(items), indent) == "[" + nl + PrintItems(items, indent) + (nl + spaces) + "]";
  }

  lemma BracketsWeigh(open: string, nl: string, inner: string, blank: string, close: string)
    requires |open| == |close| == 1 && Weight(nl) == Weight(blank) == 0
    requires CharWeight(open[0]) == CharWeight(close[0]) == 1
    ensures Weight(open + nl + inner + blank + close) == 2 + Weight(inner)
  {
    WeightConcat(open + nl + inner + blank, close);
    WeightConcat(open + nl + inner, blank);
    WeightConcat(open + nl, inner);
    WeightConcat(open, nl);
    assert open[1..] == "" && close[1..] == "";
  }

  lemma {:induction false} RowsAreWeighed(fields: seq<Field<JSON>>, indent: nat)
    requires forall i | 0 <= i < |fields| :: Storable(fields[i].value)
    ensures fields == [] ==> PrintRows(fields, indent) == ""
    ensures var need := RowsNeed(fields);
            fields != [] ==> need > 0 && Weighs(PrintRows(fields, indent), need - 1, RowsKept(fields))
    decreases fields, 0
  {
    if fields != [] {
      var row, more, tail := fields[0], |fields| > 1, fields[1..];
      RowIsWeighed(row, more, indent);
      RowsAreWeighed(tail, indent);
      WeightConcat(PrintRow(row, more, indent), PrintRows(tail, indent));
      RowsKeptSplit(fields);
    }
  }

  lemma {:induction false} RowIsWeighed(row: Field<JSON>, more: bool, indent: nat)
    requires Storable(row.value)
    ensures Weighs(PrintRow(row, more, indent), RowNeed(row) - (if more then 0 else 1),
                   PlainKey(row.key) && IsKept(row.value))
    decreases row
  {
    ValueIsWeighed(row.value, indent);
    KeyIsWeighed(row.key);
    HeadWeighs(row.key, indent);
    MarksWeigh(more, indent);
    WeightConcat(RowHead(row.key, indent) + Print(row.value, indent), RowEnd(more, indent));
    WeightConcat(RowHead(row.key, indent), Print(row.value, indent));
  }

  lemma HeadWeighs(key: string, indent: nat)
    ensures Weight(RowHead(key, indent)) == 2 + Weight(key) + 1
  {
    SpacesWeigh(indent);
    MarksWeigh(false, indent);
    QuotedWeighs(key);
    assert RowHead(key, indent) == Spaces(indent) + ("\"" + key + "\"") + Colon(indent);
    WeightConcat(Spaces(indent) + ("\"" + key + "\""), Colon(indent));
    WeightConcat(Spaces(indent), "\"" + key + "\"");
  }

  lemma {:induction false} ItemsAreWeighed(items: seq<JSON>, indent: nat)
    requires forall i | 0 <= i < |items| :: Storable(items[i])
    ensures items == [] ==> PrintItems(items, indent) == ""
    ensures var need := ItemsNeed(items);
            items != [] ==> need > 0 && Weighs(PrintItems(items, indent), need - 1, ItemsKept(items))
    decreases items, 0
  {
    if items != [] {
      var item, more, tail := items[0], |items| > 1, items[1..];
      ItemIsWeighed(item, more, indent);
      ItemsAreWeighed(tail, indent);
      WeightConcat(PrintItem(item, more, indent), PrintItems(tail, indent));
      ItemsKeptSplit(items);
    }
  }

  lemma {:induction false} ItemIsWeighed(item: JSON, more: bool, indent: nat)
    requires Storable(item)
    ensures Weighs(PrintItem(item, more, indent), Need(item) + (if more then 1 else 0), IsKept(item))
    decreases item, 2
  {
    ValueIsWeighed(item, indent);
    SpacesWeigh(indent);
    MarksWeigh(more, indent);
    WeightConcat(Spaces(indent) + Print(item, indent), ItemEnd(more, indent));
    WeightConcat(Spaces(indent), Print(item, indent));
  }

  // ---------------------------------------------------------------- what is lost

  /** Other holders weigh the same. */
  lemma {:induction false} NormalNeeds(v: JSON)
    ensures Need(Normal(v)) == Need(v)
    decreases v
  {
    match v {
      case Leaf(_) =>
      case Array(items) => NormalItemsNeed(items);
      case Object(fields) => NormalRowsNeed(fields);
    }
  }

  lemma {:induction false} NormalItemsNeed(items: seq<JSON>)
    ensures ItemsNeed(NormalItems(items)) == ItemsNeed(items) && (NormalItems(items) == [] <==> items == [])
    decreases items
  {
    if items != [] {
      NormalNeeds(items[0]);
      NormalItemsNeed(items[1..]);
      assert NormalItems(items)[1..] == NormalItems(items[1..]);
    }
  }

  lemma {:induction false} NormalRowsNeed(fields: seq<Field<JSON>>)
    ensures RowsNeed(NormalFields(fields)) == RowsNeed(fields) && (NormalFields(fields) == [] <==> fields == [])
    decreases fields
  {
    if fields != [] {
      NormalNeeds(fields[0].value);
      NormalRowsNeed(fields[1..]);
      assert NormalFields(fields)[1..] == NormalFields(fields[1..]);
    }
  }

  /** A text that is read as its tree has only plain keys and faithful strings. */
  lemma ReadBackIsKept(v: JSON, indent: nat)
    requires Storable(v) && !v.Leaf? && indent != 1
    requires ReadText(PrintContainer(v, indent)) == Some(Normal(v))
    ensures AllPlain(v) && AllFaithful(v)
  {
    ContainerIsWeighed(v, indent);
    TextIsHeavy(PrintContainer(v, indent));
    NormalNeeds(v);
  }
}
