/** The grammar that the parser accepts, with its lenient cases: exactly these token sequences are documents,
    and each is read as its meaning. */
module JsonGrammar {
  import opened TextStream
  import opened JsonValue
  import opened JsonLexer
  import opened JsonParser

  /** A value as it is written: a scalar, a token that is passed over, or a container. */
  datatype Loose = Single(t: Token) | Skipped(t: Token) | Braces(rows: seq<Row>) | Brackets(items: seq<Loose>)

  datatype Row = Row(key: string, value: Loose)

  /** The words, numbers and strings that are values. */
  function ScalarMeaning(t: Token): Option<Scalar> {
    match t
    case StringLiteral(s) => Some(Str(s))
    case IntegerLiteral(text) => IntegerScalar(text)
    case FloatLiteral(text) => Some(Float(text))
    case DoubleLiteral(text) => Some(Float(text))
    case Keyword(word) =>
      if word == "null" then Some(Null)
      else if word == "true" then Some(Bool(true))
      else if word == "false" then Some(Bool(false))
      else None
    case _ => None
  }

  /** Any other character, and a separator out of place, is passed over where a value is expected; only the
      bracket that would close an empty array is not. */
  ghost predicate IsLoose(v: Loose)
    decreases v
  {
    match v
    case Single(t) => ScalarMeaning(t).Some?
    case Skipped(t) => t.Invalid? || (t.Separator? && t.c !in {'{', '['})
    case Braces(rows) => forall i | 0 <= i < |rows| :: IsLoose(rows[i].value)
    case Brackets(items) =>
      (forall i | 0 <= i < |items| :: IsLoose(items[i])) && (items != [] ==> items[0] != Skipped(Separator(']')))
  }

  /** The tokens of a value, before other tokens. */
  function Stream(v: Loose, ts: TokenStream): TokenStream
    decreases v, 1
  {
    match v
    case Single(t) => Cons(t, ts)
    case Skipped(t) => Cons(t, ts)
    case Braces(rows) => Cons(Separator('{'), RowsStream(rows, ts))
    case Brackets(items) => Cons(Separator('['), ItemsStream(items, ts))
  }

  function RowsStream(rows: seq<Row>, ts: TokenStream): TokenStream
    decreases rows, 0
  {
    if rows == [] then Cons(Separator('}'), ts)
    else
      var after := if |rows| == 1 then Cons(Separator('}'), ts) else Cons(Separator(','), RowsStream(rows[1..], ts));
      Cons(StringLiteral(rows[0].key), Cons(Separator(':'), Stream(rows[0].value, after)))
  }

  function ItemsStream(items: seq<Loose>, ts: TokenStream): TokenStream
    decreases items, 0
  {
    if items == [] then Cons(Separator(']'), ts)
    else
      var after := if |items| == 1 then Cons(Separator(']'), ts) else Cons(Separator(','), ItemsStream(items[1..], ts));
      Stream(items[0], after)
  }

  /** What is passed over leaves nothing; the last of several equal keys wins. */
  function Meaning(v: Loose): Option<JSON>
    decreases v, 1
  {
    match v
    case Single(t) => (match ScalarMeaning(t) case None => None case Some(s) => Some(Leaf(s)))
    case Skipped(_) => None
    case Braces(rows) => Some(Object(RowsMeaning(rows, [])))
    case Brackets(items) => Some(Array(ItemsMeaning(items)))
  }

  function RowsMeaning(rows: seq<Row>, fields: seq<Field<JSON>>): seq<Field<JSON>>
    decreases rows, 0
  {
    if rows == [] then fields
    else
      var v := Meaning(rows[0].value);
      RowsMeaning(rows[1..], if v.Some? then Insert(fields, rows[0].key, v.value) else fields)
  }

  function ItemsMeaning(items: seq<Loose>): seq<JSON>
    decreases items, 0
  {
    if items == [] then []
    else
      var v := Meaning(items[0]);
      (if v.Some? then [v.value] else []) + ItemsMeaning(items[1..])
  }

  // ---------------------------------------------------------------- what is written is read

  lemma {:induction false} LooseIsRead(v: Loose, ts: TokenStream)
    requires IsLoose(v)
    ensures ReadValue(Stream(v, ts)) == Read(Meaning(v), ts)
    decreases v, 1
  {
    match v {
      case Single(t) =>
      case Skipped(t) =>
      case Braces(rows) => RowsAreRead(rows, ts, true, []);
      case Brackets(items) =>
        ItemsAreRead(items, ts, true, []);
        assert [] + ItemsMeaning(items) == ItemsMeaning(items);
    }
  }

  lemma {:induction false} RowsAreRead(rows: seq<Row>, ts: TokenStream, first: bool, fields: seq<Field<JSON>>)
    requires (forall i | 0 <= i < |rows| :: IsLoose(rows[i].value)) && (rows == [] ==> first)
    ensures ReadRows(RowsStream(rows, ts), first, fields) == Rows(RowsMeaning(rows, fields), ts)
    decreases rows, 0
  {
    if rows != [] {
      var after := if |rows| == 1 then Cons(Separator('}'), ts) else Cons(Separator(','), RowsStream(rows[1..], ts));
      LooseIsRead(rows[0].value, after);
      var v := Meaning(rows[0].value);
      var fields' := if v.Some? then Insert(fields, rows[0].key, v.value) else fields;
      if |rows| == 1 {
        assert rows[1..] == [];
      } else {
        RowsAreRead(rows[1..], ts, false, fields');
      }
    }
  }

  lemma {:induction false} ItemsAreRead(items: seq<Loose>, ts: TokenStream, first: bool, done: seq<JSON>)
    requires (forall i | 0 <= i < |items| :: IsLoose(items[i])) && (items == [] ==> first)
    requires first && items != [] ==> items[0] != Skipped(Separator(']'))
    ensures ReadElements(ItemsStream(items, ts), first, done) == Elements(done + ItemsMeaning(items), ts)
    decreases items, 0
  {
    if items == [] {
      assert done + [] == done;
    } else {
      var after := if |items| == 1 then Cons(Separator(']'), ts) else Cons(Separator(','), ItemsStream(items[1..], ts));
      LooseIsRead(items[0], after);
      NoClosingFirst(items[0], after);
      var v := Meaning(items[0]);
      var one := if v.Some? then [v.value] else [];
      var done' := if v.Some? then done + [v.value] else done;
      assert done' == done + one;
      assert done + one + ItemsMeaning(items[1..]) == done + (one + ItemsMeaning(items[1..]));
      if |items| == 1 {
        assert items[1..] == [] && done' + [] == done';
      } else {
        ItemsAreRead(items[1..], ts, false, done');
      }
    }
  }

  lemma NoClosingFirst(v: Loose, ts: TokenStream)
    requires IsLoose(v)
    ensures Stream(v, ts).Cons? && (v != Skipped(Separator(']')) ==> Stream(v, ts).head != Separator(']'))
  {
  }

  // ---------------------------------------------------------------- what is read is written so

  lemma {:induction false} ReadIsLoose(ts: TokenStream) returns (v: Loose)
    requires ReadValue(ts).Read?
    ensures IsLoose(v) && ts == Stream(v, ReadValue(ts).rest) && ReadValue(ts).value == Meaning(v)
    decreases ts, 0
  {
    if ts.head == Separator('{') {
      var rows := ReadIsRows(ts.tail, true, []);
      v := Braces(rows);
    } else if ts.head == Separator('[') {
      var items := ReadIsItems(ts.tail, true, []);
      v := Brackets(items);
      assert [] + ItemsMeaning(items) == ItemsMeaning(items);
    } else if Ignored(ts.head) {
      v := Skipped(ts.head);
    } else {
      v := Single(ts.head);
    }
  }

  lemma {:induction false} ReadIsRows(ts: TokenStream, first: bool, fields: seq<Field<JSON>>) returns (rows: seq<Row>)
    requires ReadRows(ts, first, fields).Rows?
    ensures forall i | 0 <= i < |rows| :: IsLoose(rows[i].value)
    ensures var r := ReadRows(ts, first, fields);
            ts == RowsStream(rows, r.rest) && r.fields == RowsMeaning(rows, fields) && (rows == [] ==> first)
    decreases ts, 1
  {
    if first && ts.head == Separator('}') {
      rows := [];
    } else {
      var r := ReadValue(ts.tail.tail);
      var v := ReadIsLoose(ts.tail.tail);
      var fields' := if r.value.Some? then Insert(fields, ts.head.s, r.value.value) else fields;
      var more := [];
      if r.rest.head == Separator(',') {
        more := ReadIsRows(r.rest.tail, false, fields');
      }
      rows := [Row(ts.head.s, v)] + more;
      assert rows[1..] == more;
    }
  }

  lemma {:induction false} ReadIsItems(ts: TokenStream, first: bool, done: seq<JSON>) returns (items: seq<Loose>)
    requires ReadElements(ts, first, done).Elements?
    ensures forall i | 0 <= i < |items| :: IsLoose(items[i])
    ensures first && items != [] ==> items[0] != Skipped(Separator(']'))
    ensures var r := ReadElements(ts, first, done);
            ts == ItemsStream(items, r.rest) && r.items == done + ItemsMeaning(items) && (items == [] ==> first)
    decreases ts, 1
  {
    if first && ts.head == Separator(']') {
      items := [];
      assert done + [] == done;
    } else {
      var r := ReadValue(ts);
      var v := ReadIsLoose(ts);
      var one := if r.value.Some? then [r.value.value] else [];
      var done' := if r.value.Some? then done + [r.value.value] else done;
      var more := [];
      if r.rest.head == Separator(',') {
        more := ReadIsItems(r.rest.tail, false, done');
      }
      items := [v] + more;
      assert items[1..] == more;
      assert done' == done + one;
      assert done + one + ItemsMeaning(more) == done + (one + ItemsMeaning(more));
    }
  }

  // ---------------------------------------------------------------- documents

  ghost predicate IsContainer(v: Loose) {
    v.Braces? || v.Brackets?
  }

  /** What is written as an object or an array, with nothing after it, is a document. */
  lemma DocumentIsRead(v: Loose)
    requires IsLoose(v) && IsContainer(v)
    ensures ReadDocument(Stream(v, EndOfText)) == Meaning(v)
  {
    LooseIsRead(v, EndOfText);
  }

  /** And nothing else is. */
  lemma DocumentIsWritten(ts: TokenStream) returns (v: Loose)
    requires ReadDocument(ts).Some?
    ensures IsLoose(v) && IsContainer(v) && ts == Stream(v, EndOfText) && ReadDocument(ts) == Meaning(v)
  {
    v := ReadIsLoose(ts);
  }
}
