/** The recursive-descent parser: which token sequences it accepts, lenient cases included, which
    events it reports to its handler, and the tree that a plain recursive reading of the same
    grammar gives. The class calls the handler while it pulls tokens from the stream. */
module JsonParser {
  import opened TextStream
  import opened JsonValue
  import opened JsonLexer
  import opened JsonHandler

  // ---------------------------------------------------------------- events

  datatype Parse = Accept(events: seq<Event>, rest: TokenStream) | Reject

  predicate IsSignedDigits(text: string) {
    text != [] && forall i | 0 <= i < |text| :: IsDigit(text[i]) || (i == 0 && text[i] == '-')
  }

  /** `asInteger` saturates at the limits of `int`, in which case the text is read again with
      `parse64`, which throws outside 64 bits. */
  function IntegerScalar(text: string): Option<Scalar> {
    if !IsSignedDigits(text) then None
    else
      var n := IntValue(text);
      if INT_MIN < n < INT_MAX then Some(Int(n))
      else if INT64_MIN <= n <= INT64_MAX then Some(Long(n))
      else None
  }

  /** The same in the order of the source: the saturated value first, and the test of the limits on it. */
  lemma IntegerIsTested(text: string)
    requires IsSignedDigits(text)
    ensures var n := IntValue(text);
            var value := Saturated(n);
            IntegerScalar(text) ==
            if value == INT_MAX || value == INT_MIN then
              if INT64_MIN <= n <= INT64_MAX then Some(Long(n)) else None
            else Some(Int(value))
  {
  }

  function KeywordScalar(word: string): Option<Scalar> {
    if word == "null" then Some(Null)
    else if word == "true" then Some(Bool(true))
    else if word == "false" then Some(Bool(false))
    else None
  }

  function ScalarOf(t: Token): Option<Scalar> {
    match t
    case IntegerLiteral(text) => IntegerScalar(text)
    case FloatLiteral(text) => Some(Float(text))
    case DoubleLiteral(text) => Some(Float(text))
    case StringLiteral(s) => Some(Str(s))
    case Keyword(word) => KeywordScalar(word)
    case _ => None
  }

  /** Tokens that `readValue` passes over without calling the handler. */
  predicate Ignored(t: Token) {
    t.Invalid? || (t.Separator? && t.c != '{' && t.c != '[')
  }

  /** `readValue`, whose token is the first of `ts`. */
  function ValueEvents(ts: TokenStream): (r: Parse)
    ensures r.Accept? ==> r.rest < ts
    decreases ts, 0
  {
    if !ts.Cons? then Reject
    else if ts.head == Separator('{') then Wrap(StartObject, RowEvents(ts.tail, true), EndObject)
    else if ts.head == Separator('[') then Wrap(StartArray, ElementEvents(ts.tail, true), EndArray)
    else if Ignored(ts.head) then Accept([], ts.tail)
    else match ScalarOf(ts.head)
      case None => Reject
      case Some(s) => Accept([Value(s)], ts.tail)
  }

  function Wrap(open: Event, p: Parse, close: Event): Parse {
    match p
    case Reject => Reject
    case Accept(evs, rest) => Accept([open] + evs + [close], rest)
  }

  /** One call of `readRow` or `readElements`: the last one, one that asks for another, or a throw. */
  datatype Line = Last(events: seq<Event>, rest: TokenStream) | More(events: seq<Event>, rest: TokenStream) | Bad

  /** What follows a value: the closing separator, or a comma. */
  function LineEnd(events: seq<Event>, rest: TokenStream, close: char): (r: Line)
    ensures !r.Bad? ==> r.rest < rest
  {
    if !rest.Cons? then Bad
    else if rest.head == Separator(close) then Last(events, rest.tail)
    else if rest.head == Separator(',') then More(events, rest.tail)
    else Bad
  }

  /** The colon and the value of a row. */
  function ColonValue(ts: TokenStream): (r: Parse)
    ensures r.Accept? ==> r.rest < ts
    decreases ts, 1
  {
    if !ts.Cons? || ts.head != Separator(':') then Reject else ValueEvents(ts.tail)
  }

  /** A row after its key. */
  function KeyedRow(key: string, ts: TokenStream): (r: Line)
    ensures !r.Bad? ==> r.rest < ts
    decreases ts, 2
  {
    match ColonValue(ts)
    case Reject => Bad
    case Accept(value, rest) => LineEnd([Key(key)] + value, rest, '}')
  }

  /** `readRow` */
  function RowLine(ts: TokenStream, firstCall: bool): (r: Line)
    ensures !r.Bad? ==> r.rest < ts
    decreases ts, 2
  {
    if !ts.Cons? then Bad
    else if firstCall && ts.head == Separator('}') then Last([], ts.tail)
    else if ts.head.StringLiteral? then KeyedRow(ts.head.s, ts.tail)
    else Bad
  }

  /** `readElements` */
  function ElementLine(ts: TokenStream, firstCall: bool): (r: Line)
    ensures !r.Bad? ==> r.rest < ts
    decreases ts, 1
  {
    if !ts.Cons? then Bad
    else if firstCall && ts.head == Separator(']') then Last([], ts.tail)
    else match ValueEvents(ts)
      case Reject => Bad
      case Accept(value, rest) => LineEnd(value, rest, ']')
  }

  function Join(prefix: seq<Event>, p: Parse): Parse {
    match p
    case Reject => Reject
    case Accept(evs, rest) => Accept(prefix + evs, rest)
  }

  /** `readRow(true)`, then `readRow()` while it asks for more. */
  function RowEvents(ts: TokenStream, firstCall: bool): (r: Parse)
    ensures r.Accept? ==> r.rest < ts
    decreases ts, 3
  {
    match RowLine(ts, firstCall)
    case Bad => Reject
    case Last(evs, rest) => Accept(evs, rest)
    case More(evs, rest) => Join(evs, RowEvents(rest, false))
  }

  /** `readElements(true)`, then `readElements()` while it asks for more. */
  function ElementEvents(ts: TokenStream, firstCall: bool): (r: Parse)
    ensures r.Accept? ==> r.rest < ts
    decreases ts, 2
  {
    match ElementLine(ts, firstCall)
    case Bad => Reject
    case Last(evs, rest) => Accept(evs, rest)
    case More(evs, rest) => Join(evs, ElementEvents(rest, false))
  }

  /** `parse`: an object or an array, and nothing after it. */
  predicate StartsDocument(ts: TokenStream) {
    ts.Cons? && (ts.head == Separator('{') || ts.head == Separator('['))
  }

  function DocumentEvents(ts: TokenStream): Option<seq<Event>> {
    if !StartsDocument(ts) then None
    else match ValueEvents(ts)
      case Reject => None
      case Accept(evs, rest) => if rest == EndOfText then Some(evs) else None
  }

  // ---------------------------------------------------------------- the recursive reading

  /** A value that was passed over leaves no tree. */
  datatype Reading = Read(value: Option<JSON>, rest: TokenStream) | Fail

  datatype Rows = Rows(fields: seq<Field<JSON>>, rest: TokenStream) | RowsFail

  datatype Elements = Elements(items: seq<JSON>, rest: TokenStream) | ElementsFail

  function ReadValue(ts: TokenStream): (r: Reading)
    ensures r.Read? ==> r.rest < ts
    decreases ts, 0
  {
    if !ts.Cons? then Fail
    else if ts.head == Separator('{') then
      match ReadRows(ts.tail, true, [])
      case RowsFail => Fail
      case Rows(fields, rest) => Read(Some(Object(fields)), rest)
    else if ts.head == Separator('[') then
      match ReadElements(ts.tail, true, [])
      case ElementsFail => Fail
      case Elements(items, rest) => Read(Some(Array(items)), rest)
    else if Ignored(ts.head) then Read(None, ts.tail)
    else match ScalarOf(ts.head)
      case None => Fail
      case Some(s) => Read(Some(Leaf(s)), ts.tail)
  }

  /** Each row sets its key, so the last of several equal keys wins. */
  function ReadRows(ts: TokenStream, firstCall: bool, fields: seq<Field<JSON>>): (r: Rows)
    ensures r.Rows? ==> r.rest < ts
    decreases ts, 1
  {
    if !ts.Cons? then RowsFail
    else if firstCall && ts.head == Separator('}') then Rows(fields, ts.tail)
    else if !ts.head.StringLiteral? || !ts.tail.Cons? || ts.tail.head != Separator(':') then RowsFail
    else match ReadValue(ts.tail.tail)
      case Fail => RowsFail
      case Read(value, rest) =>
        var fields' := if value.Some? then Insert(fields, ts.head.s, value.value) else fields;
        if !rest.Cons? then RowsFail
        else if rest.head == Separator('}') then Rows(fields', rest.tail)
        else if rest.head == Separator(',') then ReadRows(rest.tail, false, fields')
        else RowsFail
  }

  function ReadElements(ts: TokenStream, firstCall: bool, items: seq<JSON>): (r: Elements)
    ensures r.Elements? ==> r.rest < ts
    decreases ts, 1
  {
    if !ts.Cons? then ElementsFail
    else if firstCall && ts.head == Separator(']') then Elements(items, ts.tail)
    else match ReadValue(ts)
      case Fail => ElementsFail
      case Read(value, rest) =>
        var items' := if value.Some? then items + [value.value] else items;
        if !rest.Cons? then ElementsFail
        else if rest.head == Separator(']') then Elements(items', rest.tail)
        else if rest.head == Separator(',') then ReadElements(rest.tail, false, items')
        else ElementsFail
  }

  function ReadDocument(ts: TokenStream): Option<JSON> {
    if !StartsDocument(ts) then None
    else match ReadValue(ts)
      case Fail => None
      case Read(value, rest) => if rest == EndOfText then value else None
  }

  /** The tree of a text, by the recursive reading. */
  function ReadText(text: string): Option<JSON> {
    ReadDocument(Tokens(text))
  }

  // ---------------------------------------------------------------- objects are maps

  /** Every object in the tree has its fields strictly sorted by key. */
  ghost predicate AllSorted(v: JSON) {
    match v
    case Leaf(_) => true
    case Array(items) => forall i | 0 <= i < |items| :: AllSorted(items[i])
    case Object(fields) => Sorted(fields) && SortedValues(fields)
  }

  ghost predicate SortedValues(fields: seq<Field<JSON>>) {
    forall i | 0 <= i < |fields| :: AllSorted(fields[i].value)
  }

  lemma {:induction false} InsertKeepsValues(fields: seq<Field<JSON>>, key: string, value: JSON)
    requires SortedValues(fields) && AllSorted(value)
    ensures SortedValues(Insert(fields, key, value))
  {
    if fields != [] && key != fields[0].key && !Less(key, fields[0].key) {
      assert fields == [fields[0]] + fields[1..];
      InsertKeepsValues(fields[1..], key, value);
    }
  }

  /** Whatever the order of its rows and however often a key occurs, an object is read as a map. */
  lemma {:induction false} ReadValueIsSorted(ts: TokenStream)
    ensures ReadValue(ts).Read? && ReadValue(ts).value.Some? ==> AllSorted(ReadValue(ts).value.value)
    decreases ts, 0
  {
    if ts.Cons? && ts.head == Separator('{') {
      ReadRowsIsSorted(ts.tail, true, []);
    } else if ts.Cons? && ts.head == Separator('[') {
      ReadElementsIsSorted(ts.tail, true, []);
    }
  }

  lemma {:induction false} ReadRowsIsSorted(ts: TokenStream, first: bool, fields: seq<Field<JSON>>)
    requires Sorted(fields) && SortedValues(fields)
    ensures var r := ReadRows(ts, first, fields); r.Rows? ==> Sorted(r.fields) && SortedValues(r.fields)
    decreases ts, 1
  {
    if ts.Cons? && !(first && ts.head == Separator('}')) && ReadRows(ts, first, fields).Rows? {
      var r := ReadValue(ts.tail.tail);
      ReadValueIsSorted(ts.tail.tail);
      if r.value.Some? {
        InsertKeepsSorted(fields, ts.head.s, r.value.value);
        InsertKeepsValues(fields, ts.head.s, r.value.value);
      }
      if r.rest.head == Separator(',') {
        ReadRowsIsSorted(r.rest.tail, false,
                         if r.value.Some? then Insert(fields, ts.head.s, r.value.value) else fields);
      }
    }
  }

  lemma {:induction false} ReadElementsIsSorted(ts: TokenStream, first: bool, items: seq<JSON>)
    requires forall i | 0 <= i < |items| :: AllSorted(items[i])
    ensures var r := ReadElements(ts, first, items);
            r.Elements? ==> forall i | 0 <= i < |r.items| :: AllSorted(r.items[i])
    decreases ts, 1
  {
    if ts.Cons? && !(first && ts.head == Separator(']')) && ReadElements(ts, first, items).Elements? {
      var r := ReadValue(ts);
      ReadValueIsSorted(ts);
      assert ReadElements(ts, first, items)
          == var items' := if r.value.Some? then items + [r.value.value] else items;
             if r.rest.head == Separator(']') then Elements(items', r.rest.tail)
             else ReadElements(r.rest.tail, false, items');
      if r.rest.head == Separator(',') {
        ReadElementsIsSorted(r.rest.tail, false, if r.value.Some? then items + [r.value.value] else items);
      }
    }
  }

  // ---------------------------------------------------------------- the handler builds the reading

  /** What the parser keeps between two values: pointers lead to later nodes, and the open
      containers are nodes. */
  ghost predicate Sound(st: Store) {
    InRange(st) && Closed(st.cells) && st.stack != []
  }

  /** Only the open container and new nodes differ. */
  ghost predicate TouchesTop(st: Store, st': Store)
    requires Sound(st)
  {
    && Sound(st') && st'.stack == st.stack && st'.root == st.root
    && |st.cells| <= |st'.cells|
    && forall j | 0 <= j < |st.cells| && j != Top(st.stack) :: st'.cells[j] == st.cells[j]
  }

  /** The slot that a value takes: containers become the next node. */
  ghost function NewSlot(st: Store, v: JSON): Slot {
    if v.Leaf? then Held(v.scalar) else Ref(|st.cells|)
  }

  /** From `st` to `st'`, exactly the value read has been attached to the open container. */
  ghost predicate Attached(st: Store, st': Store, value: Option<JSON>)
    requires Sound(st)
  {
    && TouchesTop(st, st')
    && match value
       case None => st' == st
       case Some(v) =>
         var slot := NewSlot(st, v);
         && st'.cells[Top(st.stack)] == AddSlot(st.cells[Top(st.stack)], st.key, slot)
         && (slot.Ref? ==> slot.id < |st'.cells|)
         && TreeOf(st'.cells, slot) == v
  }

  lemma AttachKeepsClosed(st: Store, slot: Slot, empty: Cell)
    requires Sound(st) && empty in {ArrayCell([]), ObjectCell([])}
    requires slot.Ref? ==> slot.id == |st.cells|
    ensures var st' := Attach(st, slot);
            Closed(if slot.Ref? then st'.cells + [empty] else st'.cells)
  {
    var top := Top(st.stack);
    var cell := st.cells[top];
    var hi := if slot.Ref? then |st.cells| + 1 else |st.cells|;
    assert CellAbove(AddSlot(cell, st.key, slot), top, hi) by {
      assert CellAbove(cell, top, |st.cells|);
      if cell.ObjectCell? {
        InsertStaysAbove(cell.fields, st.key, slot, top, hi);
      }
    }
    var st' := Attach(st, slot);
    var cells := if slot.Ref? then st'.cells + [empty] else st'.cells;
    forall i | 0 <= i < |cells| ensures CellAbove(cells[i], i, |cells|) {
      if i < |st.cells| && i != top {
        assert CellAbove(st.cells[i], i, |st.cells|);
      }
    }
  }

  /** Opening a container inside another one. */
  lemma OpenKeepsSound(st: Store, empty: Cell)
    requires Sound(st) && empty in {ArrayCell([]), ObjectCell([])}
    ensures Sound(Open(st, empty))
  {
    AttachKeepsClosed(st, Ref(|st.cells|), empty);
  }

  lemma {:induction false} ValueBuilds(ts: TokenStream, st: Store)
    requires Sound(st)
    ensures ValueEvents(ts).Accept? <==> ReadValue(ts).Read?
    ensures ValueEvents(ts).Accept? ==>
              && ValueEvents(ts).rest == ReadValue(ts).rest
              && CanRun(st, ValueEvents(ts).events)
              && Attached(st, Run(st, ValueEvents(ts).events), ReadValue(ts).value)
    decreases ts, 0
  {
    if !ts.Cons? {
    } else if ts.head == Separator('{') {
      ContainerBuilds(ts, st, ObjectCell([]));
    } else if ts.head == Separator('[') {
      ContainerBuilds(ts, st, ArrayCell([]));
    } else if ScalarOf(ts.head).Some? {
      var s := ScalarOf(ts.head).value;
      RunOne(st, Value(s));
      AttachKeepsClosed(st, Held(s), ArrayCell([]));
    }
  }

  /** The tree of the container on top of the stack. */
  ghost function OpenTree(st: Store): JSON
    requires Sound(st)
  {
    TreeOf(st.cells, Ref(Top(st.stack)))
  }

  /** Closing the container that was opened last attaches its tree. */
  lemma CloseAttaches(st: Store, empty: Cell, st2: Store, close: Event)
    requires Sound(st) && empty in {ArrayCell([]), ObjectCell([])} && close in {EndObject, EndArray}
    requires Sound(Open(st, empty)) && TouchesTop(Open(st, empty), st2)
    requires !OpenTree(st2).Leaf?
    ensures Attached(st, Step(st2, close), Some(OpenTree(st2)))
  {
    var st1 := Open(st, empty);
    assert Top(st1.stack) == |st.cells|;
    assert st1.stack[..|st1.stack| - 1] == st.stack;
    assert st1.cells[Top(st.stack)] == AddSlot(st.cells[Top(st.stack)], st.key, Ref(|st.cells|));
  }

  lemma {:induction false} ContainerBuilds(ts: TokenStream, st: Store, empty: Cell)
    requires Sound(st) && ts.Cons?
    requires || (ts.head == Separator('{') && empty == ObjectCell([]))
             || (ts.head == Separator('[') && empty == ArrayCell([]))
    ensures ValueEvents(ts).Accept? <==> ReadValue(ts).Read?
    ensures ValueEvents(ts).Accept? ==>
              && ValueEvents(ts).rest == ReadValue(ts).rest
              && CanRun(st, ValueEvents(ts).events)
              && Attached(st, Run(st, ValueEvents(ts).events), ReadValue(ts).value)
    decreases ts.tail, 5
  {
    var st1 := Open(st, empty);
    OpenKeepsSound(st, empty);
    var (open, close) := if empty.ObjectCell? then (StartObject, EndObject) else (StartArray, EndArray);
    InnerBuilds(ts, st1, empty);
    var parse := if empty.ObjectCell? then RowEvents(ts.tail, true) else ElementEvents(ts.tail, true);
    if parse.Accept? {
      var st2 := Run(st1, parse.events);
      RunWrapped(st, open, parse.events, close);
      CloseAttaches(st, empty, st2, close);
    }
  }

  /** What stands between the brackets fills the container that they open. */
  lemma {:induction false} InnerBuilds(ts: TokenStream, st1: Store, empty: Cell)
    requires Sound(st1) && st1.cells[Top(st1.stack)] == empty && ts.Cons?
    requires || (ts.head == Separator('{') && empty == ObjectCell([]))
             || (ts.head == Separator('[') && empty == ArrayCell([]))
    ensures var parse := if empty.ObjectCell? then RowEvents(ts.tail, true) else ElementEvents(ts.tail, true);
            && (parse.Accept? <==> ReadValue(ts).Read?)
            && (parse.Accept? ==>
                  && parse.rest == ReadValue(ts).rest
                  && CanRun(st1, parse.events)
                  && TouchesTop(st1, Run(st1, parse.events))
                  && ReadValue(ts).value == Some(OpenTree(Run(st1, parse.events)))
                  && !OpenTree(Run(st1, parse.events)).Leaf?)
    decreases ts.tail, 4
  {
    if empty.ObjectCell? {
      RowsBuild(ts.tail, true, st1, []);
    } else {
      ElementsBuild(ts.tail, true, st1, []);
    }
  }

  /** Rows fill the open object: its fields read as the rows read so far. */
  lemma {:induction false} RowsBuild(ts: TokenStream, firstCall: bool, st: Store, fields: seq<Field<JSON>>)
    requires Sound(st) && st.cells[Top(st.stack)].ObjectCell?
    requires CellAbove(st.cells[Top(st.stack)], Top(st.stack), |st.cells|)
    requires FieldTreesOf(st.cells, st.cells[Top(st.stack)].fields, Top(st.stack)) == fields
    ensures RowEvents(ts, firstCall).Accept? <==> ReadRows(ts, firstCall, fields).Rows?
    ensures RowEvents(ts, firstCall).Accept? ==>
              var evs, r := RowEvents(ts, firstCall).events, ReadRows(ts, firstCall, fields);
              && RowEvents(ts, firstCall).rest == r.rest
              && CanRun(st, evs)
              && TouchesTop(st, Run(st, evs))
              && var cell := Run(st, evs).cells[Top(st.stack)];
              && cell.ObjectCell? && CellAbove(cell, Top(st.stack), |Run(st, evs).cells|)
              && FieldTreesOf(Run(st, evs).cells, cell.fields, Top(st.stack)) == r.fields
    decreases ts, 3
  {
    if !ts.Cons? || (firstCall && ts.head == Separator('}')) || !ts.head.StringLiteral? {
      return;
    }
    var k, rows := ts.head.s, ts.tail;
    assert RowLine(ts, firstCall) == KeyedRow(k, rows);
    if !rows.Cons? || rows.head != Separator(':') {
      assert ColonValue(rows) == Reject && KeyedRow(k, rows) == Bad;
      assert RowEvents(ts, firstCall) == Reject && ReadRows(ts, firstCall, fields) == RowsFail;
      return;
    }
    KeyedRowBuilds(k, rows, st, fields);
    var value := ValueEvents(rows.tail);
    assert ColonValue(rows) == value;
    assert value.Accept? ==> KeyedRow(k, rows) == LineEnd([Key(k)] + value.events, value.rest, '}');
    var line := KeyedRow(k, rows);
    if line.More? {
      var v := ReadValue(rows.tail).value;
      var st2 := Run(st, line.events);
      RowsBuild(line.rest, false, st2, if v.Some? then Insert(fields, k, v.value) else fields);
      if RowEvents(line.rest, false).Accept? {
        RunConcat(st, line.events, RowEvents(line.rest, false).events);
      }
    }
  }

  /** One row sets one field, or none if its value is passed over. */
  lemma {:induction false} KeyedRowBuilds(k: string, ts: TokenStream, st: Store, fields: seq<Field<JSON>>)
    requires Sound(st) && st.cells[Top(st.stack)].ObjectCell?
    requires CellAbove(st.cells[Top(st.stack)], Top(st.stack), |st.cells|)
    requires FieldTreesOf(st.cells, st.cells[Top(st.stack)].fields, Top(st.stack)) == fields
    requires ts.Cons? && ts.head == Separator(':')
    ensures ValueEvents(ts.tail).Accept? <==> ReadValue(ts.tail).Read?
    ensures ValueEvents(ts.tail).Accept? ==>
            var evs, v := [Key(k)] + ValueEvents(ts.tail).events, ReadValue(ts.tail).value;
            && ReadValue(ts.tail).rest == ValueEvents(ts.tail).rest
            && CanRun(st, evs)
            && TouchesTop(st, Run(st, evs))
            && var cell := Run(st, evs).cells[Top(st.stack)];
            && cell.ObjectCell? && CellAbove(cell, Top(st.stack), |Run(st, evs).cells|)
            && FieldTreesOf(Run(st, evs).cells, cell.fields, Top(st.stack))
            == if v.Some? then Insert(fields, k, v.value) else fields
    decreases ts, 2
  {
    var st1 := st.(key := k);
    RunOne(st, Key(k));
    ValueBuilds(ts.tail, st1);
    if ValueEvents(ts.tail).Accept? {
      var value := ValueEvents(ts.tail).events;
      RunConcat(st, [Key(k)], value);
      RowAdds(st1, Run(st1, value), ReadValue(ts.tail).value);
    }
  }

  lemma RowAdds(st: Store, st': Store, value: Option<JSON>)
    requires Sound(st) && st.cells[Top(st.stack)].ObjectCell? && Attached(st, st', value)
    requires CellAbove(st.cells[Top(st.stack)], Top(st.stack), |st.cells|)
    ensures var o := Top(st.stack);
            && st'.cells[o].ObjectCell? && CellAbove(st'.cells[o], o, |st'.cells|)
            && var before := FieldTreesOf(st.cells, st.cells[o].fields, o);
            && FieldTreesOf(st'.cells, st'.cells[o].fields, o)
            == if value.Some? then Insert(before, st.key, value.value) else before
  {
    var o := Top(st.stack);
    assert CellAbove(st'.cells[o], o, |st'.cells|);
    if value.Some? {
      FieldTreesFrame(st.cells, st'.cells, st.cells[o].fields, o);
      FieldTreesOfInsert(st'.cells, st.cells[o].fields, st.key, NewSlot(st, value.value), o);
    }
  }

  /** Elements fill the open array. */
  lemma {:induction false} ElementsBuild(ts: TokenStream, firstCall: bool, st: Store, items: seq<JSON>)
    requires Sound(st) && st.cells[Top(st.stack)].ArrayCell?
    requires CellAbove(st.cells[Top(st.stack)], Top(st.stack), |st.cells|)
    requires TreesOf(st.cells, st.cells[Top(st.stack)].items, Top(st.stack)) == items
    ensures ElementEvents(ts, firstCall).Accept? <==> ReadElements(ts, firstCall, items).Elements?
    ensures ElementEvents(ts, firstCall).Accept? ==>
              var evs, r := ElementEvents(ts, firstCall).events, ReadElements(ts, firstCall, items);
              && ElementEvents(ts, firstCall).rest == r.rest
              && CanRun(st, evs)
              && TouchesTop(st, Run(st, evs))
              && var cell := Run(st, evs).cells[Top(st.stack)];
              && cell.ArrayCell? && CellAbove(cell, Top(st.stack), |Run(st, evs).cells|)
              && TreesOf(Run(st, evs).cells, cell.items, Top(st.stack)) == r.items
    decreases ts, 3
  {
    if !ts.Cons? || (firstCall && ts.head == Separator(']')) {
      return;
    }
    ValueBuilds(ts, st);
    if ReadValue(ts).Fail? {
      assert ElementLine(ts, firstCall) == Bad && ReadElements(ts, firstCall, items) == ElementsFail;
      return;
    }
    assert ElementLine(ts, firstCall) == LineEnd(ValueEvents(ts).events, ValueEvents(ts).rest, ']');
    var value, rest := ValueEvents(ts).events, ValueEvents(ts).rest;
    var st1 := Run(st, value);
    var v := ReadValue(ts).value;
    ElementAdds(st, st1, v);
    if rest.Cons? && rest.head == Separator(',') {
      var items' := if v.Some? then items + [v.value] else items;
      ElementsBuild(rest.tail, false, st1, items');
      if ElementEvents(rest.tail, false).Accept? {
        RunConcat(st, value, ElementEvents(rest.tail, false).events);
      }
    }
  }

  lemma ElementAdds(st: Store, st': Store, value: Option<JSON>)
    requires Sound(st) && st.cells[Top(st.stack)].ArrayCell? && Attached(st, st', value)
    requires CellAbove(st.cells[Top(st.stack)], Top(st.stack), |st.cells|)
    ensures var a := Top(st.stack);
            && st'.cells[a].ArrayCell? && CellAbove(st'.cells[a], a, |st'.cells|)
            && var before := TreesOf(st.cells, st.cells[a].items, a);
            && TreesOf(st'.cells, st'.cells[a].items, a) == if value.Some? then before + [value.value] else before
  {
    var a := Top(st.stack);
    assert CellAbove(st'.cells[a], a, |st'.cells|);
    if value.Some? {
      var items := st.cells[a].items;
      TreesFrame(st.cells, st'.cells, items, a);
      var slot := NewSlot(st, value.value);
      assert (items + [slot])[..|items|] == items;
    }
  }

  /** The tree that the handler holds once a document has been read. */
  ghost predicate Holds(st: Store, tree: JSON) {
    && Closed(st.cells) && InRange(st)
    && st.stack == [] && st.root.Some?
    && TreeOf(st.cells, Ref(st.root.value)) == tree
  }

  /** For every token sequence: the parser accepts it exactly when the recursive reading does, the
      handler never looks at an empty stack, and it ends with an empty stack and the same tree. */
  lemma {:induction false} DocumentBuilds(ts: TokenStream)
    ensures DocumentEvents(ts).Some? <==> ReadDocument(ts).Some?
    ensures DocumentEvents(ts).Some? ==>
              && CanRun(EMPTY_STORE, DocumentEvents(ts).value)
              && Holds(Run(EMPTY_STORE, DocumentEvents(ts).value), ReadDocument(ts).value)
  {
    if !StartsDocument(ts) {
      return;
    }
    var empty := if ts.head == Separator('{') then ObjectCell([]) else ArrayCell([]);
    var (open, close) := if empty.ObjectCell? then (StartObject, EndObject) else (StartArray, EndArray);
    var st1 := Step(EMPTY_STORE, open);
    InnerBuilds(ts, st1, empty);
    var parse := if empty.ObjectCell? then RowEvents(ts.tail, true) else ElementEvents(ts.tail, true);
    assert ValueEvents(ts) == Wrap(open, parse, close);
    if parse.Accept? {
      RunWrapped(EMPTY_STORE, open, parse.events, close);
      CloseHolds(st1, Run(st1, parse.events), close);
    }
  }

  /** Closing the outermost container. */
  lemma CloseHolds(st1: Store, st2: Store, close: Event)
    requires close == EndObject || close == EndArray
    requires Sound(st1) && TouchesTop(st1, st2) && |st1.stack| == 1 && st1.root == Some(Top(st1.stack))
    ensures Fits(st2, close) && Holds(Step(st2, close), OpenTree(st2))
  {
  }

  // ---------------------------------------------------------------- stack height

  /** Containers opened minus containers closed. */
  function Nesting(evs: seq<Event>): int {
    if evs == [] then 0
    else
      (match evs[0]
       case StartObject | StartArray => 1
       case EndObject | EndArray => -1
       case _ => 0) + Nesting(evs[1..])
  }

  /** At every event of every run, the stack is as high as the events before it are nested. */
  lemma {:induction false} HeightIsNesting(st: Store, evs: seq<Event>, n: nat)
    requires CanRun(st, evs) && n <= |evs|
    ensures |Run(st, evs[..n]).stack| == |st.stack| + Nesting(evs[..n])
    decreases n
  {
    if n > 0 {
      HeightIsNesting(Step(st, evs[0]), evs[1..], n - 1);
      assert evs[..n][1..] == evs[1..][..n - 1];
    } else {
      assert evs[..n] == [];
    }
  }

  // ---------------------------------------------------------------- the class

  /** What a call of `readRow` or `readElements` returns, or that it throws. */
  datatype LineResult = WasLast | WantsMore | Threw

  function ResultOf(line: Line): LineResult {
    match line
    case Last(_, _) => WasLast
    case More(_, _) => WantsMore
    case Bad => Threw
  }

  /** Where the loop over lines stands: `done` are the events so far, `ts` the tokens ahead. */
  ghost predicate RowsLeft(all: Parse, done: seq<Event>, line: LineResult, ts: TokenStream) {
    match line
    case WantsMore => all == Join(done, RowEvents(ts, false))
    case WasLast => all == Accept(done, ts)
    case Threw => all == Reject
  }

  lemma RowsStart(ts: TokenStream)
    ensures var line := RowLine(ts, true);
            !line.Bad? ==> RowsLeft(RowEvents(ts, true), line.events, ResultOf(line), line.rest)
    ensures RowLine(ts, true).Bad? ==> RowEvents(ts, true) == Reject
  {
  }

  lemma RowsStep(all: Parse, done: seq<Event>, ts: TokenStream)
    requires RowsLeft(all, done, WantsMore, ts)
    ensures var line := RowLine(ts, false);
            !line.Bad? ==> RowsLeft(all, done + line.events, ResultOf(line), line.rest)
    ensures RowLine(ts, false).Bad? ==> all == Reject
  {
    match RowLine(ts, false) {
      case More(evs, rest) =>
        var more := RowEvents(rest, false);
        if more.Accept? {
          assert done + (evs + more.events) == done + evs + more.events;
        }
      case _ =>
    }
  }

  /** Where the loop over lines stands: `done` are the events so far, `ts` the tokens ahead. */
  ghost predicate ElementsLeft(all: Parse, done: seq<Event>, line: LineResult, ts: TokenStream) {
    match line
    case WantsMore => all == Join(done, ElementEvents(ts, false))
    case WasLast => all == Accept(done, ts)
    case Threw => all == Reject
  }

  lemma ElementsStart(ts: TokenStream)
    ensures var line := ElementLine(ts, true);
            !line.Bad? ==> ElementsLeft(ElementEvents(ts, true), line.events, ResultOf(line), line.rest)
    ensures ElementLine(ts, true).Bad? ==> ElementEvents(ts, true) == Reject
  {
  }

  lemma ElementsStep(all: Parse, done: seq<Event>, ts: TokenStream)
    requires ElementsLeft(all, done, WantsMore, ts)
    ensures var line := ElementLine(ts, false);
            !line.Bad? ==> ElementsLeft(all, done + line.events, ResultOf(line), line.rest)
    ensures ElementLine(ts, false).Bad? ==> all == Reject
  {
    match ElementLine(ts, false) {
      case More(evs, rest) =>
        var more := ElementEvents(rest, false);
        if more.Accept? {
          assert done + (evs + more.events) == done + evs + more.events;
        }
      case _ =>
    }
  }

  /** The handler interface, as the callbacks that it has received. The parser reads nothing back. */
  class CallbackLog {
    var events: seq<Event>

    constructor ()
      ensures events == []
    {
      events := [];
    }

    method Handle(e: Event)
      modifies this
      ensures events == old(events) + [e]
    {
      events := events + [e];
    }
  }

  /** A method returns false, or `Threw`, where the source throws. */
  class Parser {
    const istr: InStream
    const handler: CallbackLog

    constructor (istr: InStream, handler: CallbackLog)
      ensures this.istr == istr && this.handler == handler
    {
      this.istr, this.handler := istr, handler;
    }

    /** The tokens ahead. */
    ghost function Ahead(): TokenStream
      requires istr.Valid()
      reads this, istr
    {
      Tokens(istr.Rest())
    }

    /** The outcome of a line, after the callbacks in `before`. */
    ghost predicate LineRead(line: Line, r: LineResult, before: seq<Event>)
      requires istr.Valid()
      reads this, istr, handler
    {
      && r == ResultOf(line)
      && (r != Threw ==> handler.events == before + line.events && Ahead() == line.rest)
    }

    /** The outcome of a parse, after the callbacks in `before`. */
    ghost predicate ParseRead(p: Parse, ok: bool, before: seq<Event>)
      requires istr.Valid()
      reads this, istr, handler
    {
      && ok == p.Accept?
      && (ok ==> Ahead() == p.rest && handler.events == before + p.events)
    }

    /** `nextToken`; `None` stands for an exception. */
    method NextToken() returns (token: Option<Token>)
      requires istr.Valid()
      modifies istr
      ensures istr.Valid() && istr.pos >= old(istr.pos)
      ensures match old(Ahead())
              case Cons(t, ts) => token == Some(t) && Ahead() == ts && istr.pos > old(istr.pos)
              case _ => token == None
    {
      var t := ReadToken(istr);
      return if t.Got? then Some(t.token) else None;
    }

    /** `readObject`: the opening bracket has been read. */
    method ReadObject() returns (ok: bool)
      requires istr.Valid()
      modifies istr, handler
      ensures istr.Valid()
      ensures istr.pos >= old(istr.pos)
      ensures ParseRead(Wrap(StartObject, RowEvents(old(Ahead()), true), EndObject), ok,
                        old(handler.events))
      decreases |istr.text| - istr.pos, 2
    {
      handler.Handle(StartObject);
      ok := ReadRowLines();
      if ok {
        handler.Handle(EndObject);
      }
    }

    /** `readRow(true)`, and the loop if it asks for more. */
    method ReadRowLines() returns (ok: bool)
      requires istr.Valid()
      modifies istr, handler
      ensures istr.Valid()
      ensures istr.pos >= old(istr.pos)
      ensures ParseRead(RowEvents(old(Ahead()), true), ok, old(handler.events))
      decreases |istr.text| - istr.pos, 1
    {
      RowsStart(Ahead());
      var line := ReadRow(true);
      if line != WantsMore {
        return line == WasLast;
      }
      ok := ReadMoreRows();
    }

    /** `while(readRow());` */
    method ReadMoreRows() returns (ok: bool)
      requires istr.Valid()
      modifies istr, handler
      ensures istr.Valid()
      ensures istr.pos >= old(istr.pos)
      ensures ParseRead(RowEvents(old(Ahead()), false), ok, old(handler.events))
      decreases |istr.text| - istr.pos, 1
    {
      ghost var all, trace := RowEvents(Ahead(), false), handler.events;
      ghost var done: seq<Event> := [];
      var line := WantsMore;
      while line == WantsMore
        invariant istr.Valid()
        invariant istr.pos >= old(istr.pos)
        invariant line != Threw ==> handler.events == trace + done && RowsLeft(all, done, line, Ahead())
        invariant line == Threw ==> all == Reject
        decreases line == WantsMore, |istr.text| - istr.pos
      {
        RowsStep(all, done, Ahead());
        ghost var next := RowLine(Ahead(), false);
        line := ReadRow(false);
        if line != Threw {
          done := done + next.events;
        }
      }
      ok := line == WasLast;
    }

    /** The separator after a value. */
    method ReadLineEnd(close: char) returns (r: LineResult)
      requires istr.Valid()
      modifies istr
      ensures istr.Valid() && istr.pos >= old(istr.pos) && (r != Threw ==> istr.pos > old(istr.pos))
      ensures r == ResultOf(LineEnd([], old(Ahead()), close))
      ensures r != Threw ==> Ahead() == LineEnd([], old(Ahead()), close).rest
    {
      var token := NextToken();
      return if token == Some(Separator(close)) then WasLast
             else if token == Some(Separator(',')) then WantsMore
             else Threw;
    }

    /** `readRow` */
    method ReadRow(firstCall: bool) returns (r: LineResult)
      requires istr.Valid()
      modifies istr, handler
      ensures istr.Valid()
      ensures LineRead(RowLine(old(Ahead()), firstCall), r, old(handler.events))
      ensures istr.pos >= old(istr.pos) && (r == WantsMore ==> istr.pos > old(istr.pos))
      decreases |istr.text| - istr.pos, 0
    {
      var key := NextToken();
      if key == None {
        return Threw;
      }
      if firstCall && key.value == Separator('}') {
        return WasLast;
      }
      if !key.value.StringLiteral? {
        return Threw;
      }
      r := ReadKeyedRow(key.value.s);
    }

    /** `readRow` after the key has been read. */
    method ReadKeyedRow(key: string) returns (r: LineResult)
      requires istr.Valid()
      modifies istr, handler
      ensures istr.Valid()
      ensures LineRead(KeyedRow(key, old(Ahead())), r, old(handler.events))
      ensures istr.pos >= old(istr.pos) && (r == WantsMore ==> istr.pos > old(istr.pos))
      decreases |istr.text| - istr.pos, 5
    {
      handler.Handle(Key(key));
      var ok := ReadColonValue();
      if !ok {
        return Threw;
      }
      r := ReadLineEnd('}');
    }

    /** The colon and the value of a row. */
    method ReadColonValue() returns (ok: bool)
      requires istr.Valid()
      modifies istr, handler
      ensures istr.Valid()
      ensures ParseRead(ColonValue(old(Ahead())), ok, old(handler.events))
      ensures istr.pos >= old(istr.pos)
      decreases |istr.text| - istr.pos, 4
    {
      var colon := NextToken();
      if colon != Some(Separator(':')) {
        return false;
      }
      var token := NextToken();
      if token == None {
        return false;
      }
      ok := ReadValue(token.value);
    }

    /** `readArray`: the opening bracket has been read. */
    method ReadArray() returns (ok: bool)
      requires istr.Valid()
      modifies istr, handler
      ensures istr.Valid()
      ensures istr.pos >= old(istr.pos)
      ensures ParseRead(Wrap(StartArray, ElementEvents(old(Ahead()), true), EndArray), ok,
                        old(handler.events))
      decreases |istr.text| - istr.pos, 2
    {
      handler.Handle(StartArray);
      ok := ReadElementLines();
      if ok {
        handler.Handle(EndArray);
      }
    }

    /** `readElements(true)`, and the loop if it asks for more. */
    method ReadElementLines() returns (ok: bool)
      requires istr.Valid()
      modifies istr, handler
      ensures istr.Valid()
      ensures istr.pos >= old(istr.pos)
      ensures ParseRead(ElementEvents(old(Ahead()), true), ok, old(handler.events))
      decreases |istr.text| - istr.pos, 1
    {
      ElementsStart(Ahead());
      var line := ReadElements(true);
      if line != WantsMore {
        return line == WasLast;
      }
      ok := ReadMoreElements();
    }

    /** `while(readElements());` */
    method ReadMoreElements() returns (ok: bool)
      requires istr.Valid()
      modifies istr, handler
      ensures istr.Valid()
      ensures istr.pos >= old(istr.pos)
      ensures ParseRead(ElementEvents(old(Ahead()), false), ok, old(handler.events))
      decreases |istr.text| - istr.pos, 1
    {
      ghost var all, trace := ElementEvents(Ahead(), false), handler.events;
      ghost var done: seq<Event> := [];
      var line := WantsMore;
      while line == WantsMore
        invariant istr.Valid()
        invariant istr.pos >= old(istr.pos)
        invariant line != Threw ==> handler.events == trace + done && ElementsLeft(all, done, line, Ahead())
        invariant line == Threw ==> all == Reject
        decreases line == WantsMore, |istr.text| - istr.pos
      {
        ElementsStep(all, done, Ahead());
        ghost var next := ElementLine(Ahead(), false);
        line := ReadElements(false);
        if line != Threw {
          done := done + next.events;
        }
      }
      ok := line == WasLast;
    }

    /** `readElements` */
    method ReadElements(firstCall: bool) returns (r: LineResult)
      requires istr.Valid()
      modifies istr, handler
      ensures istr.Valid()
      ensures LineRead(ElementLine(old(Ahead()), firstCall), r, old(handler.events))
      ensures istr.pos >= old(istr.pos) && (r == WantsMore ==> istr.pos > old(istr.pos))
      decreases |istr.text| - istr.pos, 0
    {
      var token := NextToken();
      if token == None {
        return Threw;
      }
      if firstCall && token.value == Separator(']') {
        return WasLast;
      }
      var ok := ReadValue(token.value);
      if !ok {
        return Threw;
      }
      r := ReadLineEnd(']');
    }

    /** `readValue` */
    method ReadValue(token: Token) returns (ok: bool)
      requires istr.Valid()
      modifies istr, handler
      ensures istr.Valid()
      ensures ParseRead(ValueEvents(Cons(token, old(Ahead()))), ok, old(handler.events))
      ensures istr.pos >= old(istr.pos)
      decreases |istr.text| - istr.pos, 3
    {
      if token == Separator('{') {
        ok := ReadObject();
      } else if token == Separator('[') {
        ok := ReadArray();
      } else if Ignored(token) {
        ok := true;
      } else {
        var scalar := ScalarOf(token);
        if scalar.Some? {
          handler.Handle(Value(scalar.value));
        }
        ok := scalar.Some?;
      }
    }

    /** `parse` */
    method Parse() returns (ok: bool)
      requires istr.Valid() && handler.events == []
      modifies istr, handler
      ensures istr.Valid()
      ensures ok <==> DocumentEvents(old(Ahead())).Some?
      ensures ok ==> handler.events == DocumentEvents(old(Ahead())).value
    {
      var token := NextToken();
      if token == Some(Separator('{')) {
        ok := ReadObject();
      } else if token == Some(Separator('[')) {
        ok := ReadArray();
      } else {
        return false;
      }
      if ok {
        var end := ReadToken(istr);
        ok := end == Eof;
      }
    }
  }

  /** Parsing a text with the default handler: the parser accepts it exactly when the recursive
      reading does, and the nodes of the handler then hold the tree of that reading. */
  method Load(text: string) returns (ok: bool, handler: Handler)
    ensures handler.Valid()
    ensures ok <==> ReadText(text).Some?
    ensures ok ==> Holds(handler.store, ReadText(text).value)
  {
    DocumentBuilds(Tokens(text));
    var istr := new InStream(text);
    var log := new CallbackLog();
    var parser := new Parser(istr, log);
    ok := parser.Parse();
    handler := new Handler();
    if ok {
      handler.HandleAll(log.events);
    }
  }
}
