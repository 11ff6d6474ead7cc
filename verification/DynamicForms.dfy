/** What the lenient parser of `Dynamic::Var` takes: exactly these texts are values, and each has this value. */
module DynamicForms {
  import opened TextStream
  import opened JsonValue
  import opened DynamicVar

  predicate Blank(s: string) {
    forall i | 0 <= i < |s| :: IsSpace(s[i])
  }

  /** What stands between two elements: blanks, a comma or none, and blanks. */
  datatype Gap = Gap(before: string, comma: bool, after: string)

  /** A string in quotation marks; one without, with the character that ends it and is taken with it; an
      array; or an object. */
  datatype Form =
    | Marked(s: string)
    | Bare(s: string, stop: char)
    | List(lead: string, items: seq<Item>)
    | Record(lead: string, rows: seq<Row>)

  datatype Item = Item(value: Form, gap: Gap)

  /** A key, blanks, a colon, blanks, and a value. */
  datatype Row = Row(key: Form, before: string, after: string, value: Form, gap: Gap)

  function GapText(g: Gap, rest: string): string {
    g.before + (if g.comma then "," + (g.after + rest) else rest)
  }

  /** The text of a form, before other text. */
  function FormText(f: Form, rest: string): string
    decreases f, 1
  {
    match f
    case Marked(s) => "\"" + (s + ("\"" + rest))
    case Bare(s, stop) => s + ([stop] + rest)
    case List(lead, items) => "[" + (lead + ItemsText(items, "]" + rest))
    case Record(lead, rows) => "{" + (lead + RowsText(rows, "}" + rest))
  }

  function ItemText(x: Item, more: string): string
    decreases x, 2
  {
    FormText(x.value, GapText(x.gap, more))
  }

  /** The text of elements, before what is not one of them. */
  function ItemsText(items: seq<Item>, rest: string): string
    decreases items, 0
  {
    if items == [] then rest else ItemText(items[0], ItemsText(items[1..], rest))
  }

  function RowText(r: Row, more: string): string
    decreases r, 2
  {
    FormText(r.key, r.before + (":" + (r.after + FormText(r.value, GapText(r.gap, more)))))
  }

  function RowsText(rows: seq<Row>, rest: string): string
    decreases rows, 0
  {
    if rows == [] then rest else RowText(rows[0], RowsText(rows[1..], rest))
  }

  /** Neither a mark nor an end. */
  predicate IsPlainText(s: string) {
    forall i | 0 <= i < |s| :: !IsStop(s[i]) && s[i] != '"'
  }

  /** A string without marks has no mark and no end in it, and begins with nothing that has a meaning. */
  predicate IsBare(s: string, stop: char) {
    && IsStop(stop) && IsPlainText(s)
    && if s == "" then stop != ' ' else !IsSpace(s[0]) && s[0] != '[' && s[0] != '{'
  }

  /** A gap takes all blanks, and a comma if there is one. */
  predicate IsGap(g: Gap, next: string) {
    && Blank(g.before) && Blank(g.after) && (next != "" ==> !IsSpace(next[0]))
    && (!g.comma ==> g.after == "" && (next != "" ==> next[0] != ','))
  }

  ghost predicate IsForm(f: Form, rest: string)
    decreases f, 1
  {
    match f
    case Marked(s) => NoQuote(s)
    case Bare(s, stop) => IsBare(s, stop)
    case List(lead, items) => Blank(lead) && AreItems(items, "]" + rest)
    case Record(lead, rows) => Blank(lead) && AreRows(rows, "}" + rest)
  }

  ghost predicate IsItem(x: Item, more: string)
    decreases x, 2
  {
    IsForm(x.value, GapText(x.gap, more)) && IsGap(x.gap, more) && Begin(x.value) != ']'
  }

  ghost predicate AreItems(items: seq<Item>, rest: string)
    decreases items, 0
  {
    items == [] || (IsItem(items[0], ItemsText(items[1..], rest)) && AreItems(items[1..], rest))
  }

  ghost predicate IsRow(r: Row, more: string)
    decreases r, 2
  {
    && (r.key.Marked? || r.key.Bare?) && IsKey(r.key) && Begin(r.key) != '}' && Blank(r.before) && Blank(r.after)
    && IsForm(r.value, GapText(r.gap, more)) && IsGap(r.gap, more)
  }

  ghost predicate AreRows(rows: seq<Row>, rest: string)
    decreases rows, 0
  {
    rows == [] || (IsRow(rows[0], RowsText(rows[1..], rest)) && AreRows(rows[1..], rest))
  }

  /** A key without marks may begin with a bracket. */
  predicate IsKey(f: Form)
    requires f.Marked? || f.Bare?
  {
    match f
    case Marked(s) => NoQuote(s)
    case Bare(s, stop) =>
      && IsStop(stop) && IsPlainText(s)
      && (s == "" ==> stop != ' ') && (s != "" ==> !IsSpace(s[0]))
  }

  /** The first character. */
  function Begin(f: Form): char {
    match f
    case Marked(_) => '"'
    case Bare(s, stop) => if s == "" then stop else s[0]
    case List(_, _) => '['
    case Record(_, _) => '{'
  }

  /** A leaf is a string. Of several equal keys the first one counts. */
  ghost function Value(f: Form): Dyn
    decreases f, 1
  {
    match f
    case Marked(s) => Chars(s)
    case Bare(s, _) => Chars(s)
    case List(_, items) => Vec(Values(items))
    case Record(_, rows) => Struct(Fields(rows, []))
  }

  ghost function ItemValue(x: Item): Dyn
    decreases x, 2
  {
    Value(x.value)
  }

  ghost function Values(items: seq<Item>): seq<Dyn>
    decreases items, 0
  {
    if items == [] then [] else [ItemValue(items[0])] + Values(items[1..])
  }

  function KeyOf(f: Form): string {
    if f.Marked? || f.Bare? then f.s else ""
  }

  ghost predicate Has(fields: seq<Field<Dyn>>, key: string) {
    exists i :: 0 <= i < |fields| && fields[i].key == key
  }

  ghost function RowValue(r: Row): Dyn
    decreases r, 2
  {
    Value(r.value)
  }

  ghost function Fields(rows: seq<Row>, done: seq<Field<Dyn>>): seq<Field<Dyn>>
    decreases rows, 0
  {
    if rows == [] then done
    else
      var key, value := KeyOf(rows[0].key), RowValue(rows[0]);
      Fields(rows[1..], if Has(done, key) then done else Insert(done, key, value))
  }

  // ---------------------------------------------------------------- pieces

  lemma {:induction false} BlankIsSkipped(s: string, rest: string)
    requires Blank(s) && (rest == "" || !IsSpace(rest[0]))
    ensures SkipSpace(s + rest) == rest
  {
    if s == "" {
      assert s + rest == rest;
    } else {
      assert (s + rest)[1..] == s[1..] + rest;
      BlankIsSkipped(s[1..], rest);
    }
  }

  lemma GapIsSkipped(g: Gap, next: string)
    requires IsGap(g, next)
    ensures SkipComma(GapText(g, next)) == next
  {
    if g.comma {
      var t := "," + (g.after + next);
      BlankIsSkipped(g.before, t);
      assert t[1..] == g.after + next;
      BlankIsSkipped(g.after, next);
    } else {
      BlankIsSkipped(g.before, next);
    }
  }

  lemma {:induction false} MarkIsFound(s: string, rest: string)
    requires NoQuote(s)
    ensures FindQuote(s + ("\"" + rest)) == |s|
  {
    var t := s + ("\"" + rest);
    assert t[|s|] == '"' && t[..|s|] == s;
    assert forall i | 0 <= i < |s| :: t[i] == s[i];
    assert FindQuote(t) <= |s|;
  }

  lemma MarkedIsRead(s: string, rest: string)
    requires NoQuote(s)
    ensures ParseString("\"" + (s + ("\"" + rest))) == Parsed(s, Some(rest))
  {
    var t := s + ("\"" + rest);
    assert ("\"" + t)[1..] == t;
    MarkIsFound(s, rest);
    assert t[..|s|] == s && t[|s| + 1..] == rest;
  }

  lemma BareIsRead(s: string, stop: char, rest: string)
    requires IsStop(stop) && IsPlainText(s)
    ensures ParseString(s + ([stop] + rest)) == Parsed(s, Some(rest))
  {
    var t := s + ([stop] + rest);
    assert t[|s|] == stop && t[..|s|] == s && t[|s| + 1..] == rest;
    assert forall i | 0 <= i < |s| :: t[i] == s[i];
    assert FindStop(t) == |s| && FindQuote(t) >= |s|;
  }

  lemma FormBegins(f: Form, rest: string)
    requires IsForm(f, rest)
    ensures FormText(f, rest) != "" && FormText(f, rest)[0] == Begin(f) && !IsSpace(Begin(f))
  {
  }

  lemma {:induction false} GetIsHas(fields: seq<Field<Dyn>>, key: string)
    ensures Get(fields, key).Some? <==> Has(fields, key)
  {
    if fields != [] {
      GetIsHas(fields[1..], key);
      if Has(fields, key) && fields[0].key != key {
        var i :| 0 <= i < |fields| && fields[i].key == key;
        assert fields[1..][i - 1].key == key;
      }
      if Has(fields[1..], key) {
        var i :| 0 <= i < |fields[1..]| && fields[1..][i].key == key;
        assert fields[i + 1].key == key;
      }
    }
  }

  // ---------------------------------------------------------------- forms are read

  /** A form is read as its value, up to the text after it. */
  lemma {:induction false} FormIsRead(f: Form, rest: string)
    requires IsForm(f, rest)
    ensures ParseVar(FormText(f, rest)) == Parsed(Value(f), Some(rest))
    decreases f, 1
  {
    var t := FormText(f, rest);
    FormBegins(f, rest);
    assert SkipSpace(t) == t;
    match f {
      case Marked(s) => MarkedIsRead(s, rest);
      case Bare(s, stop) => BareIsRead(s, stop, rest);
      case List(lead, items) =>
        var inner := ItemsText(items, "]" + rest);
        assert t[1..] == lead + inner;
        ItemsBegin(items, "]" + rest);
        BlankIsSkipped(lead, inner);
        ItemsAreRead(items, "]" + rest, []);
        assert [] + Values(items) == Values(items) && ("]" + rest)[1..] == rest;
      case Record(lead, rows) =>
        var inner := RowsText(rows, "}" + rest);
        assert t[1..] == lead + inner;
        RowsBegin(rows, "}" + rest);
        BlankIsSkipped(lead, inner);
        RowsAreRead(rows, "}" + rest, []);
        assert ("}" + rest)[1..] == rest;
    }
  }

  predicate Begins(rest: string) {
    rest != "" ==> !IsSpace(rest[0])
  }

  lemma ItemsBegin(items: seq<Item>, rest: string)
    requires AreItems(items, rest) && Begins(rest)
    ensures Begins(ItemsText(items, rest))
    ensures items != [] ==> ItemsText(items, rest) != "" && ItemsText(items, rest)[0] != ']'
  {
    if items != [] {
      FormBegins(items[0].value, GapText(items[0].gap, ItemsText(items[1..], rest)));
    }
  }

  lemma KeyBegins(f: Form, rest: string)
    requires (f.Marked? || f.Bare?) && IsKey(f)
    ensures FormText(f, rest) != "" && FormText(f, rest)[0] == Begin(f) && !IsSpace(Begin(f))
  {
  }

  lemma RowsBegin(rows: seq<Row>, rest: string)
    requires AreRows(rows, rest) && Begins(rest)
    ensures Begins(RowsText(rows, rest))
    ensures rows != [] ==> RowsText(rows, rest) != "" && RowsText(rows, rest)[0] != '}'
  {
    if rows != [] {
      var r := rows[0];
      KeyBegins(r.key, r.before + (":" + (r.after + FormText(r.value, GapText(r.gap, RowsText(rows[1..], rest))))));
    }
  }

  lemma {:induction false} ItemIsRead(x: Item, more: string)
    requires IsItem(x, more)
    ensures var r := ParseVar(ItemText(x, more));
            r.Parsed? && r.value == ItemValue(x) && r.rest.Some? && SkipComma(r.rest.value) == more
    decreases x, 2
  {
    FormIsRead(x.value, GapText(x.gap, more));
    GapIsSkipped(x.gap, more);
  }

  /** The loop over elements takes them, whatever comes then. */
  lemma {:induction false} ItemsAreRead(items: seq<Item>, rest: string, done: seq<Dyn>)
    requires AreItems(items, rest) && Begins(rest) && Begins(ItemsText(items, rest))
    ensures ParseItems(ItemsText(items, rest), done) == ParseItems(rest, done + Values(items))
    decreases items, 0
  {
    ItemsBegin(items, rest);
    if items == [] {
      assert done + [] == done;
    } else {
      var more := ItemsText(items[1..], rest);
      ItemIsRead(items[0], more);
      ItemsBegin(items[1..], rest);
      ItemsAreRead(items[1..], rest, done + [ItemValue(items[0])]);
      Assoc(done, [ItemValue(items[0])], Values(items[1..]));
    }
  }

  lemma KeyIsRead(f: Form, rest: string)
    requires (f.Marked? || f.Bare?) && IsKey(f)
    ensures ParseString(FormText(f, rest)) == Parsed(KeyOf(f), Some(rest))
  {
    match f {
      case Marked(s) => MarkedIsRead(s, rest);
      case Bare(s, stop) => BareIsRead(s, stop, rest);
    }
  }

  lemma ColonIsRead(f: Form, before: string, rest: string)
    requires (f.Marked? || f.Bare?) && IsKey(f) && Blank(before)
    ensures ParseKey(FormText(f, before + (":" + rest))) == Parsed(KeyOf(f), Some(rest))
  {
    KeyIsRead(f, before + (":" + rest));
    BlankIsSkipped(before, ":" + rest);
    assert (":" + rest)[1..] == rest;
  }

  lemma LeadIsSkipped(lead: string, s: string)
    requires Blank(lead) && (s == "" || !IsSpace(s[0]))
    ensures ParseVar(lead + s) == ParseVar(s)
  {
    BlankIsSkipped(lead, s);
    assert SkipSpace(s) == s;
  }

  lemma {:induction false} RowIsRead(r: Row, more: string)
    requires IsRow(r, more)
    ensures var k := ParseKey(RowText(r, more));
            && k.Parsed? && k.value == KeyOf(r.key)
            && var v := ParseVar(k.rest.value);
               v.Parsed? && v.value == RowValue(r) && v.rest.Some? && SkipComma(v.rest.value) == more
    decreases r, 2
  {
    var tail := FormText(r.value, GapText(r.gap, more));
    ColonIsRead(r.key, r.before, r.after + tail);
    FormBegins(r.value, GapText(r.gap, more));
    LeadIsSkipped(r.after, tail);
    FormIsRead(r.value, GapText(r.gap, more));
    GapIsSkipped(r.gap, more);
  }

  lemma {:induction false} RowsAreRead(rows: seq<Row>, rest: string, done: seq<Field<Dyn>>)
    requires AreRows(rows, rest) && Begins(rest)
    ensures ParseFields(RowsText(rows, rest), done) == ParseFields(rest, Fields(rows, done))
    decreases rows, 0
  {
    RowsBegin(rows, rest);
    if rows != [] {
      var r, more := rows[0], RowsText(rows[1..], rest);
      RowIsRead(r, more);
      GetIsHas(done, KeyOf(r.key));
      RowsAreRead(rows[1..], rest, InsertNew(done, KeyOf(r.key), RowValue(r)));
    }
  }

  // ---------------------------------------------------------------- and nothing else

  lemma {:induction false} LeadOf(s: string) returns (lead: string)
    ensures Blank(lead) && s == lead + SkipSpace(s)
  {
    if s == "" || !IsSpace(s[0]) {
      lead := "";
    } else {
      lead := LeadOf(s[1..]);
      lead := [s[0]] + lead;
    }
  }

  lemma GapOf(s: string) returns (g: Gap)
    ensures s == GapText(g, SkipComma(s)) && IsGap(g, SkipComma(s))
  {
    var before := LeadOf(s);
    var t := SkipSpace(s);
    if t != "" && t[0] == ',' {
      var after := LeadOf(t[1..]);
      g := Gap(before, true, after);
      assert t == "," + t[1..];
    } else {
      g := Gap(before, false, "");
    }
  }

  lemma SplitAt(s: string, i: nat)
    requires i < |s|
    ensures s == s[..i] + ([s[i]] + s[i + 1..])
  {
  }

  lemma MarkedOf(t: string) returns (f: Form)
    requires FindQuote(t) < |t|
    ensures f.Marked? && NoQuote(f.s) && "\"" + t == FormText(f, t[FindQuote(t) + 1..])
  {
    var i := FindQuote(t);
    f := Marked(t[..i]);
    SplitAt(t, i);
  }

  lemma BareOf(s: string) returns (f: Form)
    requires FindStop(s) < |s| && FindStop(s) <= FindQuote(s)
    ensures f.Bare? && IsStop(f.stop) && IsPlainText(f.s) && s == FormText(f, s[FindStop(s) + 1..])
    ensures Begin(f) == s[0]
  {
    var i := FindStop(s);
    f := Bare(s[..i], s[i]);
    SplitAt(s, i);
  }

  lemma StringOf(s: string) returns (f: Form)
    requires ParseString(s).Parsed? && ParseString(s).rest.Some?
    ensures (f.Marked? && NoQuote(f.s)) || (f.Bare? && IsStop(f.stop) && IsPlainText(f.s))
    ensures s == FormText(f, ParseString(s).rest.value) && Begin(f) == s[0]
  {
    if s[0] == '"' {
      f := MarkedOf(s[1..]);
    } else {
      f := BareOf(s);
    }
  }

  lemma ReadAlike(s: string)
    ensures ParseVar(s) == ParseVar(SkipSpace(s))
  {
    assert SkipSpace(SkipSpace(s)) == SkipSpace(s);
  }

  /** What is read as a value before other text is a form after blanks. */
  lemma {:induction false} ReadIsForm(s: string) returns (lead: string, f: Form)
    requires ParseVar(s).Parsed? && ParseVar(s).rest.Some? && SkipSpace(s) != ""
    ensures var rest := ParseVar(s).rest.value; Blank(lead) && s == lead + FormText(f, rest) && IsForm(f, rest)
    decreases |s|, 2
  {
    lead := LeadOf(s);
    ReadAlike(s);
    f := FormOf(SkipSpace(s));
  }

  lemma {:induction false} FormOf(s: string) returns (f: Form)
    requires s != "" && !IsSpace(s[0]) && ParseVar(s).Parsed? && ParseVar(s).rest.Some?
    ensures var rest := ParseVar(s).rest.value; s == FormText(f, rest) && IsForm(f, rest)
    decreases |s|, 1
  {
    assert SkipSpace(s) == s && s == [s[0]] + s[1..];
    if s[0] == '{' {
      var inner := LeadOf(s[1..]);
      var rows := ReadAreRows(SkipSpace(s[1..]), []);
      f := Record(inner, rows);
    } else if s[0] == '[' {
      var inner := LeadOf(s[1..]);
      var items := ReadAreItems(SkipSpace(s[1..]), []);
      f := List(inner, items);
    } else {
      f := StringOf(s);
    }
  }

  lemma {:induction false} ReadAreItems(s: string, done: seq<Dyn>) returns (items: seq<Item>)
    requires s != [] ==> !IsSpace(s[0])
    requires ParseItems(s, done).Parsed?
    ensures ParseItems(s, done).rest.Some?
    ensures var rest := "]" + ParseItems(s, done).rest.value; s == ItemsText(items, rest) && AreItems(items, rest)
    decreases |s|, 2
  {
    if s[0] == ']' {
      items := [];
    } else {
      var r := ParseVar(s).rest.value;
      assert SkipSpace(s) == s;
      var f := FormOf(s);
      var tail := ReadAreItems(SkipComma(r), done + [ParseVar(s).value]);
      var rest := ParseItems(s, done).rest.value;
      var g := GapOf(r);
      items := [Item(f, g)] + tail;
      assert items[1..] == tail;
    }
  }

  lemma KeyOfText(s: string) returns (f: Form, before: string)
    requires ParseKey(s).Parsed? && !IsSpace(s[0])
    ensures (f.Marked? || f.Bare?) && IsKey(f) && Blank(before) && Begin(f) == s[0]
    ensures s == FormText(f, before + (":" + ParseKey(s).rest.value))
  {
    f := StringOf(s);
    var r := ParseString(s).rest.value;
    before := LeadOf(r);
    var t := SkipSpace(r);
    assert t[0] == ':' && t[1..] == ParseKey(s).rest.value;
    SplitAt(t, 0);
    assert t[..0] + ([t[0]] + t[1..]) == [t[0]] + t[1..];
  }

  lemma {:induction false} ReadAreRows(s: string, done: seq<Field<Dyn>>) returns (rows: seq<Row>)
    requires s != [] ==> !IsSpace(s[0])
    requires ParseFields(s, done).Parsed?
    ensures ParseFields(s, done).rest.Some?
    ensures var rest := "}" + ParseFields(s, done).rest.value; s == RowsText(rows, rest) && AreRows(rows, rest)
    decreases |s|, 2
  {
    if s[0] == '}' {
      rows := [];
    } else {
      var key, before := KeyOfText(s);
      var k := ParseKey(s);
      var v := k.rest.value;
      var r := ParseVar(v).rest.value;
      var tail := ReadAreRows(SkipComma(r), InsertNew(done, k.value, ParseVar(v).value));
      assert SkipSpace(v) != "";
      var after, f := ReadIsForm(v);
      var g := GapOf(r);
      rows := [Row(key, before, after, f, g)] + tail;
      assert rows[1..] == tail;
    }
  }

  /** Blanks alone are read as the empty string; a text without marks that no end follows is read to its
      end. */
  lemma LastIsRead(lead: string, s: string)
    requires Blank(lead) && IsPlainText(s) && (s != "" ==> !IsSpace(s[0]) && s[0] != '[' && s[0] != '{')
    ensures ParseVar(lead + s) == Parsed(Chars(s), if s == "" then Some("") else None)
  {
    BlankIsSkipped(lead, s);
    assert FindStop(s) == |s| && s[..|s|] == s;
  }

  /** Only such a text is read past its end. */
  lemma ReadToEnd(s: string)
    requires ParseVar(s).Parsed? && ParseVar(s).rest == None
    ensures var t := SkipSpace(s); t != "" && IsPlainText(t) && t[0] != '[' && t[0] != '{'
  {
    var t := SkipSpace(s);
    if t[0] == '{' {
      var rows := ReadAreRows(SkipSpace(t[1..]), []);
      assert false;
    } else if t[0] == '[' {
      var items := ReadAreItems(SkipSpace(t[1..]), []);
      assert false;
    } else {
      assert FindStop(t) == |t| && FindQuote(t) == |t|;
    }
  }

  /** A mark without its partner, and a mark in a text that begins without one. */
  lemma LoneMarkThrows(s: string, rest: string)
    requires NoQuote(s)
    ensures ParseVar("\"" + s) == Throws
    ensures s != "" && IsPlainText(s) && !IsSpace(s[0]) && s[0] != '[' && s[0] != '{'
            ==> ParseVar(s + ("\"" + rest)) == Throws
  {
    assert ("\"" + s)[1..] == s;
    var t := s + ("\"" + rest);
    assert t[|s|] == '"';
    assert forall i | 0 <= i < |s| :: t[i] == s[i];
    MarkIsFound(s, rest);
    if s != "" {
      assert SkipSpace(t) == if IsSpace(t[0]) then SkipSpace(t[1..]) else t;
    }
  }

  // ---------------------------------------------------------------- which way it fails

  /** After the elements that were read, an array fails as the next one does; it throws at the end of the text,
      and reads outside the text after an element that took the end. */
  lemma ArrayFails(lead: string, items: seq<Item>, rest: string)
    requires Blank(lead) && AreItems(items, rest) && Begins(rest) && (rest != "" ==> rest[0] != ']')
    ensures var r, next := ParseVar("[" + (lead + ItemsText(items, rest))), ParseVar(rest);
            if rest == "" || next.Throws? then r == Throws
            else next.Outside? || next.rest == None ==> r == Outside
  {
    var inner := ItemsText(items, rest);
    assert ("[" + (lead + inner))[1..] == lead + inner;
    ItemsBegin(items, rest);
    BlankIsSkipped(lead, inner);
    ItemsAreRead(items, rest, []);
  }

  lemma ObjectGoesOn(lead: string, rows: seq<Row>, rest: string)
    requires Blank(lead) && AreRows(rows, rest) && Begins(rest)
    ensures ParseVar("{" + (lead + RowsText(rows, rest))) == ParseFields(rest, Fields(rows, []))
  {
    var inner := RowsText(rows, rest);
    assert ("{" + (lead + inner))[1..] == lead + inner;
    RowsBegin(rows, rest);
    BlankIsSkipped(lead, inner);
    RowsAreRead(rows, rest, []);
  }

  /** After the fields that were read, an object throws at the end of the text and at a mark without its
      partner, and reads outside the text after a key that took the end. */
  lemma ObjectFails(lead: string, rows: seq<Row>, rest: string)
    requires Blank(lead) && AreRows(rows, rest) && Begins(rest) && (rest != "" ==> rest[0] != '}')
    ensures var r := ParseVar("{" + (lead + RowsText(rows, rest)));
            && (rest == "" || (rest[0] == '"' && NoQuote(rest[1..])) ==> r == Throws)
            && (rest != "" && IsPlainText(rest) ==> r == Outside)
  {
    ObjectGoesOn(lead, rows, rest);
    if rest != "" && rest[0] == '"' && NoQuote(rest[1..]) {
      assert FindQuote(rest[1..]) == |rest| - 1;
    } else if rest != "" && IsPlainText(rest) {
      assert FindStop(rest) == |rest| == FindQuote(rest);
    }
  }

  /** After a key, it throws without a colon, and after the colon it fails as the value does. */
  lemma FieldFails(lead: string, rows: seq<Row>, key: Form, before: string, rest: string)
    requires Blank(lead) && Blank(before) && (key.Marked? || key.Bare?) && IsKey(key) && Begin(key) != '}'
    requires AreRows(rows, FormText(key, before + rest)) && Begins(rest)
    ensures var r := ParseVar("{" + (lead + RowsText(rows, FormText(key, before + rest))));
            if rest == "" || rest[0] != ':' then r == Throws
            else
              var next := ParseVar(rest[1..]);
              if next.Throws? then r == Throws else next.Outside? || next.rest == None ==> r == Outside
  {
    var tail := FormText(key, before + rest);
    KeyBegins(key, before + rest);
    ObjectGoesOn(lead, rows, tail);
    KeyIsRead(key, before + rest);
    BlankIsSkipped(before, rest);
  }

  /** A text without marks ends at a space, a comma or a closing bracket. */
  lemma StopsAre(c: char)
    ensures IsStop(c) <==> c in " ,]}"
  {
  }

  // ---------------------------------------------------------------- what is printed

  /** The texts, with a comma and a space between them. */
  function Joined(texts: seq<string>): string {
    if texts == [] then ""
    else if |texts| == 1 then texts[0]
    else Joined(texts[..|texts| - 1]) + ", " + texts[|texts| - 1]
  }

  function Texts(items: seq<Dyn>): seq<string> {
    seq(|items|, i requires 0 <= i < |items| => Text(items[i]))
  }

  function RowTexts(fields: seq<Field<Dyn>>): seq<string> {
    seq(|fields|, i requires 0 <= i < |fields| => "\"" + fields[i].key + "\" : " + Text(fields[i].value))
  }

  lemma {:induction false} ItemsAreJoined(items: seq<Dyn>)
    ensures DynamicVar.ItemsText(items) == Joined(Texts(items))
  {
    if items != [] {
      var init, last := items[..|items| - 1], items[|items| - 1];
      assert items == init + [last];
      ItemsTextAdd(init, last);
      ItemsAreJoined(init);
      assert Texts(items)[..|items| - 1] == Texts(init);
    }
  }

  lemma {:induction false} FieldsAreJoined(fields: seq<Field<Dyn>>)
    ensures FieldsText(fields) == Joined(RowTexts(fields))
  {
    if fields != [] {
      var init, last := fields[..|fields| - 1], fields[|fields| - 1];
      assert fields == init + [last];
      FieldsTextAdd(init, last);
      FieldsAreJoined(init);
      assert RowTexts(fields)[..|fields| - 1] == RowTexts(init);
      KeyGlue(last.key);
    }
  }

  lemma KeyGlue(key: string)
    ensures Quoted(key) + " : " == "\"" + key + "\" : "
  {
  }

  /** Every kind of value as it is printed. */
  lemma {:induction false} ValueIsPrinted(v: Dyn)
    ensures v.Empty? ==> Text(v) == "null"
    ensures v.Plain? ==> Text(v) == v.text
    ensures v.Chars? ==> Text(v) == "\"" + v.s + "\""
    ensures v.Vec? ==> Text(v) == "[ " + Joined(Texts(v.items)) + " ]"
    ensures v.Struct? ==> Text(v) == "{ " + Joined(RowTexts(v.fields)) + " }"
  {
    match v {
      case Vec(items) => ItemsAreJoined(items);
      case Struct(fields) => FieldsAreJoined(fields);
      case _ =>
    }
  }
}
