/** The printer: `Object::stringify`, `Array::stringify` and `Stringifier::stringify`.

    The functions give the text of a tree; the methods are the loops that write it to a stream. */
module JsonPrinter {
  import opened TextStream
  import opened JsonValue

  // ---------------------------------------------------------------- strings

  function HexDigit(d: nat): char
    requires d < 16
  {
    if d < 10 then '0' + d as char else 'A' + (d - 10) as char
  }

  /** A character that is printed as it is; a NUL byte is one. */
  predicate IsBare(c: char) {
    c != '"' && c != '\\' && (c == '\0' || c > '\U{1F}')
  }

  /** What follows the backslash. Control characters that have no short form are written with four
      hexadecimal digits. */
  function EscapeCode(c: char): string
    requires !IsBare(c)
  {
    if c == '"' then "\""
    else if c == '\\' then "\\"
    else if c == '\U{08}' then "b"
    else if c == '\U{0C}' then "f"
    else if c == '\n' then "n"
    else if c == '\r' then "r"
    else if c == '\t' then "t"
    else "u00" + [HexDigit(c as nat / 16), HexDigit(c as nat % 16)]
  }

  function EscapeChar(c: char): string {
    if IsBare(c) then [c] else ['\\'] + EscapeCode(c)
  }

  function Translate(f: char -> string, s: string): string {
    if s == [] then "" else f(s[0]) + Translate(f, s[1..])
  }

  function EscapeText(s: string): string {
    Translate(EscapeChar, s)
  }

  /** The form that asks for printing without quotes: `<% value %>`. */
  predicate IsUnquoted(s: string) {
    |s| >= 2 && s[..2] == "<%" && s[|s| - 2..] == "%>"
  }

  /** `substr(2, size - 2)` runs to the end of the string, so the closing `%>` is printed too. */
  function StringText(s: string): string {
    if IsUnquoted(s) then EscapeText(s[2..]) else "\"" + EscapeText(s) + "\""
  }

  // ---------------------------------------------------------------- trees

  /** A float is printed as the text it was read from; C++ formats the `double`. */
  function ScalarText(s: Scalar): string {
    match s
    case Null => "null"
    case Bool(b) => if b then "true" else "false"
    case Int(n) => IntText(n)
    case Long(n) => IntText(n)
    case Float(text) => text
    case Str(s) => StringText(s)
  }

  function Spaces(n: nat): string {
    seq(n, _ => ' ')
  }

  function NewLine(indent: nat): string {
    if indent > 0 then "\n" else ""
  }

  function Inner(indent: nat): nat {
    if indent == 0 then 0 else indent + 2
  }

  /** `indent -= 2` */
  function Outdent(indent: nat): nat
    requires indent != 1
  {
    if indent > 0 then indent - 2 else 0
  }

  function Colon(indent: nat): string {
    if indent > 0 then " : " else ":"
  }

  /** `Stringifier::stringify` */
  function Print(v: JSON, indent: nat): string
    decreases v, 1
  {
    match v
    case Leaf(s) => ScalarText(s)
    case Array(_) => PrintContainer(v, Inner(indent))
    case Object(_) => PrintContainer(v, Inner(indent))
  }

  /** `Object::stringify` and `Array::stringify` */
  function PrintContainer(v: JSON, indent: nat): string
    requires !v.Leaf? && indent != 1
    decreases v, 0
  {
    match v
    case Object(fields) =>
      "{" + NewLine(indent) + PrintRows(fields, indent) + Spaces(Outdent(indent)) + "}"
    case Array(items) =>
      "[" + NewLine(indent) + PrintItems(items, indent) + NewLine(indent) + Spaces(Outdent(indent)) + "]"
  }

  /** What follows the value of a row. */
  function RowEnd(more: bool, indent: nat): string {
    (if more then "," else "") + NewLine(indent)
  }

  /** Indentation, key and colon. The key is not escaped. */
  function RowHead(key: string, indent: nat): string {
    Spaces(indent) + "\"" + key + "\"" + Colon(indent)
  }

  function PrintRow(row: Field<JSON>, more: bool, indent: nat): string
    decreases row
  {
    RowHead(row.key, indent) + Print(row.value, indent) + RowEnd(more, indent)
  }

  function PrintRows(fields: seq<Field<JSON>>, indent: nat): string
    decreases fields
  {
    if fields == [] then ""
    else PrintRow(fields[0], |fields| > 1, indent) + PrintRows(fields[1..], indent)
  }

  /** What follows an element. */
  function ItemEnd(more: bool, indent: nat): string {
    if more then "," + NewLine(indent) else ""
  }

  function PrintItem(item: JSON, more: bool, indent: nat): string
    decreases item, 2
  {
    Spaces(indent) + Print(item, indent) + ItemEnd(more, indent)
  }

  function PrintItems(items: seq<JSON>, indent: nat): string
    decreases items
  {
    if items == [] then ""
    else PrintItem(items[0], |items| > 1, indent) + PrintItems(items[1..], indent)
  }

  // ---------------------------------------------------------------- the methods

  class OutStream {
    var text: string

    constructor ()
      ensures text == ""
    {
      text := "";
    }

    method Write(s: string)
      modifies this
      ensures text == old(text) + s
    {
      text := text + s;
    }
  }

  /** The loop over the characters of a string. */
  method WriteEscaped(value: string, out: OutStream)
    modifies out
    ensures out.text == old(out.text) + EscapeText(value)
  {
    for i := 0 to |value|
      invariant out.text + EscapeText(value[i..]) == old(out.text) + EscapeText(value)
    {
      assert value[i..][1..] == value[i + 1..];
      Assoc(out.text, EscapeChar(value[i]), EscapeText(value[i + 1..]));
      out.Write(EscapeChar(value[i]));
    }
    assert value[|value|..] == [];
    assert out.text + "" == out.text;
  }

  /** The string branch of `Stringifier::stringify`. */
  method WriteString(value: string, out: OutStream)
    modifies out
    ensures out.text == old(out.text) + StringText(value)
  {
    ghost var start := out.text;
    if IsUnquoted(value) {
      WriteEscaped(value[2..], out);
    } else {
      out.Write("\"");
      WriteEscaped(value, out);
      out.Write("\"");
      Assoc(start, "\"", EscapeText(value));
      Assoc(start, "\"" + EscapeText(value), "\"");
    }
  }

  method WriteSpaces(n: nat, out: OutStream)
    modifies out
    ensures out.text == old(out.text) + Spaces(n)
  {
    for i := 0 to n
      invariant out.text == old(out.text) + Spaces(i)
    {
      out.Write(" ");
    }
  }

  /** `Stringifier::stringify` */
  method Stringify(any: JSON, out: OutStream, indent: nat)
    modifies out
    ensures out.text == old(out.text) + Print(any, indent)
    decreases any, 1
  {
    match any {
      case Object(fields) => StringifyObject(fields, out, if indent == 0 then 0 else indent + 2);
      case Array(items) => StringifyArray(items, out, if indent == 0 then 0 else indent + 2);
      case Leaf(Str(s)) => WriteString(s, out);
      case Leaf(s) => out.Write(ScalarText(s));
    }
  }

  method WriteRowHead(key: string, out: OutStream, indent: nat)
    modifies out
    ensures out.text == old(out.text) + RowHead(key, indent)
  {
    WriteSpaces(indent, out);
    out.Write("\"");
    out.Write(key);
    out.Write("\"");
    out.Write(Colon(indent));
  }

  /** The body of the loop in `Object::stringify`. */
  method StringifyRow(row: Field<JSON>, more: bool, out: OutStream, indent: nat)
    modifies out
    ensures out.text == old(out.text) + PrintRow(row, more, indent)
    decreases row
  {
    WriteRowHead(row.key, out, indent);
    Stringify(row.value, out, indent);
    out.Write(RowEnd(more, indent));
  }

  /** The loop of `Object::stringify`. */
  method StringifyRows(fields: seq<Field<JSON>>, out: OutStream, indent: nat)
    modifies out
    ensures out.text == old(out.text) + PrintRows(fields, indent)
    decreases fields, 0
  {
    ghost var start := out.text;
    for i := 0 to |fields|
      invariant out.text + PrintRows(fields[i..], indent) == start + PrintRows(fields, indent)
    {
      assert fields[i..][1..] == fields[i + 1..];
      Assoc(out.text, PrintRow(fields[i], i + 1 < |fields|, indent), PrintRows(fields[i + 1..], indent));
      StringifyRow(fields[i], i + 1 < |fields|, out, indent);
    }
    assert out.text + "" == out.text;
  }

  /** `Object::stringify` */
  method StringifyObject(fields: seq<Field<JSON>>, out: OutStream, indent: nat)
    requires indent != 1
    modifies out
    ensures out.text == old(out.text) + PrintContainer(Object(fields), indent)
    decreases fields, 1
  {
    out.Write("{" + NewLine(indent));
    StringifyRows(fields, out, indent);
    WriteSpaces(if indent > 0 then indent - 2 else 0, out);
    out.Write("}");
  }

  /** The body of the loop in `Array::stringify`. */
  method StringifyItem(item: JSON, more: bool, out: OutStream, indent: nat)
    modifies out
    ensures out.text == old(out.text) + PrintItem(item, more, indent)
    decreases item, 2
  {
    WriteSpaces(indent, out);
    Stringify(item, out, indent);
    out.Write(ItemEnd(more, indent));
  }

  /** The loop of `Array::stringify`. */
  method StringifyItems(items: seq<JSON>, out: OutStream, indent: nat)
    modifies out
    ensures out.text == old(out.text) + PrintItems(items, indent)
    decreases items, 0
  {
    ghost var start := out.text;
    for i := 0 to |items|
      invariant out.text + PrintItems(items[i..], indent) == start + PrintItems(items, indent)
    {
      assert items[i..][1..] == items[i + 1..];
      Assoc(out.text, PrintItem(items[i], i + 1 < |items|, indent), PrintItems(items[i + 1..], indent));
      StringifyItem(items[i], i + 1 < |items|, out, indent);
    }
    assert out.text + "" == out.text;
  }

  /** `Array::stringify` */
  method StringifyArray(items: seq<JSON>, out: OutStream, indent: nat)
    requires indent != 1
    modifies out
    ensures out.text == old(out.text) + PrintContainer(Array(items), indent)
    decreases items, 1
  {
    out.Write("[" + NewLine(indent));
    StringifyItems(items, out, indent);
    out.Write(NewLine(indent));
    WriteSpaces(if indent > 0 then indent - 2 else 0, out);
    out.Write("]");
  }
}
