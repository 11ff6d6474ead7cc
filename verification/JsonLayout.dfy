/** How a printed tree is laid out: with an indentation each row, element and bracket has a line of its own,
    and every level is two blanks further in; without one it is all on one line. */
module JsonLayout {
  import opened TextStream
  import opened JsonValue
  import opened JsonPrinter

  /** A line, and how far in it is. */
  datatype Line = Line(blanks: nat, text: string)

  function Blanks(n: nat): string {
    if n == 0 then "" else " " + Blanks(n - 1)
  }

  function Joined(lines: seq<Line>): string {
    if lines == [] then ""
    else Blanks(lines[0].blanks) + lines[0].text + (if |lines| > 1 then "\n" else "") + Joined(lines[1..])
  }

  /** The lines of a value: `head` is what stands before it, and `tail` what follows it. */
  function Lines(v: JSON, blanks: nat, head: string, tail: string): seq<Line>
    decreases v
  {
    match v
    case Leaf(s) => [Line(blanks, head + ScalarText(s) + tail)]
    case Object(fields) =>
      [Line(blanks, head + "{")] + RowLines(fields, blanks + 2) + [Line(blanks, "}" + tail)]
    case Array(items) =>
      [Line(blanks, head + "[")] + ItemLines(items, blanks + 2) + [Line(blanks, "]" + tail)]
  }

  function RowLines(fields: seq<Field<JSON>>, blanks: nat): seq<Line>
    decreases fields
  {
    if fields == [] then []
    else Lines(fields[0].value, blanks, "\"" + fields[0].key + "\" : ", if |fields| > 1 then "," else "")
         + RowLines(fields[1..], blanks)
  }

  /** An empty array has an empty line between its brackets. */
  function ItemLines(items: seq<JSON>, blanks: nat): seq<Line>
    decreases items
  {
    if items == [] then [Line(0, "")]
    else if |items| == 1 then Lines(items[0], blanks, "", "")
    else Lines(items[0], blanks, "", ",") + ItemLines(items[1..], blanks)
  }

  // ---------------------------------------------------------------- with an indentation

  lemma {:induction false} SpacesAreBlanks(n: nat)
    ensures Spaces(n) == Blanks(n)
  {
    if n > 0 {
      SpacesAreBlanks(n - 1);
      assert Spaces(n) == " " + Spaces(n - 1);
    }
  }

  lemma {:induction false} JoinedConcat(a: seq<Line>, b: seq<Line>)
    requires a != [] && b != []
    ensures Joined(a + b) == Joined(a) + "\n" + Joined(b)
    decreases |a|
  {
    assert (a + b)[0] == a[0] && (a + b)[1..] == a[1..] + b;
    var first := Blanks(a[0].blanks) + a[0].text;
    if |a| == 1 {
      assert a[1..] == [] && a[1..] + b == b;
      NothingAfter(first);
    } else {
      JoinedConcat(a[1..], b);
      LineGlue(first, Joined(a[1..]), Joined(b));
    }
  }

  lemma NothingAfter(first: string)
    ensures first + "" + "" == first
  {
  }

  lemma LineGlue(first: string, more: string, rest: string)
    ensures first + "\n" + (more + "\n" + rest) == first + "\n" + more + "\n" + rest
  {
  }

  lemma JoinedOne(blanks: nat, text: string)
    ensures Joined([Line(blanks, text)]) == Blanks(blanks) + text
  {
    assert [Line(blanks, text)][1..] == [];
    assert Blanks(blanks) + text + "" + "" == Blanks(blanks) + text;
  }

  /** A value stands on its lines. */
  lemma {:induction false} ValueIsLaidOut(v: JSON, indent: nat, head: string, tail: string)
    requires indent >= 2
    ensures Lines(v, indent, head, tail) != []
    ensures Joined(Lines(v, indent, head, tail)) == Blanks(indent) + (head + Print(v, indent) + tail)
    decreases v, 1
  {
    if v.Leaf? {
      LeafIsLaidOut(v, indent, head, tail);
    } else {
      ContainerIsLaidOut(v, indent + 2, head, tail);
      assert indent + 2 - 2 == indent && Print(v, indent) == PrintContainer(v, indent + 2);
    }
  }

  lemma LeafIsLaidOut(v: JSON, indent: nat, head: string, tail: string)
    requires v.Leaf?
    ensures Lines(v, indent, head, tail) != []
    ensures Joined(Lines(v, indent, head, tail)) == Blanks(indent) + (head + Print(v, indent) + tail)
  {
    JoinedOne(indent, head + ScalarText(v.scalar) + tail);
  }

  /** So does a container, whose own line is two blanks less far in than what it holds. */
  lemma {:induction false} ContainerIsLaidOut(v: JSON, indent: nat, head: string, tail: string)
    requires !v.Leaf? && indent >= 2
    ensures Lines(v, indent - 2, head, tail) != []
    ensures Joined(Lines(v, indent - 2, head, tail)) == Blanks(indent - 2) + (head + PrintContainer(v, indent) + tail)
    decreases v, 0
  {
    SpacesAreBlanks(indent - 2);
    match v {
      case Object(fields) => ObjectIsLaidOut(fields, indent, head, tail);
      case Array(items) => ArrayIsLaidOut(items, indent, head, tail);
    }
  }

  lemma {:induction false} ObjectIsLaidOut(fields: seq<Field<JSON>>, indent: nat, head: string, tail: string)
    requires indent >= 2
    ensures Joined(Lines(Object(fields), indent - 2, head, tail))
         == Blanks(indent - 2) + (head + PrintContainer(Object(fields), indent) + tail)
    decreases fields, 1
  {
    var out := indent - 2;
    var rows, first, last := RowLines(fields, indent), Line(out, head + "{"), Line(out, "}" + tail);
    SpacesAreBlanks(out);
    JoinedOne(out, head + "{");
    JoinedOne(out, "}" + tail);
    RowsAreLaidOut(fields, indent);
    if fields == [] {
      assert [first] + rows + [last] == [first] + [last];
      JoinedConcat([first], [last]);
      ObjectGlue(Blanks(out), head, "", tail);
    } else {
      JoinedConcat([first] + rows, [last]);
      JoinedConcat([first], rows);
      ObjectGlue(Blanks(out), head, Joined(rows) + "\n", tail);
      RowsGlue(Blanks(out), head, Joined(rows), tail);
    }
  }

  lemma ObjectGlue(out: string, head: string, rows: string, tail: string)
    ensures out + (head + ("{" + "\n" + rows + out + "}") + tail)
         == out + (head + "{") + "\n" + rows + (out + ("}" + tail))
  {
  }

  lemma RowsGlue(out: string, head: string, rows: string, tail: string)
    ensures out + (head + "{") + "\n" + rows + "\n" + (out + ("}" + tail))
         == out + (head + "{") + "\n" + (rows + "\n") + (out + ("}" + tail))
  {
  }

  lemma {:induction false} RowsAreLaidOut(fields: seq<Field<JSON>>, indent: nat)
    requires indent >= 2
    ensures fields == [] ==> PrintRows(fields, indent) == ""
    ensures fields != [] ==> RowLines(fields, indent) != []
                             && Joined(RowLines(fields, indent)) + "\n" == PrintRows(fields, indent)
    decreases fields, 0
  {
    if fields != [] {
      var row, more := fields[0], |fields| > 1;
      var head, comma := "\"" + row.key + "\" : ", if more then "," else "";
      var lines, rest := Lines(row.value, indent, head, comma), RowLines(fields[1..], indent);
      ValueIsLaidOut(row.value, indent, head, comma);
      RowsAreLaidOut(fields[1..], indent);
      SpacesAreBlanks(indent);
      RowGlue(Blanks(indent), row.key, Print(row.value, indent), comma);
      assert PrintRow(row, more, indent) == Joined(lines) + "\n";
      if more {
        JoinedConcat(lines, rest);
        Assoc(Joined(lines) + "\n", Joined(rest), "\n");
      } else {
        assert lines + rest == lines && PrintRow(row, more, indent) + "" == PrintRow(row, more, indent);
      }
    }
  }

  lemma RowGlue(blanks: string, key: string, value: string, comma: string)
    ensures blanks + "\"" + key + "\"" + " : " + value + (comma + "\n")
         == blanks + ("\"" + key + "\" : " + value + comma) + "\n"
  {
    assert "\"" + key + "\"" + " : " == "\"" + key + "\" : ";
  }

  lemma {:induction false} ArrayIsLaidOut(items: seq<JSON>, indent: nat, head: string, tail: string)
    requires indent >= 2
    ensures Joined(Lines(Array(items), indent - 2, head, tail))
         == Blanks(indent - 2) + (head + PrintContainer(Array(items), indent) + tail)
    decreases items, 1
  {
    var out := indent - 2;
    var lines, first, last := ItemLines(items, indent), Line(out, head + "["), Line(out, "]" + tail);
    SpacesAreBlanks(out);
    JoinedOne(out, head + "[");
    JoinedOne(out, "]" + tail);
    ItemsAreLaidOut(items, indent);
    JoinedConcat([first] + lines, [last]);
    JoinedConcat([first], lines);
    ArrayGlue(Blanks(out), head, Joined(lines), tail);
  }

  lemma ArrayGlue(out: string, head: string, items: string, tail: string)
    ensures out + (head + ("[" + "\n" + items + "\n" + out + "]") + tail)
         == out + (head + "[") + "\n" + items + "\n" + (out + ("]" + tail))
  {
  }

  lemma {:induction false} ItemsAreLaidOut(items: seq<JSON>, indent: nat)
    requires indent >= 2
    ensures ItemLines(items, indent) != [] && Joined(ItemLines(items, indent)) == PrintItems(items, indent)
    decreases items, 0
  {
    if items == [] {
      JoinedOne(0, "");
    } else {
      var comma := if |items| > 1 then "," else "";
      var lines := Lines(items[0], indent, "", comma);
      var item := Print(items[0], indent);
      ValueIsLaidOut(items[0], indent, "", comma);
      SpacesAreBlanks(indent);
      if |items| > 1 {
        var rest := PrintItems(items[1..], indent);
        ItemsAreLaidOut(items[1..], indent);
        JoinedConcat(lines, ItemLines(items[1..], indent));
        assert Joined(ItemLines(items, indent)) == Blanks(indent) + ("" + item + ",") + "\n" + rest;
        ItemGlue(Blanks(indent), item, ",", rest);
      } else {
        assert ItemLines(items, indent) == lines;
        LastGlue(Blanks(indent), item);
      }
    }
  }

  lemma LastGlue(blanks: string, item: string)
    ensures blanks + item + "" == blanks + ("" + item + "") == blanks + item
  {
  }

  lemma ItemGlue(blanks: string, item: string, comma: string, rest: string)
    ensures blanks + item + (comma + "\n") + rest == blanks + ("" + item + comma) + "\n" + rest
  {
  }

  /** A tree that is printed with an indentation, from the line of its bracket on. */
  lemma TreeIsLaidOut(v: JSON, indent: nat)
    requires !v.Leaf? && indent >= 2
    ensures Blanks(indent - 2) + PrintContainer(v, indent) == Joined(Lines(v, indent - 2, "", ""))
  {
    ContainerIsLaidOut(v, indent, "", "");
    assert "" + PrintContainer(v, indent) + "" == PrintContainer(v, indent);
  }

  // ---------------------------------------------------------------- on one line

  function Compact(v: JSON): string
    decreases v
  {
    match v
    case Leaf(s) => ScalarText(s)
    case Object(fields) => "{" + CompactRows(fields) + "}"
    case Array(items) => "[" + CompactItems(items) + "]"
  }

  function CompactRows(fields: seq<Field<JSON>>): string
    decreases fields
  {
    if fields == [] then ""
    else "\"" + fields[0].key + "\":" + Compact(fields[0].value) + (if |fields| > 1 then "," else "")
         + CompactRows(fields[1..])
  }

  function CompactItems(items: seq<JSON>): string
    decreases items
  {
    if items == [] then "" else Compact(items[0]) + (if |items| > 1 then "," else "") + CompactItems(items[1..])
  }

  lemma {:induction false} TreeIsCompact(v: JSON)
    ensures Print(v, 0) == Compact(v)
    ensures !v.Leaf? ==> PrintContainer(v, 0) == Compact(v)
    decreases v
  {
    match v {
      case Leaf(_) =>
      case Object(fields) =>
        RowsAreCompact(fields);
        assert "{" + "" + PrintRows(fields, 0) + Spaces(0) + "}" == "{" + PrintRows(fields, 0) + "}";
      case Array(items) =>
        ItemsAreCompact(items);
        assert "[" + "" + PrintItems(items, 0) + "" + Spaces(0) + "]" == "[" + PrintItems(items, 0) + "]";
    }
  }

  lemma {:induction false} RowsAreCompact(fields: seq<Field<JSON>>)
    ensures PrintRows(fields, 0) == CompactRows(fields)
    decreases fields
  {
    if fields != [] {
      var row, comma := fields[0], if |fields| > 1 then "," else "";
      TreeIsCompact(row.value);
      RowsAreCompact(fields[1..]);
      CompactGlue(row.key, Compact(row.value), comma);
    }
  }

  lemma CompactGlue(key: string, value: string, comma: string)
    ensures Spaces(0) + "\"" + key + "\"" + ":" + value + (comma + "") == "\"" + key + "\":" + value + comma
  {
    assert Spaces(0) + "\"" + key + "\"" + ":" == "\"" + key + "\":";
  }

  lemma {:induction false} ItemsAreCompact(items: seq<JSON>)
    ensures PrintItems(items, 0) == CompactItems(items)
    decreases items
  {
    if items != [] {
      TreeIsCompact(items[0]);
      ItemsAreCompact(items[1..]);
      assert Spaces(0) + Compact(items[0]) == Compact(items[0]);
      assert "," + "" == ",";
    }
  }
}
