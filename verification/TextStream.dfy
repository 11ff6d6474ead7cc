/** Reading characters from a text that is in memory. */
module TextStream {
  datatype Option<+T> = None | Some(value: T)

  /** What a reader takes from a text: a value and the characters left, or an exception. */
  datatype Scan<+T> = Done(value: T, rest: string) | Throw

  /** `Ascii::isSpace` */
  predicate IsSpace(c: char) { c == ' ' || '\t' <= c <= '\r' }

  /** The text after white space. */
  function SkipSpace(s: string): (r: string)
    ensures |r| <= |s| && (r != [] ==> !IsSpace(r[0]))
  {
    if s == [] || !IsSpace(s[0]) then s else SkipSpace(s[1..])
  }

  /** White space is these six characters. */
  lemma SpacesAre(c: char)
    ensures IsSpace(c) <==> c in " \t\n\U{000B}\U{000C}\r"
  {
  }

  lemma {:induction false} Assoc<T>(a: seq<T>, b: seq<T>, c: seq<T>)
    ensures a + b + c == a + (b + c)
  {
  }

  /** A `std::istream` over a text that is in memory. */
  class InStream {
    const text: string
    var pos: nat

    ghost predicate Valid()
      reads this
    {
      pos <= |text|
    }

    ghost function Rest(): string
      requires Valid()
      reads this
    {
      text[pos..]
    }

    constructor (text: string)
      ensures Valid() && Rest() == text
    {
      this.text := text;
      pos := 0;
    }

    method Get() returns (c: Option<char>)
      requires Valid()
      modifies this
      ensures Valid() && pos >= old(pos)
      ensures old(Rest()) == [] ==> c == None && Rest() == []
      ensures old(Rest()) != [] ==> c == Some(old(Rest())[0]) && Rest() == old(Rest())[1..]
    {
      if pos == |text| {
        return None;
      }
      c := Some(text[pos]);
      pos := pos + 1;
    }

    method Peek() returns (c: Option<char>)
      requires Valid()
      ensures c == if Rest() == [] then None else Some(Rest()[0])
    {
      return if pos == |text| then None else Some(text[pos]);
    }
  }
}
