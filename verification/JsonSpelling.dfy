/** The spellings that the string token reads: exactly those of section 7 of RFC 8259, but for NUL and lone
    surrogates, and each is read as one byte. */
module JsonSpelling {
  import opened TextStream
  import opened JsonLexer

  /** One character between quotation marks: as it is, by a letter, by the code of a character, or by a
      surrogate pair. `upper` says which of the hexadecimal digits are capital letters. */
  datatype Spelling =
    | Raw(c: char)
    | Short(letter: char)
    | Code(n: nat, upper: seq<bool>)
    | Pair(n: nat, upper: seq<bool>)

  /** The letters after a backslash, and what they stand for. */
  const SHORT: map<char, char> := map[
    '"' := '"', '\\' := '\\', '/' := '/',
    'b' := '\U{08}', 'f' := '\U{0C}', 'n' := '\U{0A}', 'r' := '\U{0D}', 't' := '\U{09}']

  const CAPITALS := "0123456789ABCDEF"
  const SMALL := "0123456789abcdef"

  function Hex(d: nat, upper: bool): char
    requires d < 16
  {
    if upper then CAPITALS[d] else SMALL[d]
  }

  /** The last `k` hexadecimal digits of a number. */
  function HexText(n: nat, k: nat, upper: seq<bool>): string
    requires |upper| == k
  {
    if k == 0 then "" else HexText(n / 16, k - 1, upper[..k - 1]) + [Hex(n % 16, upper[k - 1])]
  }

  function Hex4(n: nat, upper: seq<bool>): string
    requires |upper| == 4
  {
    HexText(n, 4, upper)
  }

  function HighSurrogate(n: nat): nat
    requires 0x1_0000 <= n < 0x11_0000
  {
    0xD800 + (n - 0x1_0000) / 0x400
  }

  function LowSurrogate(n: nat): nat
    requires 0x1_0000 <= n < 0x11_0000
  {
    0xDC00 + (n - 0x1_0000) % 0x400
  }

  predicate IsSpelling(s: Spelling) {
    match s
    case Raw(c) => c >= ' ' && c != '"' && c != '\\'
    case Short(letter) => letter in SHORT
    case Code(n, upper) => 0 < n < 0x1_0000 && !(0xD800 <= n < 0xE000) && |upper| == 4
    case Pair(n, upper) => 0x1_0000 <= n < 0x11_0000 && |upper| == 8
  }

  function TextOf(s: Spelling): string
    requires IsSpelling(s)
  {
    match s
    case Raw(c) => [c]
    case Short(letter) => ['\\', letter]
    case Code(n, upper) => "\\u" + Hex4(n, upper)
    case Pair(n, upper) => "\\u" + Hex4(HighSurrogate(n), upper[..4]) + "\\u" + Hex4(LowSurrogate(n), upper[4..])
  }

  /** A code is appended to a string of bytes: its low byte is what is left. */
  function ByteOf(s: Spelling): char
    requires IsSpelling(s)
  {
    match s
    case Raw(c) => c
    case Short(letter) => SHORT[letter]
    case Code(n, _) => (n % 256) as char
    case Pair(n, _) => (n % 256) as char
  }

  predicate AreSpellings(ss: seq<Spelling>) {
    forall i | 0 <= i < |ss| :: IsSpelling(ss[i])
  }

  function Spelled(ss: seq<Spelling>): string
    requires AreSpellings(ss)
  {
    if ss == [] then "" else TextOf(ss[0]) + Spelled(ss[1..])
  }

  function Bytes(ss: seq<Spelling>): string
    requires AreSpellings(ss)
  {
    if ss == [] then "" else [ByteOf(ss[0])] + Bytes(ss[1..])
  }

  // ---------------------------------------------------------------- what is spelled is read

  lemma HexIsValue(d: nat, upper: bool)
    requires d < 16
    ensures HexValue(Hex(d, upper)) == Some(d)
  {
  }

  /** Reading on after the first digits. */
  lemma {:induction false} HexGoesOn(s: string, n: nat, m: nat, acc: nat)
    requires HexCode(s, n, acc).Done?
    ensures var r := HexCode(s, n, acc); HexCode(s, n + m, acc) == HexCode(r.rest, m, r.value)
    decreases n
  {
    if n > 0 {
      HexGoesOn(s[1..], n - 1, m, acc * 16 + HexValue(s[0]).value);
    }
  }

  function Limit(k: nat): nat {
    if k == 0 then 1 else 16 * Limit(k - 1)
  }

  lemma LimitOfFour()
    ensures Limit(4) == 0x1_0000
  {
    assert Limit(1) == 16 && Limit(2) == 256 && Limit(3) == 4096;
  }

  lemma HexOne(c: char, rest: string, acc: nat, d: nat)
    requires HexValue(c) == Some(d)
    ensures HexCode([c] + rest, 1, acc) == Done(acc * 16 + d, rest)
  {
    assert ([c] + rest)[1..] == rest;
  }

  lemma {:induction false} HexIsRead(n: nat, k: nat, upper: seq<bool>, rest: string)
    requires |upper| == k && n < Limit(k)
    ensures HexCode(HexText(n, k, upper) + rest, k, 0) == Done(n, rest)
    decreases k
  {
    if k == 0 {
      assert "" + rest == rest;
    } else {
      var init, last := HexText(n / 16, k - 1, upper[..k - 1]), Hex(n % 16, upper[k - 1]);
      HexIsRead(n / 16, k - 1, upper[..k - 1], [last] + rest);
      Assoc(init, [last], rest);
      HexGoesOn(init + ([last] + rest), k - 1, 1, 0);
      HexIsValue(n % 16, upper[k - 1]);
      HexOne(last, rest, n / 16, n % 16);
    }
  }

  lemma Hex4IsRead(n: nat, upper: seq<bool>, rest: string)
    requires n < 0x1_0000 && |upper| == 4
    ensures HexCode(Hex4(n, upper) + rest, 4, 0) == Done(n, rest)
  {
    LimitOfFour();
    HexIsRead(n, 4, upper, rest);
  }

  lemma CodeIsRead(n: nat, upper: seq<bool>, rest: string)
    requires IsSpelling(Code(n, upper))
    ensures UnicodeEscape(Hex4(n, upper) + rest) == Done((n % 256) as char, rest)
  {
    Hex4IsRead(n, upper, rest);
  }

  lemma PairIsRead(n: nat, upper: seq<bool>, rest: string)
    requires IsSpelling(Pair(n, upper))
    ensures UnicodeEscape(Hex4(HighSurrogate(n), upper[..4]) + ("\\u" + (Hex4(LowSurrogate(n), upper[4..]) + rest)))
         == Done((n % 256) as char, rest)
  {
    var high, low := Hex4(HighSurrogate(n), upper[..4]), Hex4(LowSurrogate(n), upper[4..]);
    Hex4IsRead(HighSurrogate(n), upper[..4], "\\u" + (low + rest));
    Hex4IsRead(LowSurrogate(n), upper[4..], rest);
    SurrogatesJoin(high + ("\\u" + (low + rest)), HighSurrogate(n), LowSurrogate(n), low + rest, rest);
    PairIsWhole(n);
  }

  lemma SurrogatesJoin(s: string, high: nat, low: nat, second: string, rest: string)
    requires HexCode(s, 4, 0) == Done(high, "\\u" + second) && HexCode(second, 4, 0) == Done(low, rest)
    requires 0xD800 <= high <= 0xDBFF && 0xDC00 <= low <= 0xDFFF
    ensures UnicodeEscape(s) == Done(Narrow(0x10000 + high % 0x400 * 0x400 + low % 0x400), rest)
  {
    assert ("\\u" + second)[2..] == second;
  }

  lemma PairIsWhole(n: nat)
    requires 0x1_0000 <= n < 0x11_0000
    ensures 0xD800 <= HighSurrogate(n) <= 0xDBFF && 0xDC00 <= LowSurrogate(n) <= 0xDFFF
    ensures 0x10000 + HighSurrogate(n) % 0x400 * 0x400 + LowSurrogate(n) % 0x400 == n
  {
  }

  /** One more character, whatever follows. */
  function Grown(c: char, scan: Scan<string>): Scan<string> {
    match scan case Throw => Throw case Done(s, rest) => Done([c] + s, rest)
  }

  lemma EscapeIsRead(text: string, c: char, rest: string)
    requires Escape(text + rest) == Done(c, rest)
    ensures StringBody("\\" + text + rest) == Grown(c, StringBody(rest))
  {
    assert ("\\" + text + rest)[1..] == text + rest;
  }

  lemma CodeSpellingIsRead(n: nat, upper: seq<bool>, rest: string)
    requires IsSpelling(Code(n, upper))
    ensures StringBody(TextOf(Code(n, upper)) + rest) == Grown((n % 256) as char, StringBody(rest))
  {
    var text := "u" + Hex4(n, upper);
    CodeIsRead(n, upper, rest);
    assert (text + rest)[1..] == Hex4(n, upper) + rest;
    EscapeIsRead(text, (n % 256) as char, rest);
    assert TextOf(Code(n, upper)) == "\\" + text;
  }

  lemma PairSpellingIsRead(n: nat, upper: seq<bool>, rest: string)
    requires IsSpelling(Pair(n, upper))
    ensures StringBody(TextOf(Pair(n, upper)) + rest) == Grown((n % 256) as char, StringBody(rest))
  {
    var high, low := Hex4(HighSurrogate(n), upper[..4]), Hex4(LowSurrogate(n), upper[4..]);
    var text := "u" + high + "\\u" + low;
    PairIsRead(n, upper, rest);
    PairGlue(high, low, rest);
    EscapeIsRead(text, (n % 256) as char, rest);
  }

  lemma PairGlue(high: string, low: string, rest: string)
    ensures ("u" + high + "\\u" + low + rest)[1..] == high + ("\\u" + (low + rest))
    ensures "\\u" + high + "\\u" + low == "\\" + ("u" + high + "\\u" + low)
  {
  }

  lemma SpellingIsRead(s: Spelling, rest: string)
    requires IsSpelling(s)
    ensures StringBody(TextOf(s) + rest) == Grown(ByteOf(s), StringBody(rest))
  {
    match s {
      case Raw(c) =>
        assert ([c] + rest)[1..] == rest;
      case Short(letter) =>
        assert ([letter] + rest)[1..] == rest;
        EscapeIsRead([letter], SHORT[letter], rest);
        assert ['\\', letter] == "\\" + [letter];
      case Code(n, upper) => CodeSpellingIsRead(n, upper, rest);
      case Pair(n, upper) => PairSpellingIsRead(n, upper, rest);
    }
  }

  /** Every text that is spelled in any of these ways is read, up to the closing quotation mark. */
  lemma {:induction false} SpelledIsRead(ss: seq<Spelling>, rest: string)
    requires AreSpellings(ss)
    ensures StringBody(Spelled(ss) + "\"" + rest) == Done(Bytes(ss), rest)
  {
    if ss == [] {
      var close := "\"" + rest;
      assert Spelled(ss) + "\"" + rest == close && close[0] == '"' && close[1..] == rest;
    } else {
      var more := Spelled(ss[1..]) + "\"" + rest;
      SpelledIsRead(ss[1..], rest);
      SpellingIsRead(ss[0], more);
      SpelledFirst(ss);
      Assoc(TextOf(ss[0]), Spelled(ss[1..]), "\"");
      Assoc(TextOf(ss[0]), Spelled(ss[1..]) + "\"", rest);
    }
  }

  lemma SpelledFirst(ss: seq<Spelling>)
    requires AreSpellings(ss) && ss != []
    ensures Spelled(ss) == TextOf(ss[0]) + Spelled(ss[1..]) && Bytes(ss) == [ByteOf(ss[0])] + Bytes(ss[1..])
  {
  }

  // ---------------------------------------------------------------- what is read is spelled

  lemma ValueIsHex(c: char) returns (upper: bool)
    requires HexValue(c).Some?
    ensures HexValue(c).value < 16 && c == Hex(HexValue(c).value, upper)
  {
    upper := c <= 'F';
    var d := HexValue(c).value;
    if c <= '9' {
      assert c == ['0', '1', '2', '3', '4', '5', '6', '7', '8', '9'][d];
    } else if c <= 'F' {
      assert c == ['A', 'B', 'C', 'D', 'E', 'F'][d - 10];
    } else {
      assert c == ['a', 'b', 'c', 'd', 'e', 'f'][d - 10];
    }
  }

  lemma {:induction false} HexStops(s: string, n: nat, acc: nat)
    requires n > 0 && HexCode(s, n, acc).Done?
    ensures HexCode(s, n - 1, acc).Done?
    decreases n
  {
    if n > 1 {
      HexStops(s[1..], n - 1, acc * 16 + HexValue(s[0]).value);
    }
  }

  lemma {:induction false} ReadIsHex(s: string, k: nat) returns (upper: seq<bool>)
    requires HexCode(s, k, 0).Done?
    ensures |upper| == k && HexCode(s, k, 0).value < Limit(k)
    ensures s == HexText(HexCode(s, k, 0).value, k, upper) + HexCode(s, k, 0).rest
    decreases k
  {
    upper := [];
    if k > 0 {
      HexStops(s, k, 0);
      HexGoesOn(s, k - 1, 1, 0);
      var r := HexCode(s, k - 1, 0);
      var init := ReadIsHex(s, k - 1);
      var last := ValueIsHex(r.rest[0]);
      var d := HexValue(r.rest[0]).value;
      upper := init + [last];
      assert upper[..k - 1] == init;
      assert (r.value * 16 + d) / 16 == r.value && (r.value * 16 + d) % 16 == d;
      assert r.rest == [Hex(d, last)] + r.rest[1..];
      Assoc(HexText(r.value, k - 1, init), [Hex(d, last)], r.rest[1..]);
    } else {
      assert s == "" + s;
    }
  }

  lemma ReadIsHex4(s: string) returns (upper: seq<bool>)
    requires HexCode(s, 4, 0).Done?
    ensures |upper| == 4 && HexCode(s, 4, 0).value < 0x1_0000
    ensures s == Hex4(HexCode(s, 4, 0).value, upper) + HexCode(s, 4, 0).rest
  {
    LimitOfFour();
    upper := ReadIsHex(s, 4);
  }

  lemma ReadIsPair(s: string) returns (sp: Spelling)
    requires UnicodeEscape(s).Done? && 0xD800 <= HexCode(s, 4, 0).value <= 0xDBFF
    ensures IsSpelling(sp) && "\\u" + s == TextOf(sp) + UnicodeEscape(s).rest && UnicodeEscape(s).value == ByteOf(sp)
  {
    var high := HexCode(s, 4, 0);
    var second := high.rest[2..];
    var low := HexCode(second, 4, 0);
    var u := ReadIsHex4(s);
    var v := ReadIsHex4(second);
    assert high.rest == "\\u" + second;
    SurrogatesJoin(s, high.value, low.value, second, low.rest);
    sp := PairText(high.value, low.value, u, v);
    Glue(s, Hex4(high.value, u), Hex4(low.value, v), low.rest);
  }

  lemma PairText(high: nat, low: nat, u: seq<bool>, v: seq<bool>) returns (sp: Spelling)
    requires 0xD800 <= high <= 0xDBFF && 0xDC00 <= low <= 0xDFFF && |u| == |v| == 4
    ensures IsSpelling(sp) && TextOf(sp) == "\\u" + Hex4(high, u) + "\\u" + Hex4(low, v)
    ensures ByteOf(sp) == Narrow(0x10000 + high % 0x400 * 0x400 + low % 0x400)
  {
    var n := PairOf(high, low);
    sp := Pair(n, u + v);
    assert (u + v)[..4] == u && (u + v)[4..] == v;
    PairIsWhole(n);
  }

  lemma Glue(s: string, h: string, l: string, rest: string)
    requires s == h + ("\\u" + (l + rest))
    ensures "\\u" + s == "\\u" + h + "\\u" + l + rest
  {
  }

  lemma PairOf(high: nat, low: nat) returns (n: nat)
    requires 0xD800 <= high <= 0xDBFF && 0xDC00 <= low <= 0xDFFF
    ensures 0x1_0000 <= n < 0x11_0000 && HighSurrogate(n) == high && LowSurrogate(n) == low
  {
    n := 0x1_0000 + (high - 0xD800) * 0x400 + (low - 0xDC00);
  }

  lemma ReadIsCode(s: string) returns (sp: Spelling)
    requires UnicodeEscape(s).Done?
    ensures IsSpelling(sp) && "\\u" + s == TextOf(sp) + UnicodeEscape(s).rest && UnicodeEscape(s).value == ByteOf(sp)
  {
    var high := HexCode(s, 4, 0);
    if 0xD800 <= high.value <= 0xDBFF {
      sp := ReadIsPair(s);
    } else {
      var upper := ReadIsHex4(s);
      sp := Code(high.value, upper);
      assert "\\u" + s == TextOf(sp) + high.rest;
    }
  }

  lemma ReadIsOne(s: string) returns (sp: Spelling, rest: string)
    requires StringBody(s).Done? && s[0] != '"'
    ensures IsSpelling(sp) && s == TextOf(sp) + rest && |rest| < |s|
    ensures StringBody(s) == Grown(ByteOf(sp), StringBody(rest))
  {
    if s[0] == '\\' {
      EscapeConsumes(s[1..]);
      rest := Escape(s[1..]).rest;
      if s[1] == 'u' {
        assert s[1..][1..] == s[2..];
        sp := ReadIsCode(s[2..]);
        assert s == "\\u" + s[2..];
      } else {
        sp := Short(s[1]);
        assert s == ['\\', s[1]] + s[1..][1..];
      }
    } else {
      sp, rest := Raw(s[0]), s[1..];
    }
  }

  /** And nothing else is: whatever the string token takes is spelled in these ways. */
  lemma {:induction false} ReadIsSpelled(s: string) returns (ss: seq<Spelling>)
    requires StringBody(s).Done?
    ensures AreSpellings(ss) && s == Spelled(ss) + "\"" + StringBody(s).rest && StringBody(s).value == Bytes(ss)
    decreases |s|
  {
    if s[0] == '"' {
      ss := [];
      assert s == "" + "\"" + s[1..];
    } else {
      var sp, rest := ReadIsOne(s);
      var more := ReadIsSpelled(rest);
      ss := [sp] + more;
      assert ss[1..] == more;
      SpelledFirst(ss);
      Assoc(TextOf(sp), Spelled(more), "\"");
      Assoc(TextOf(sp), Spelled(more) + "\"", StringBody(s).rest);
    }
  }
}
