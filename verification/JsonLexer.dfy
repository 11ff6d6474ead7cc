/** The token classes of the JSON parser and the tokenizer that drives them.

    The functions say what each token class reads from the characters left in the stream; the
    methods are the loops over `istr.get()` and `istr.peek()`, proved to read exactly that. */
module JsonLexer {
  import opened JsonValue
  import opened TextStream

  datatype Token =
    | Separator(c: char)
    | StringLiteral(s: string)
    | IntegerLiteral(text: string)
    | FloatLiteral(text: string)
    | DoubleLiteral(text: string)
    | Keyword(word: string)
    | Invalid(c: char)

  // ---------------------------------------------------------------- character classes

  predicate IsAlpha(c: char) { 'a' <= c <= 'z' || 'A' <= c <= 'Z' }

  predicate IsSeparator(c: char) {
    c == '{' || c == '}' || c == '[' || c == ']' || c == ',' || c == ':'
  }

  predicate IsControl(c: char) { c <= '\U{1F}' }

  function HexValue(c: char): Option<nat> {
    if '0' <= c <= '9' then Some((c - '0') as nat)
    else if 'A' <= c <= 'F' then Some((c - 'A') as nat + 10)
    else if 'a' <= c <= 'f' then Some((c - 'a') as nat + 10)
    else None
  }

  // ---------------------------------------------------------------- strings

  /** `value <<= 4; value += digit`, `n` times */
  function HexCode(s: string, n: nat, acc: nat): Scan<nat> {
    if n == 0 then Done(acc, s)
    else if s == [] then Throw
    else match HexValue(s[0])
      case None => Throw
      case Some(d) => HexCode(s[1..], n - 1, acc * 16 + d)
  }

  /** Appending an `int` to a `std::string` keeps its low byte. */
  function Narrow(code: nat): char { (code % 256) as char }

  /** The characters after `\u`: one code unit, or a surrogate pair. */
  function UnicodeEscape(s: string): Scan<char> {
    match HexCode(s, 4, 0)
    case Throw => Throw
    case Done(high, rest) =>
      if high == 0 then Throw
      else if 0xD800 <= high <= 0xDBFF then
        if |rest| < 2 || rest[0] != '\\' || rest[1] != 'u' then Throw
        else match HexCode(rest[2..], 4, 0)
          case Throw => Throw
          case Done(low, rest') =>
            if 0xDC00 <= low <= 0xDFFF
            then Done(Narrow(0x10000 + high % 0x400 * 0x400 + low % 0x400), rest')
            else Throw
      else if 0xDC00 <= high <= 0xDFFF then Throw
      else Done(Narrow(high), rest)
  }

  function SimpleEscape(c: char): Option<char> {
    if c == '"' || c == '\\' || c == '/' then Some(c)
    else if c == 'b' then Some('\U{08}')
    else if c == 'f' then Some('\U{0C}')
    else if c == 'n' then Some('\n')
    else if c == 'r' then Some('\r')
    else if c == 't' then Some('\t')
    else None
  }

  /** The characters after a backslash. */
  function Escape(s: string): Scan<char> {
    if s == [] then Throw
    else if s[0] == 'u' then UnicodeEscape(s[1..])
    else match SimpleEscape(s[0])
      case None => Throw
      case Some(c) => Done(c, s[1..])
  }

  lemma {:induction false} HexCodeConsumes(s: string, n: nat, acc: nat)
    ensures HexCode(s, n, acc).Done? ==> |HexCode(s, n, acc).rest| == |s| - n
  {
    if n != 0 && s != [] && HexValue(s[0]).Some? {
      HexCodeConsumes(s[1..], n - 1, acc * 16 + HexValue(s[0]).value);
    }
  }

  lemma EscapeConsumes(s: string)
    ensures Escape(s).Done? ==> |Escape(s).rest| < |s|
  {
    if s != [] && s[0] == 'u' {
      HexCodeConsumes(s[1..], 4, 0);
      var first := HexCode(s[1..], 4, 0);
      if first.Done? && |first.rest| >= 2 {
        HexCodeConsumes(first.rest[2..], 4, 0);
      }
    }
  }

  function Prepend(prefix: string, scan: Scan<string>): Scan<string> {
    match scan
    case Throw => Throw
    case Done(s, rest) => Done(prefix + s, rest)
  }

  /** The characters after an opening quote, up to and including the closing one. */
  function StringBody(s: string): (r: Scan<string>)
    ensures r.Done? ==> |r.rest| < |s|
    decreases |s|
  {
    if s == [] || IsControl(s[0]) then Throw
    else if s[0] == '"' then Done("", s[1..])
    else if s[0] == '\\' then
      EscapeConsumes(s[1..]);
      match Escape(s[1..])
      case Throw => Throw
      case Done(c, rest) => Prepend([c], StringBody(rest))
    else Prepend([s[0]], StringBody(s[1..]))
  }

  // ---------------------------------------------------------------- numbers and keywords

  datatype NumberClass = IntegerClass | FloatClass | DoubleClass

  datatype Number = Number(text: string, cls: NumberClass)

  datatype NumberStart = Started(text: string, rest: string) | NotANumber | StartThrows

  predicate DigitFirst(s: string) { s != [] && IsDigit(s[0]) }

  /** `NumberToken::start`: the first character and a look ahead. */
  function StartNumber(c: char, s: string): NumberStart {
    if IsDigit(c) then
      if c == '0' && DigitFirst(s) then StartThrows else Started([c], s)
    else if c == '-' && DigitFirst(s) then
      if s[0] == '0'
      then if DigitFirst(s[1..]) then StartThrows else Started("-0", s[1..])
      else Started("-", s)
    else NotANumber
  }

  function PrependText(prefix: string, scan: Scan<Number>): Scan<Number> {
    match scan
    case Throw => Throw
    case Done(n, rest) => Done(Number(prefix + n.text, n.cls), rest)
  }

  /** The length of an exponent's mark and sign. */
  function SignLength(s: string): nat {
    if |s| > 1 && (s[1] == '-' || s[1] == '+') then 2 else 1
  }

  /** `NumberToken::finish`. A second point after an exponent is let through, as in the source. */
  function NumberTail(cls: NumberClass, s: string): (r: Scan<Number>)
    ensures r.Done? ==> |r.rest| <= |s|
    decreases |s|
  {
    if s == [] then Done(Number("", cls), s)
    else if IsDigit(s[0]) then PrependText([s[0]], NumberTail(cls, s[1..]))
    else if s[0] == '.' then
      if cls == FloatClass || !DigitFirst(s[1..]) then Throw
      else PrependText(s[..2], NumberTail(FloatClass, s[2..]))
    else if s[0] == 'e' || s[0] == 'E' then
      var sign := SignLength(s);
      if cls == DoubleClass || !DigitFirst(s[sign..]) then Throw
      else PrependText(s[..sign + 1], NumberTail(DoubleClass, s[sign + 1..]))
    else Done(Number("", cls), s)
  }

  /** The length of the longest prefix of letters. */
  function AlphaLength(s: string): (n: nat)
    ensures n <= |s|
  {
    if s == [] || !IsAlpha(s[0]) then 0 else 1 + AlphaLength(s[1..])
  }

  // ---------------------------------------------------------------- the tokenizer

  /** A token and the characters left, the end of the text, or an exception from a token class. */
  datatype Lexed = Lexed(token: Token, rest: string) | AtEnd | LexThrow

  function NumberTokenOf(n: Number): Token {
    match n.cls
    case IntegerClass => IntegerLiteral(n.text)
    case FloatClass => FloatLiteral(n.text)
    case DoubleClass => DoubleLiteral(n.text)
  }

  /** `StreamTokenizer::next`: whitespace is skipped, then one token is read. */
  function NextToken(s: string): (r: Lexed)
    ensures r.Lexed? ==> |r.rest| < |s|
    decreases |s|, 1
  {
    if s == [] then AtEnd else TokenAt(s)
  }

  /** The token classes in the order in which the tokenizer tries them. */
  function TokenAt(s: string): (r: Lexed)
    requires s != []
    ensures r.Lexed? ==> |r.rest| < |s|
    decreases |s|, 0
  {
    if IsSpace(s[0]) then NextToken(s[1..])
    else if IsSeparator(s[0]) then Lexed(Separator(s[0]), s[1..])
    else if s[0] == '\'' then LexThrow
    else if s[0] == '"' then
      match StringBody(s[1..])
      case Throw => LexThrow
      case Done(v, rest) => Lexed(StringLiteral(v), rest)
    else
      match StartNumber(s[0], s[1..])
      case StartThrows => LexThrow
      case Started(text, rest) => (
        match PrependText(text, NumberTail(IntegerClass, rest))
        case Throw => LexThrow
        case Done(n, rest') => Lexed(NumberTokenOf(n), rest')
      )
      case NotANumber =>
        if IsAlpha(s[0]) then
          var n := AlphaLength(s);
          Lexed(Keyword(s[..n]), s[n..])
        else Lexed(Invalid(s[0]), s[1..])
  }

  /** The tokens ahead of a parser: they end with the text, or with an exception. */
  datatype TokenStream = Cons(head: Token, tail: TokenStream) | EndOfText | Exception

  /** All tokens of a text. */
  function Tokens(s: string): TokenStream
    decreases |s|
  {
    match NextToken(s)
    case AtEnd => EndOfText
    case LexThrow => Exception
    case Lexed(token, rest) => Cons(token, Tokens(rest))
  }

  // ---------------------------------------------------------------- the readers

  lemma PrependTwice(p: string, q: string, scan: Scan<string>)
    ensures Prepend(p, Prepend(q, scan)) == Prepend(p + q, scan)
  {
    if scan.Done? {
      assert p + (q + scan.value) == p + q + scan.value;
    }
  }

  lemma PrependTextTwice(p: string, q: string, scan: Scan<Number>)
    ensures PrependText(p, PrependText(q, scan)) == PrependText(p + q, scan)
  {
    if scan.Done? {
      assert p + (q + scan.value.text) == p + q + scan.value.text;
    }
  }

  /** `StringToken::decodeUnicode`; `None` stands for the exception. */
  method DecodeUnicode(istr: InStream) returns (code: Option<nat>)
    requires istr.Valid()
    modifies istr
    ensures istr.Valid() && istr.pos >= old(istr.pos)
    ensures match HexCode(old(istr.Rest()), 4, 0)
            case Throw => code == None
            case Done(v, rest) => code == Some(v) && istr.Rest() == rest
  {
    var value: nat := 0;
    for i := 0 to 4
      invariant istr.Valid() && istr.pos >= old(istr.pos)
      invariant HexCode(old(istr.Rest()), 4, 0) == HexCode(istr.Rest(), 4 - i, value)
    {
      var nc := istr.Peek();
      if nc == None {
        return None;
      }
      var _ := istr.Get();
      var d := HexValue(nc.value);
      if d == None {
        return None;
      }
      value := value * 16 + d.value;
    }
    return Some(value);
  }

  /** The `case 'u'` branch of `StringToken::finish`. */
  method ReadUnicodeEscape(istr: InStream) returns (r: Option<char>)
    requires istr.Valid()
    modifies istr
    ensures istr.Valid() && istr.pos >= old(istr.pos)
    ensures match UnicodeEscape(old(istr.Rest()))
            case Throw => r == None
            case Done(c, rest) => r == Some(c) && istr.Rest() == rest
  {
    var code := DecodeUnicode(istr);
    if code == None || code.value == 0 {
      return None;
    }
    var unicode := code.value;
    if 0xD800 <= unicode <= 0xDBFF {
      var c := istr.Get();
      if c != Some('\\') {
        return None;
      }
      c := istr.Get();
      if c != Some('u') {
        return None;
      }
      var surrogate := DecodeUnicode(istr);
      if surrogate == None || !(0xDC00 <= surrogate.value <= 0xDFFF) {
        return None;
      }
      unicode := 0x10000 + unicode % 0x400 * 0x400 + surrogate.value % 0x400;
    } else if 0xDC00 <= unicode <= 0xDFFF {
      return None;
    }
    return Some(Narrow(unicode));
  }

  /** `StringToken::finish` */
  method FinishString(istr: InStream) returns (r: Option<string>)
    requires istr.Valid()
    modifies istr
    ensures istr.Valid() && istr.pos >= old(istr.pos)
    ensures match StringBody(old(istr.Rest()))
            case Throw => r == None
            case Done(v, rest) => r == Some(v) && istr.Rest() == rest
  {
    var value := "";
    ghost var left := istr.Rest();
    assert Prepend("", StringBody(left)) == StringBody(left) by {
      if StringBody(left).Done? {
        assert "" + StringBody(left).value == StringBody(left).value;
      }
    }
    var c := istr.Get();
    while c.Some?
      invariant istr.Valid() && istr.pos >= old(istr.pos)
      invariant c == None <==> left == []
      invariant c.Some? ==> c.value == left[0] && istr.Rest() == left[1..]
      invariant StringBody(old(istr.Rest())) == Prepend(value, StringBody(left))
      decreases |left|
    {
      if IsControl(c.value) {
        return None;
      }
      if c.value == '"' {
        break;
      }
      if c.value == '\\' {
        EscapeConsumes(left[1..]);
        c := istr.Get();
        if c == None {
          return None;
        }
        if c.value == 'u' {
          c := ReadUnicodeEscape(istr);
        } else {
          c := SimpleEscape(c.value);
        }
        if c == None {
          return None;
        }
      }
      ghost var after := istr.Rest();
      assert StringBody(left) == Prepend([c.value], StringBody(after));
      PrependTwice(value, [c.value], StringBody(after));
      value := value + [c.value];
      left := after;
      c := istr.Get();
    }
    if c == None {
      return None;
    }
    assert value + "" == value;
    return Some(value);
  }

  /** `KeywordToken::finish`, after `start` has taken the first letter. */
  method FinishKeyword(first: char, istr: InStream) returns (word: string)
    requires istr.Valid()
    modifies istr
    ensures istr.Valid() && istr.pos >= old(istr.pos)
    ensures var n := AlphaLength(old(istr.Rest()));
            word == [first] + old(istr.Rest())[..n] && istr.Rest() == old(istr.Rest())[n..]
  {
    word := [first];
    ghost var s, i := istr.Rest(), 0;
    var c := istr.Peek();
    while c.Some? && IsAlpha(c.value)
      invariant istr.Valid() && istr.pos >= old(istr.pos)
      invariant 0 <= i <= |s| && istr.Rest() == s[i..]
      invariant c == if i == |s| then None else Some(s[i])
      invariant word == [first] + s[..i]
      invariant AlphaLength(s) == i + AlphaLength(s[i..])
      decreases |s| - i
    {
      assert s[i..][1..] == s[i + 1..];
      var _ := istr.Get();
      word := word + [c.value];
      i := i + 1;
      c := istr.Peek();
    }
  }

  /** `NumberToken::start`; the stream moves only past the zero of `-0`. */
  method TryStartNumber(c: char, istr: InStream) returns (r: NumberStart)
    requires istr.Valid()
    modifies istr
    ensures istr.Valid() && istr.pos >= old(istr.pos)
    ensures r == StartNumber(c, old(istr.Rest()))
    ensures r.Started? ==> istr.Rest() == r.rest
    ensures r.NotANumber? ==> istr.Rest() == old(istr.Rest())
  {
    ghost var s := istr.Rest();
    var nc := istr.Peek();
    if IsDigit(c) {
      if c == '0' && nc.Some? && IsDigit(nc.value) {
        return StartThrows;
      }
      return Started([c], istr.text[istr.pos..]);
    }
    if c == '-' {
      if nc.Some? && IsDigit(nc.value) {
        if nc.value == '0' {
          var _ := istr.Get();
          nc := istr.Peek();
          if nc.Some? && IsDigit(nc.value) {
            return StartThrows;
          }
          return Started("-0", istr.text[istr.pos..]);
        }
        return Started("-", istr.text[istr.pos..]);
      }
    }
    return NotANumber;
  }

  /** The `case '.'` branch of `NumberToken::finish`: the point and the digit it needs. */
  method TakeFraction(istr: InStream) returns (r: Option<string>)
    requires istr.Valid() && istr.Rest() != []
    modifies istr
    ensures istr.Valid() && istr.pos >= old(istr.pos)
    ensures r.Some? <==> DigitFirst(old(istr.Rest())[1..])
    ensures r.Some? ==> r.value == old(istr.Rest())[..2] && istr.Rest() == old(istr.Rest())[2..]
  {
    ghost var s := istr.Rest();
    var point := istr.Get();
    var digit := istr.Peek();
    if digit == None || !IsDigit(digit.value) {
      return None;
    }
    var _ := istr.Get();
    assert s[..2] == [s[0], s[1]];
    return Some([point.value, digit.value]);
  }

  /** The `case 'e'` branch of `NumberToken::finish`: the mark, a sign, and the digit it needs. */
  method TakeExponent(istr: InStream) returns (r: Option<string>)
    requires istr.Valid() && istr.Rest() != []
    modifies istr
    ensures istr.Valid() && istr.pos >= old(istr.pos)
    ensures var s, n := old(istr.Rest()), SignLength(old(istr.Rest()));
            && (r.Some? <==> DigitFirst(s[n..]))
            && (r.Some? ==> r.value == s[..n + 1] && istr.Rest() == s[n + 1..])
  {
    ghost var s := istr.Rest();
    var mark := istr.Get();
    var value := [mark.value];
    var c := istr.Peek();
    if c == Some('-') || c == Some('+') {
      value := value + [c.value];
      var _ := istr.Get();
      c := istr.Peek();
    }
    assert value == s[..SignLength(s)];
    if c == None || !IsDigit(c.value) {
      return None;
    }
    var _ := istr.Get();
    return Some(value + [c.value]);
  }

  /** `NumberToken::finish`, after `start` has stored `start`. */
  method FinishNumber(start: string, istr: InStream) returns (r: Option<Number>)
    requires istr.Valid()
    modifies istr
    ensures istr.Valid() && istr.pos >= old(istr.pos)
    ensures match PrependText(start, NumberTail(IntegerClass, old(istr.Rest())))
            case Throw => r == None
            case Done(n, rest) => r == Some(n) && istr.Rest() == rest
  {
    var value, cls := start, IntegerClass;
    ghost var s := istr.Rest();
    var c := istr.Peek();
    while c.Some?
      invariant istr.Valid() && istr.pos >= old(istr.pos) && istr.Rest() == s
      invariant c == if s == [] then None else Some(s[0])
      invariant PrependText(start, NumberTail(IntegerClass, old(istr.Rest())))
             == PrependText(value, NumberTail(cls, s))
      decreases |s|
    {
      var taken: string;
      var cls' := cls;
      if IsDigit(c.value) {
        var _ := istr.Get();
        taken := [c.value];
      } else {
        var more: Option<string>;
        if c.value == '.' && cls != FloatClass {
          cls' := FloatClass;
          more := TakeFraction(istr);
        } else if (c.value == 'e' || c.value == 'E') && cls != DoubleClass {
          cls' := DoubleClass;
          more := TakeExponent(istr);
        } else if c.value == '.' || c.value == 'e' || c.value == 'E' {
          return None;
        } else {
          break;
        }
        if more == None {
          return None;
        }
        taken := more.value;
      }
      assert NumberTail(cls, s) == PrependText(taken, NumberTail(cls', istr.Rest()));
      PrependTextTwice(value, taken, NumberTail(cls', istr.Rest()));
      value, cls, s := value + taken, cls', istr.Rest();
      c := istr.Peek();
    }
    assert NumberTail(cls, s) == Done(Number("", cls), s);
    assert value + "" == value;
    return Some(Number(value, cls));
  }

  /** What `next` gives its caller: a token, the end-of-file token, or an exception. */
  datatype TokenRead = Got(token: Token) | Eof | Raised

  /** `StreamTokenizer::next` */
  method ReadToken(istr: InStream) returns (r: TokenRead)
    requires istr.Valid()
    modifies istr
    ensures istr.Valid() && istr.pos >= old(istr.pos)
    ensures match NextToken(old(istr.Rest()))
            case AtEnd => r == Eof
            case LexThrow => r == Raised
            case Lexed(token, rest) => r == Got(token) && istr.Rest() == rest && istr.pos > old(istr.pos)
  {
    ghost var s := istr.Rest();
    var first := istr.Get();
    while first.Some? && IsSpace(first.value)
      invariant istr.Valid() && istr.pos >= old(istr.pos)
      invariant first == None <==> s == []
      invariant first.Some? ==> s == [first.value] + istr.Rest()
      invariant NextToken(old(istr.Rest())) == NextToken(s)
      decreases |s|
    {
      s := istr.Rest();
      first := istr.Get();
    }
    if first == None {
      return Eof;
    }
    var c := first.value;
    assert s[1..] == istr.Rest();
    if IsSeparator(c) {
      return Got(Separator(c));
    }
    if c == '\'' {
      return Raised;
    }
    if c == '"' {
      var v := FinishString(istr);
      return if v == None then Raised else Got(StringLiteral(v.value));
    }
    var start := TryStartNumber(c, istr);
    if start.StartThrows? {
      return Raised;
    }
    if start.Started? {
      var n := FinishNumber(start.text, istr);
      return if n == None then Raised else Got(NumberTokenOf(n.value));
    }
    if IsAlpha(c) {
      var word := FinishKeyword(c, istr);
      assert s[..AlphaLength(s)] == word;
      return Got(Keyword(word));
    }
    return Got(Invalid(c));
  }
}
