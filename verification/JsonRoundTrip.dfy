/** Printing and parsing JSON.

    A tree whose strings and keys the printer writes faithfully lexes to the same tokens at every
    indentation, and parsing the text rebuilds it. Integers come back in the holder that the parser
    chooses. A tree with any other key or string never comes back: its text is too light. */
module JsonRoundTrip {
  import opened TextStream
  import opened JsonValue
  import opened JsonLexer
  import opened JsonParser
  import opened JsonHandler
  import opened JsonPrinter
  import opened JsonNumber
  import opened JsonTrees
  import opened JsonWeight

  // ---------------------------------------------------------------- token sequences

  function Push(ts: seq<Token>, tail: TokenStream): TokenStream {
    if ts == [] then tail else Cons(ts[0], Push(ts[1..], tail))
  }

  lemma {:induction false} PushConcat(a: seq<Token>, b: seq<Token>, tail: TokenStream)
    ensures Push(a + b, tail) == Push(a, Push(b, tail))
  {
    if a == [] {
      assert [] + b == b;
    } else {
      PushConcat(a[1..], b, tail);
      assert (a + b)[1..] == a[1..] + b;
    }
  }

  // ---------------------------------------------------------------- lexing printed pieces

  predicate AllSpace(s: string) { forall c | c in s :: IsSpace(c) }

  lemma LexSpace(c: char, rest: string)
    requires IsSpace(c)
    ensures Tokens([c] + rest) == Tokens(rest)
  {
    var s := [c] + rest;
    assert s[1..] == rest;
    assert NextToken(s) == TokenAt(s) == NextToken(rest);
  }

  lemma {:induction false} LexBlank(s: string, rest: string)
    requires AllSpace(s)
    ensures Tokens(s + rest) == Tokens(rest)
  {
    if s == [] {
      assert s + rest == rest;
    } else {
      assert IsSpace(s[0]);
      LexBlank(s[1..], rest);
      LexSpace(s[0], s[1..] + rest);
      assert s + rest == [s[0]] + (s[1..] + rest);
    }
  }

  lemma LexSeparator(c: char, rest: string)
    requires IsSeparator(c)
    ensures Tokens([c] + rest) == Cons(Separator(c), Tokens(rest))
  {
    var s := [c] + rest;
    assert s[1..] == rest;
    assert NextToken(s) == TokenAt(s) == Lexed(Separator(c), rest);
  }

  /** A character that cannot continue a number or a keyword. */
  predicate Delimited(rest: string) {
    rest == [] || IsSeparator(rest[0]) || IsSpace(rest[0])
  }

  predicate AllDigits(s: string) { forall i | 0 <= i < |s| :: IsDigit(s[i]) }

  lemma {:induction false} NumberTailOfDigits(digits: string, rest: string)
    requires AllDigits(digits) && Delimited(rest)
    ensures NumberTail(IntegerClass, digits + rest) == Done(Number(digits, IntegerClass), rest)
  {
    if digits == [] {
      assert digits + rest == rest;
    } else {
      NumberTailOfDigits(digits[1..], rest);
      assert (digits + rest)[1..] == digits[1..] + rest;
      assert [digits[0]] + digits[1..] == digits;
    }
  }

  lemma LexDigits(digits: string, rest: string)
    requires digits != [] && AllDigits(digits) && (digits[0] == '0' ==> |digits| == 1) && Delimited(rest)
    ensures Tokens(digits + rest) == Cons(IntegerLiteral(digits), Tokens(rest))
  {
    var s := digits + rest;
    assert s[1..] == digits[1..] + rest;
    assert StartNumber(s[0], s[1..]) == Started([digits[0]], digits[1..] + rest);
    NumberTailOfDigits(digits[1..], rest);
    assert [digits[0]] + digits[1..] == digits;
    assert NextToken(s) == TokenAt(s) == Lexed(IntegerLiteral(digits), rest);
  }

  lemma LexNegative(digits: string, rest: string)
    requires digits != [] && AllDigits(digits) && digits[0] != '0' && Delimited(rest)
    ensures Tokens("-" + digits + rest) == Cons(IntegerLiteral("-" + digits), Tokens(rest))
  {
    var s := "-" + digits + rest;
    assert s[1..] == digits + rest;
    assert StartNumber(s[0], s[1..]) == Started("-", digits + rest);
    NumberTailOfDigits(digits, rest);
    assert NextToken(s) == TokenAt(s) == Lexed(IntegerLiteral("-" + digits), rest);
  }

  lemma LexInteger(n: int, rest: string)
    requires Delimited(rest)
    ensures Tokens(IntText(n) + rest) == Cons(IntegerLiteral(IntText(n)), Tokens(rest))
  {
    var m := if n < 0 then -n else n;
    DigitsAreCanonical(m);
    var digits := Digits(m);
    assert AllDigits(digits) by {
      forall i | 0 <= i < |digits| ensures IsDigit(digits[i]) {
        assert digits[i] in digits;
      }
    }
    if n < 0 {
      LexNegative(digits, rest);
    } else {
      LexDigits(digits, rest);
    }
  }

  lemma {:induction false} AlphaLengthOfWord(word: string, rest: string)
    requires forall i | 0 <= i < |word| :: IsAlpha(word[i])
    requires rest == [] || !IsAlpha(rest[0])
    ensures AlphaLength(word + rest) == |word|
  {
    if word == [] {
      assert word + rest == rest;
    } else {
      assert (word + rest)[1..] == word[1..] + rest;
      AlphaLengthOfWord(word[1..], rest);
    }
  }

  lemma LexKeyword(word: string, rest: string)
    requires word != [] && (forall i | 0 <= i < |word| :: IsAlpha(word[i])) && Delimited(rest)
    ensures Tokens(word + rest) == Cons(Keyword(word), Tokens(rest))
  {
    var s := word + rest;
    AlphaLengthOfWord(word, rest);
    assert IsAlpha(s[0]);
    assert s[..|word|] == word && s[|word|..] == rest;
    assert NextToken(s) == TokenAt(s) == Lexed(Keyword(word), rest);
  }

  // ---------------------------------------------------------------- lexing printed strings

  lemma HexCodeOfControl(c: char, rest: string)
    requires '\0' < c <= '\U{1F}'
    ensures HexCode("00" + [HexDigit(c as nat / 16), HexDigit(c as nat % 16)] + rest, 4, 0) == Done(c as nat, rest)
  {
    var hi, lo := HexDigit(c as nat / 16), HexDigit(c as nat % 16);
    var s := "00" + [hi, lo] + rest;
    assert s[1..] == ['0', hi, lo] + rest;
    assert s[1..][1..] == [hi, lo] + rest;
    assert s[1..][1..][1..] == [lo] + rest;
    assert s[1..][1..][1..][1..] == rest;
    assert HexValue(hi) == Some(c as nat / 16) && HexValue(lo) == Some(c as nat % 16);
    assert HexCode(s, 4, 0) == HexCode([hi, lo] + rest, 2, 0);
    assert HexCode([hi, lo] + rest, 2, 0) == HexCode([lo] + rest, 1, c as nat / 16);
    assert HexCode([lo] + rest, 1, c as nat / 16) == HexCode(rest, 0, c as nat);
  }

  /** Reading back one printed character. */
  lemma StringBodyOfChar(c: char, rest: string)
    requires c != '\0'
    ensures StringBody(EscapeChar(c) + rest) == Prepend([c], StringBody(rest))
  {
    var s := EscapeChar(c) + rest;
    if IsBare(c) {
      assert s[1..] == rest;
    } else {
      EscapeOfCode(c, rest);
      assert s[1..] == EscapeCode(c) + rest;
    }
  }

  lemma EscapeOfCode(c: char, rest: string)
    requires !IsBare(c)
    ensures Escape(EscapeCode(c) + rest) == Done(c, rest)
  {
    var s := EscapeCode(c) + rest;
    if |EscapeCode(c)| == 1 {
      assert s[0] == EscapeCode(c)[0] && s[1..] == rest;
    } else {
      var hex := "00" + [HexDigit(c as nat / 16), HexDigit(c as nat % 16)];
      assert s == "u" + hex + rest;
      assert s[1..] == hex + rest;
      HexCodeOfControl(c, rest);
      assert UnicodeEscape(hex + rest) == Done(Narrow(c as nat), rest);
    }
  }

  lemma {:induction false} StringBodyOfText(s: string, rest: string)
    requires '\0' !in s
    ensures StringBody(EscapeText(s) + "\"" + rest) == Done(s, rest)
  {
    var close := "\"" + rest;
    if s == [] {
      assert EscapeText(s) + "\"" + rest == close;
      assert close[1..] == rest;
    } else {
      StringBodyOfText(s[1..], rest);
      var tail := EscapeText(s[1..]) + "\"" + rest;
      assert EscapeText(s) + "\"" + rest == EscapeChar(s[0]) + tail;
      StringBodyOfChar(s[0], tail);
      assert [s[0]] + s[1..] == s;
    }
  }

  lemma LexQuoted(s: string, rest: string)
    requires '\0' !in s
    ensures Tokens("\"" + EscapeText(s) + "\"" + rest) == Cons(StringLiteral(s), Tokens(rest))
  {
    var text := "\"" + EscapeText(s) + "\"" + rest;
    assert text[1..] == EscapeText(s) + "\"" + rest;
    StringBodyOfText(s, rest);
    assert NextToken(text) == TokenAt(text) == Lexed(StringLiteral(s), rest);
  }

  lemma {:induction false} PlainKeyIsItsText(key: string)
    requires PlainKey(key)
    ensures EscapeText(key) == key && '\0' !in key
  {
    if key != [] {
      PlainKeyIsItsText(key[1..]);
      assert key == [key[0]] + key[1..];
    }
  }

  lemma LexKey(key: string, rest: string)
    requires PlainKey(key)
    ensures Tokens("\"" + key + "\"" + rest) == Cons(StringLiteral(key), Tokens(rest))
  {
    PlainKeyIsItsText(key);
    LexQuoted(key, rest);
  }

  // ---------------------------------------------------------------- keys are printed as they are

  ghost predicate NoQuote(s: string) {
    forall i | 0 <= i < |s| :: s[i] != '"'
  }

  function Quoted(x: string, y: string): string {
    x + "\"" + y
  }

  lemma QuotedAfter(x: string, y: string, k: nat)
    requires k <= |x|
    ensures Quoted(x, y)[k..] == Quoted(x[k..], y)
  {
  }

  lemma {:induction false} HexStopsAtQuote(x: string, y: string, n: nat, acc: nat)
    requires NoQuote(x)
    ensures HexCode(Quoted(x, y), n, acc).Done? ==> n <= |x| && HexCode(Quoted(x, y), n, acc).rest == Quoted(x[n..], y)
    decreases n
  {
    if n > 0 && x != [] {
      QuotedAfter(x, y, 1);
      if HexValue(x[0]).Some? {
        HexStopsAtQuote(x[1..], y, n - 1, acc * 16 + HexValue(x[0]).value);
        assert n <= |x| ==> x[1..][n - 1..] == x[n..];
      }
    }
  }

  lemma UnicodeStopsAtQuote(x: string, y: string) returns (k: nat)
    requires NoQuote(x) && UnicodeEscape(Quoted(x, y)).Done?
    ensures k <= |x| && UnicodeEscape(Quoted(x, y)).rest == Quoted(x[k..], y)
  {
    HexStopsAtQuote(x, y, 4, 0);
    var high := HexCode(Quoted(x, y), 4, 0);
    k := 4;
    if 0xD800 <= high.value <= 0xDBFF {
      assert |x| >= 6;
      QuotedAfter(x[4..], y, 2);
      assert x[4..][2..] == x[6..];
      HexStopsAtQuote(x[6..], y, 4, 0);
      assert x[6..][4..] == x[10..];
      k := 10;
    }
  }

  /** An escape takes no quotation mark but one right after its backslash. */
  lemma EscapeStopsAtQuote(x: string, y: string) returns (k: nat)
    requires NoQuote(x) && x != [] && Escape(Quoted(x, y)).Done?
    ensures 0 < k <= |x| && Escape(Quoted(x, y)).rest == Quoted(x[k..], y)
  {
    QuotedAfter(x, y, 1);
    k := 1;
    if x[0] == 'u' {
      k := UnicodeStopsAtQuote(x[1..], y);
      assert x[1..][k..] == x[k + 1..];
      k := k + 1;
    }
  }

  /** One character of a string, or one escape: reading goes on at `k`. */
  lemma OneRead(x: string, y: string, j: nat) returns (k: nat)
    requires NoQuote(x) && j < |x| && StringBody(Quoted(x[j..], y)).Done?
    ensures var value := StringBody(Quoted(x[j..], y)).value;
            && value != "" && !IsControl(x[j])
            && if x[j] != '\\' then k == j + 1 && value[0] == x[j] && GoesOn(x, y, k, value[1..])
               else if j + 1 < |x| then j + 1 < k && GoesOn(x, y, k, value[1..])
               else value[0] == '"'
  {
    QuotedAfter(x[j..], y, 1);
    assert x[j..][1..] == x[j + 1..];
    k := j + 1;
    if x[j] == '\\' && j + 1 < |x| {
      var n := EscapeStopsAtQuote(x[j + 1..], y);
      assert x[j + 1..][n..] == x[j + 1 + n..];
      k := j + 1 + n;
    }
  }

  ghost predicate GoesOn(x: string, y: string, k: nat, value: string) {
    k <= |x| && StringBody(Quoted(x[k..], y)).Done? && StringBody(Quoted(x[k..], y)).value == value
  }

  /** Reading that an escape has put ahead of the key stays ahead of it. */
  lemma {:induction false} EscapeIsFelt(key: string, x: string, y: string, i: nat, j: nat)
    requires x <= key && NoQuote(x) && i < j <= |x|
    ensures !GoesOn(x, y, j, key[i..])
    decreases |x| - j
  {
    if GoesOn(x, y, j, key[i..]) && j < |x| {
      var k := OneRead(x, y, j);
      assert key[i..][0] == key[i] == x[i] && key[i..][1..] == key[i + 1..];
      if k <= |x| {
        EscapeIsFelt(key, x, y, i + 1, k);
      }
    }
  }

  lemma {:induction false} ReadAsItself(key: string, x: string, y: string, i: nat)
    requires x <= key && NoQuote(x) && i <= |x| && GoesOn(x, y, i, key[i..])
    ensures PlainKey(key[i..])
    decreases |x| - i
  {
    if i < |x| {
      var k := OneRead(x, y, i);
      assert key[i..][0] == key[i] == x[i] && key[i..][1..] == key[i + 1..];
      if x[i] != '\\' {
        ReadAsItself(key, x, y, i + 1);
        assert key[i..] == [key[i]] + key[i + 1..];
      } else if i + 1 < |x| {
        EscapeIsFelt(key, x, y, i + 1, k);
      }
    }
  }

  /** Keys are printed without escapes: whatever follows, a key is read back as itself exactly if it has
      no quotation mark, backslash or control character. */
  lemma KeyIsReadIff(key: string, rest: string)
    ensures var r := StringBody(key + "\"" + rest); r.Done? && r.value == key <==> PlainKey(key)
  {
    if PlainKey(key) {
      PlainKeyIsItsText(key);
      StringBodyOfText(key, rest);
    }
    if StringBody(key + "\"" + rest).Done? && StringBody(key + "\"" + rest).value == key {
      KeyMustBePlain(key, rest);
    }
  }

  lemma KeyMustBePlain(key: string, rest: string)
    requires StringBody(key + "\"" + rest).Done? && StringBody(key + "\"" + rest).value == key
    ensures PlainKey(key)
  {
    var x, y := UptoQuote(key, rest);
    assert x[0..] == x && key[0..] == key;
    ReadAsItself(key, x, y, 0);
  }

  lemma UptoQuote(key: string, rest: string) returns (x: string, y: string)
    ensures x <= key && NoQuote(x) && Quoted(x, y) == key + "\"" + rest
  {
    var n := FirstQuote(key);
    x := key[..n];
    if n < |key| {
      y := key[n + 1..] + "\"" + rest;
      assert key == x + "\"" + key[n + 1..];
    } else {
      y := rest;
    }
  }

  function FirstQuote(s: string): (n: nat)
    ensures n <= |s| && NoQuote(s[..n]) && (n < |s| ==> s[n] == '"')
  {
    if s == [] || s[0] == '"' then 0 else 1 + FirstQuote(s[1..])
  }

  // ---------------------------------------------------------------- the tokens of a tree

  function ScalarToken(s: Scalar): Token {
    match s
    case Null => Keyword("null")
    case Bool(b) => Keyword(if b then "true" else "false")
    case Int(n) => IntegerLiteral(IntText(n))
    case Long(n) => IntegerLiteral(IntText(n))
    case Float(text) => if Tokens(text).Cons? then Tokens(text).head else FloatLiteral(text)
    case Str(s) => if IsUnquoted(s) then Invalid('>') else StringLiteral(s)
  }

  /** The tokens of a tree do not depend on its indentation. */
  function TreeTokens(v: JSON): seq<Token>
    decreases v
  {
    match v
    case Leaf(s) => [ScalarToken(s)]
    case Array(items) => [Separator('[')] + ItemTokens(items) + [Separator(']')]
    case Object(fields) => [Separator('{')] + RowTokens(fields) + [Separator('}')]
  }

  function CommaIf(more: bool): seq<Token> {
    if more then [Separator(',')] else []
  }

  function RowToken(row: Field<JSON>, more: bool): seq<Token>
    decreases row
  {
    [StringLiteral(row.key), Separator(':')] + TreeTokens(row.value) + CommaIf(more)
  }

  function RowTokens(fields: seq<Field<JSON>>): seq<Token>
    decreases fields
  {
    if fields == [] then [] else RowToken(fields[0], |fields| > 1) + RowTokens(fields[1..])
  }

  function ItemTokens(items: seq<JSON>): seq<Token>
    decreases items
  {
    if items == [] then [] else TreeTokens(items[0]) + CommaIf(|items| > 1) + ItemTokens(items[1..])
  }

  // ---------------------------------------------------------------- faults

  /** A stream that no document has: it ends in an exception, or an invalid token is followed by
      something other than a separator. (An invalid token alone can pass as a value.) */
  ghost predicate Faulty(ts: TokenStream) {
    match ts
    case Exception => true
    case EndOfText => false
    case Cons(head, tail) => Faulty(tail) || (head.Invalid? && !(tail.Cons? && tail.head.Separator?))
  }

  lemma {:induction false} FaultyPush(ts: seq<Token>, tail: TokenStream)
    requires Faulty(tail)
    ensures Faulty(Push(ts, tail))
  {
    if ts != [] {
      FaultyPush(ts[1..], tail);
    }
  }

  lemma LexInvalid(c: char, rest: string)
    requires !IsSpace(c) && !IsSeparator(c) && !IsAlpha(c) && !IsDigit(c) && c != '\'' && c != '"' && c != '-'
    ensures Tokens([c] + rest) == Cons(Invalid(c), Tokens(rest))
  {
    var s := [c] + rest;
    assert s[1..] == rest;
    assert NextToken(s) == TokenAt(s) == Lexed(Invalid(c), rest);
  }

  /** A NUL byte is printed as it is, and the lexer refuses it. */
  lemma {:induction false} NulIsRefused(s: string, rest: string)
    requires '\0' in s
    ensures StringBody(EscapeText(s) + rest) == Throw
  {
    var tail := EscapeText(s[1..]) + rest;
    assert EscapeText(s) + rest == EscapeChar(s[0]) + tail;
    if s[0] == '\0' {
      assert (EscapeChar(s[0]) + tail)[0] == '\0';
    } else {
      NulIsRefused(s[1..], rest);
      StringBodyOfChar(s[0], tail);
    }
  }

  lemma LexNul(s: string, rest: string)
    requires '\0' in s
    ensures Tokens("\"" + EscapeText(s) + "\"" + rest) == Exception
  {
    var text := "\"" + EscapeText(s) + "\"" + rest;
    assert text[1..] == EscapeText(s) + ("\"" + rest);
    NulIsRefused(s, "\"" + rest);
    assert NextToken(text) == TokenAt(text) == LexThrow;
  }

  /** Characters that a number token can take. */
  predicate IsNumberChar(c: char) {
    IsDigit(c) || c == '.' || c == 'e' || c == 'E' || c == '+' || c == '-'
  }

  /** A number token takes a prefix of its characters: it ends before `stop`. */
  lemma {:induction false} NumberTailStops(cls: NumberClass, p: string, stop: string)
    requires stop != [] && !IsNumberChar(stop[0])
    ensures var r := NumberTail(cls, p + stop);
            r.Done? ==> exists k | 0 <= k <= |p| :: r.rest == p[k..] + stop
    decreases |p|
  {
    var s := p + stop;
    if p == [] {
      assert s == stop && p[0..] + stop == stop;
    } else {
      var k := if IsDigit(s[0]) then 1
               else if s[0] == '.' && DigitFirst(s[1..]) then 2
               else if (s[0] == 'e' || s[0] == 'E') && DigitFirst(s[SignLength(s)..]) then SignLength(s) + 1
               else 0;
      if k == 0 {
        assert s == p[0..] + stop;
      } else {
        assert k <= |p| by {
          assert forall i | 0 <= i < k :: IsNumberChar(s[i]);
          assert s[|p|] == stop[0];
        }
        assert s[k..] == p[k..] + stop;
        var cls' := if k == 1 then cls else if s[0] == '.' then FloatClass else DoubleClass;
        NumberTailStops(cls', p[k..], stop);
        if NumberTail(cls', s[k..]).Done? {
          var j :| 0 <= j <= |p[k..]| && NumberTail(cls', s[k..]).rest == p[k..][j..] + stop;
          assert p[k..][j..] == p[k + j..];
        }
      }
    }
  }

  lemma BareNumberStops(p: string, stop: string)
    requires p != [] && stop != [] && !IsNumberChar(stop[0])
    requires StartNumber(p[0], p[1..] + stop).Started?
    ensures var start := StartNumber(p[0], p[1..] + stop);
            var r := NumberTail(IntegerClass, start.rest);
            r.Done? ==> exists k | 0 < k <= |p| :: r.rest == p[k..] + stop
  {
    var start := StartNumber(p[0], p[1..] + stop);
    var n := |start.text|;
    assert n <= |p| && start.rest == p[n..] + stop by {
      if n == 2 {
        assert |p| > 1;
        assert (p[1..] + stop)[1..] == p[2..] + stop;
      }
    }
    NumberTailStops(IntegerClass, p[n..], stop);
    if NumberTail(IntegerClass, start.rest).Done? {
      var j :| 0 <= j <= |p[n..]| && NumberTail(IntegerClass, start.rest).rest == p[n..][j..] + stop;
      assert p[n..][j..] == p[n + j..];
    }
  }

  /** The token at the start of bare text ends within it. */
  lemma BareTokenStops(p: string, stop: string)
    requires p != [] && IsBare(p[0]) && !IsSpace(p[0])
    requires stop != [] && !IsNumberChar(stop[0]) && !IsAlpha(stop[0])
    ensures match NextToken(p + stop)
            case AtEnd => false
            case LexThrow => true
            case Lexed(_, rest) => exists k | 0 < k <= |p| :: rest == p[k..] + stop
  {
    var s := p + stop;
    assert s[0] == p[0] && s[1..] == p[1..] + stop;
    assert NextToken(s) == TokenAt(s);
    var start := StartNumber(p[0], p[1..] + stop);
    if start.Started? {
      BareNumberStops(p, stop);
    } else if IsAlpha(p[0]) {
      AlphaLengthStops(p, stop);
      assert s[AlphaLength(s)..] == p[AlphaLength(s)..] + stop;
    }
  }

  lemma {:induction false} AlphaLengthStops(p: string, stop: string)
    requires stop != [] && !IsAlpha(stop[0])
    ensures AlphaLength(p + stop) <= |p|
  {
    if p == [] {
      assert p + stop == stop;
    } else {
      assert (p + stop)[1..] == p[1..] + stop;
      AlphaLengthStops(p[1..], stop);
    }
  }

  /** Bare text before a fault is faulty. */
  lemma {:induction false} BareThenFault(p: string, stop: string)
    requires forall i | 0 <= i < |p| :: IsBare(p[i])
    requires stop != [] && !IsNumberChar(stop[0]) && !IsAlpha(stop[0])
    requires Faulty(Tokens(stop))
    ensures Faulty(Tokens(p + stop))
    decreases |p|
  {
    if p == [] {
      assert p + stop == stop;
    } else if IsSpace(p[0]) {
      BareThenFault(p[1..], stop);
      LexSpace(p[0], p[1..] + stop);
      assert p + stop == [p[0]] + (p[1..] + stop);
    } else {
      BareTokenStops(p, stop);
      match NextToken(p + stop) {
        case LexThrow =>
        case Lexed(_, rest) =>
          var k :| 0 < k <= |p| && rest == p[k..] + stop;
          BareThenFault(p[k..], stop);
      }
    }
  }

  /** A backslash outside a string is an invalid token, and what the printer writes after it never
      begins with a separator. */
  lemma EscapeIsFault(c: char, rest: string)
    requires !IsBare(c)
    ensures Faulty(Tokens(['\\'] + (EscapeCode(c) + rest)))
  {
    var tail := EscapeCode(c) + rest;
    LexInvalid('\\', tail);
    assert tail[0] == EscapeCode(c)[0];
    assert NextToken(tail) == TokenAt(tail);
    assert !IsSpace(tail[0]) && !IsSeparator(tail[0]);
    NoSeparatorHere(tail);
  }

  lemma NoSeparatorHere(s: string)
    requires s != [] && !IsSpace(s[0]) && !IsSeparator(s[0])
    ensures Tokens(s).Cons? ==> !Tokens(s).head.Separator?
  {
    assert NextToken(s) == TokenAt(s);
  }

  /** The number of characters before the first that the printer escapes. */
  function BareLength(s: string): (n: nat)
    ensures n <= |s|
    ensures forall i | 0 <= i < n :: IsBare(s[i])
    ensures n < |s| ==> !IsBare(s[n])
  {
    if s == [] || !IsBare(s[0]) then 0 else 1 + BareLength(s[1..])
  }

  lemma {:induction false} TranslateConcat(f: char -> string, a: string, b: string)
    ensures Translate(f, a + b) == Translate(f, a) + Translate(f, b)
  {
    if a == [] {
      assert a + b == b;
    } else {
      var head, x, y := f(a[0]), Translate(f, a[1..]), Translate(f, b);
      TranslateConcat(f, a[1..], b);
      assert (a + b)[0] == a[0] && (a + b)[1..] == a[1..] + b;
      Assoc(head, x, y);
    }
  }

  lemma TranslateOne(f: char -> string, c: char, tail: string)
    ensures Translate(f, [c] + tail) == f(c) + Translate(f, tail)
  {
    assert ([c] + tail)[1..] == tail;
  }

  lemma {:induction false} EscapeTextOfBare(p: string)
    requires forall i | 0 <= i < |p| :: IsBare(p[i])
    ensures EscapeText(p) == p
  {
    if p != [] {
      EscapeTextOfBare(p[1..]);
      assert p == [p[0]] + p[1..];
    }
  }

  lemma UnquotedShape(s: string)
    requires IsUnquoted(s)
    ensures |s| >= 4 || s == "<%>"
    ensures s[|s| - 2] == '%' && s[|s| - 1] == '>'
  {
    assert s[0] == s[..2][0] && s[1] == s[..2][1];
    assert s[|s| - 2] == s[|s| - 2..][0] && s[|s| - 1] == s[|s| - 2..][1];
    if |s| == 3 {
      assert s == ['<', '%', '>'];
    }
  }

  /** Text without quotes has a fault at its first escape. */
  lemma FirstEscapeIsFault(p: string, c: char, tail: string, rest: string)
    requires (forall i | 0 <= i < |p| :: IsBare(p[i])) && !IsBare(c)
    ensures Faulty(Tokens(EscapeText(p + ([c] + tail)) + rest))
  {
    var after := EscapeText(tail) + rest;
    EscapeIsFault(c, after);
    BareThenFault(p, ['\\'] + (EscapeCode(c) + after));
    TranslateConcat(EscapeChar, p, [c] + tail);
    EscapeTextOfBare(p);
    TranslateOne(EscapeChar, c, tail);
    Regrouped(p, ['\\'], EscapeCode(c), EscapeText(tail), rest);
  }

  lemma Regrouped(p: string, a: string, b: string, c: string, d: string)
    ensures p + (a + b + c) + d == p + (a + (b + (c + d)))
  {
  }

  /** Text without quotes and without escapes has a fault at a `%>` at its end. */
  lemma ClosingMarkIsFault(p: string, rest: string)
    requires forall i | 0 <= i < |p| :: IsBare(p[i])
    ensures Faulty(Tokens(EscapeText(p + "%>") + rest))
  {
    LexInvalid('>', rest);
    LexInvalid('%', ['>'] + rest);
    BareThenFault(p, ['%'] + (['>'] + rest));
    EscapeTextOfBare(p + "%>");
    assert EscapeText(p + "%>") + rest == p + (['%'] + (['>'] + rest));
  }

  /** Printing without quotes leaves `%>` behind, so the text has a fault. */
  lemma UnquotedIsFault(s: string, rest: string)
    requires IsUnquoted(s) && s != "<%>"
    ensures Faulty(Tokens(EscapeText(s[2..]) + rest))
  {
    UnquotedShape(s);
    var body := s[2..];
    var n := BareLength(body);
    if n < |body| {
      FirstEscapeIsFault(body[..n], body[n], body[n + 1..], rest);
      assert body == body[..n] + ([body[n]] + body[n + 1..]);
    } else {
      ClosingMarkIsFault(body[..|body| - 2], rest);
      assert body == body[..|body| - 2] + "%>";
    }
  }

  // ---------------------------------------------------------------- lexing a printed tree

  /** The one string whose unquoted form is a single invalid token, which the parser passes over. */
  const TINY := "<%>"

  /** Every string value is printed between quotes and has no NUL byte, or is `<%>`. */
  ghost predicate Lexes(v: JSON) {
    match v
    case Leaf(s) => s.Str? ==> Faithful(s.s) || s.s == TINY
    case Array(items) => forall i | 0 <= i < |items| :: Lexes(items[i])
    case Object(fields) => forall i | 0 <= i < |fields| :: Lexes(fields[i].value)
  }

  /** The text lexes to the given tokens, or it has a fault. */
  ghost predicate LexesTo(text: string, good: bool, ts: seq<Token>, rest: string) {
    if good then Tokens(text + rest) == Push(ts, Tokens(rest)) else Faulty(Tokens(text + rest))
  }

  lemma LexScalar(s: Scalar, rest: string)
    requires PrintableScalar(s) && Delimited(rest)
    ensures LexesTo(ScalarText(s), Lexes(Leaf(s)), [ScalarToken(s)], rest)
  {
    assert Push([ScalarToken(s)], Tokens(rest)) == Cons(ScalarToken(s), Tokens(rest));
    match s {
      case Null => LexKeyword("null", rest);
      case Bool(b) => LexKeyword(if b then "true" else "false", rest);
      case Int(n) => LexInteger(n, rest);
      case Long(n) => LexInteger(n, rest);
      case Str(v) => LexString(v, rest);
      case Float(text) => LexFloat(text, rest);
    }
  }

  lemma LexFloat(text: string, rest: string)
    requires IsFloatText(text) && Delimited(rest)
    ensures var t := ScalarToken(Float(text)); t == FloatLiteral(text) || t == DoubleLiteral(text)
    ensures Tokens(text + rest) == Cons(ScalarToken(Float(text)), Tokens(rest))
  {
    var minus, whole, gs :| IsFloat(text, minus, whole, gs);
    NumberIsRead(minus, whole, gs, rest);
    NumberIsRead(minus, whole, gs, "");
    assert text + "" == text;
    SegmentsHaveClass(IntegerClass, gs);
  }

  lemma {:induction false} SegmentsHaveClass(cls: NumberClass, gs: seq<Segment>)
    requires gs != []
    ensures LastClass(cls, gs) == FloatClass || LastClass(cls, gs) == DoubleClass
    decreases |gs|
  {
    if |gs| > 1 {
      SegmentsHaveClass(ClassAfter(gs[0]), gs[1..]);
    } else {
      assert gs[1..] == [];
    }
  }

  lemma LexString(v: string, rest: string)
    ensures if Faithful(v) then Tokens(StringText(v) + rest) == Cons(StringLiteral(v), Tokens(rest))
            else if v == TINY then Tokens(StringText(v) + rest) == Cons(Invalid('>'), Tokens(rest))
            else Faulty(Tokens(StringText(v) + rest))
  {
    if v == TINY {
      assert v[2..] == ">";
      EscapeTextOfBare(">");
      LexInvalid('>', rest);
    } else if IsUnquoted(v) {
      UnquotedIsFault(v, rest);
    } else if '\0' in v {
      LexNul(v, rest);
    } else {
      LexQuoted(v, rest);
    }
  }

  /** Pieces of text in a row. */
  lemma LexesInTurn(a: string, goodA: bool, ta: seq<Token>, b: string, goodB: bool, tb: seq<Token>, rest: string)
    requires LexesTo(a, goodA, ta, b + rest)
    requires goodA ==> LexesTo(b, goodB, tb, rest)
    ensures LexesTo(a + b, goodA && goodB, ta + tb, rest)
  {
    assert a + b + rest == a + (b + rest);
    if goodA {
      PushConcat(ta, tb, Tokens(rest));
      if !goodB {
        FaultyPush(ta, Tokens(b + rest));
      }
    }
  }

  lemma LexRowHead(key: string, indent: nat, rest: string)
    requires PlainKey(key)
    ensures LexesTo(RowHead(key, indent), true, [StringLiteral(key), Separator(':')], rest)
  {
    var colon := Colon(indent);
    LexSeparator(':', (if indent > 0 then " " else "") + rest);
    LexBlank(if indent > 0 then " " else "", rest);
    var after := [':'] + ((if indent > 0 then " " else "") + rest);
    assert Tokens(colon + rest) == Cons(Separator(':'), Tokens(rest)) by {
      LexBlank(if indent > 0 then " " else "", after);
      assert colon + rest == (if indent > 0 then " " else "") + after;
    }
    LexKey(key, colon + rest);
    var quoted := "\"" + key + "\"" + (colon + rest);
    LexBlank(Spaces(indent), quoted);
    assert RowHead(key, indent) + rest == Spaces(indent) + quoted;
    var ts := [StringLiteral(key), Separator(':')];
    assert Push(ts, Tokens(rest)) == Cons(ts[0], Cons(ts[1], Push(ts[1..][1..], Tokens(rest))));
  }

  lemma LexCommaIf(more: bool, blank: string, rest: string)
    requires AllSpace(blank)
    ensures LexesTo((if more then "," else "") + blank, true, CommaIf(more), rest)
  {
    LexBlank(blank, rest);
    if more {
      LexSeparator(',', blank + rest);
      assert "," + blank + rest == [','] + (blank + rest);
      assert Push(CommaIf(true), Tokens(rest)) == Cons(Separator(','), Push([], Tokens(rest)));
    } else {
      assert "" + blank + rest == blank + rest;
    }
  }

  lemma LexesBlank(blank: string, rest: string)
    requires AllSpace(blank)
    ensures LexesTo(blank, true, [], rest)
  {
    LexBlank(blank, rest);
  }

  lemma LexesSeparator(c: char, rest: string)
    requires IsSeparator(c)
    ensures LexesTo([c], true, [Separator(c)], rest)
  {
    LexSeparator(c, rest);
    assert Push([Separator(c)], Tokens(rest)) == Cons(Separator(c), Push([], Tokens(rest)));
  }

  ghost predicate PrintableRows(fields: seq<Field<JSON>>) {
    forall i | 0 <= i < |fields| :: PlainKey(fields[i].key) && Printable(fields[i].value)
  }

  ghost predicate LexesRows(fields: seq<Field<JSON>>) {
    forall i | 0 <= i < |fields| :: Lexes(fields[i].value)
  }

  ghost predicate PrintableItems(items: seq<JSON>) {
    forall i | 0 <= i < |items| :: Printable(items[i])
  }

  ghost predicate LexesItems(items: seq<JSON>) {
    forall i | 0 <= i < |items| :: Lexes(items[i])
  }

  lemma {:induction false} LexTree(v: JSON, indent: nat, rest: string)
    requires Printable(v) && Delimited(rest)
    ensures LexesTo(Print(v, indent), Lexes(v), TreeTokens(v), rest)
    decreases v, 1
  {
    if v.Leaf? {
      LexScalar(v.scalar, rest);
    } else {
      LexContainer(v, Inner(indent), rest);
    }
  }

  /** At every indentation but 1, a container lexes to its tokens, or it has a fault. */
  lemma {:induction false} LexContainer(v: JSON, indent: nat, rest: string)
    requires Printable(v) && !v.Leaf? && indent != 1
    ensures LexesTo(PrintContainer(v, indent), Lexes(v), TreeTokens(v), rest)
    decreases v, 0
  {
    var nl, spaces := NewLine(indent), Spaces(Outdent(indent));
    match v {
      case Object(fields) =>
        LexRows(fields, indent, spaces + ("}" + rest));
        LexBrackets('{', nl, PrintRows(fields, indent), LexesRows(fields), RowTokens(fields), spaces, '}', rest);
      case Array(items) =>
        var inner := PrintItems(items, indent);
        LexItems(items, indent, nl + (spaces + ("]" + rest)));
        assert nl + (spaces + ("]" + rest)) == nl + spaces + ("]" + rest);
        LexBrackets('[', nl, inner, LexesItems(items), ItemTokens(items), nl + spaces, ']', rest);
        assert "[" + nl + inner + nl + spaces + "]" == "[" + nl + inner + (nl + spaces) + "]";
    }
  }

  lemma LexBrackets(open: char, nl: string, inner: string, good: bool, ts: seq<Token>, blank: string, close: char,
                    rest: string)
    requires IsSeparator(open) && IsSeparator(close) && AllSpace(nl) && AllSpace(blank)
    requires LexesTo(inner, good, ts, blank + ([close] + rest))
    ensures LexesTo([open] + nl + inner + blank + [close], good, [Separator(open)] + ts + [Separator(close)], rest)
  {
    LexesSeparator(close, rest);
    LexesBlank(blank, [close] + rest);
    LexesSeparator(open, nl + (inner + (blank + ([close] + rest))));
    LexesBlank(nl, inner + (blank + ([close] + rest)));
    LexesInTurn([open], true, [Separator(open)], nl, true, [], inner + (blank + ([close] + rest)));
    assert [Separator(open)] + [] == [Separator(open)];
    LexesInTurn([open] + nl, true, [Separator(open)], inner, good, ts, blank + ([close] + rest));
    LexesInTurn([open] + nl + inner, good, [Separator(open)] + ts, blank, true, [], [close] + rest);
    assert [Separator(open)] + ts + [] == [Separator(open)] + ts;
    LexesInTurn([open] + nl + inner + blank, good, [Separator(open)] + ts, [close], true, [Separator(close)], rest);
  }

  lemma {:induction false} LexRows(fields: seq<Field<JSON>>, indent: nat, rest: string)
    requires PrintableRows(fields) && Delimited(rest)
    ensures LexesTo(PrintRows(fields, indent), LexesRows(fields), RowTokens(fields), rest)
    decreases fields
  {
    if fields == [] {
      LexesBlank("", rest);
    } else {
      var more, tail, good := |fields| > 1, PrintRows(fields[1..], indent), LexesRows(fields[1..]);
      LexRows(fields[1..], indent, rest);
      LexRow(fields[0], more, indent, tail + rest);
      LexesInTurn(PrintRow(fields[0], more, indent), Lexes(fields[0].value), RowToken(fields[0], more),
                  tail, good, RowTokens(fields[1..]), rest);
      assert LexesRows(fields) <==> Lexes(fields[0].value) && good by {
        assert fields == [fields[0]] + fields[1..];
      }
    }
  }

  lemma {:induction false} LexRow(row: Field<JSON>, more: bool, indent: nat, rest: string)
    requires PlainKey(row.key) && Printable(row.value) && (!more ==> Delimited(rest))
    ensures LexesTo(PrintRow(row, more, indent), Lexes(row.value), RowToken(row, more), rest)
    decreases row
  {
    var head, value, end := RowHead(row.key, indent), Print(row.value, indent), RowEnd(more, indent);
    LexCommaIf(more, NewLine(indent), rest);
    assert more ==> (end + rest)[0] == ',';
    assert !more && indent > 0 ==> (end + rest)[0] == '\n';
    assert !more && indent == 0 ==> end + rest == rest;
    LexTree(row.value, indent, end + rest);
    LexRowHead(row.key, indent, value + (end + rest));
    var ts := [StringLiteral(row.key), Separator(':')];
    LexesInTurn(head, true, ts, value, Lexes(row.value), TreeTokens(row.value), end + rest);
    LexesInTurn(head + value, Lexes(row.value), ts + TreeTokens(row.value), end, true, CommaIf(more), rest);
  }

  lemma {:induction false} LexItems(items: seq<JSON>, indent: nat, rest: string)
    requires PrintableItems(items) && Delimited(rest)
    ensures LexesTo(PrintItems(items, indent), LexesItems(items), ItemTokens(items), rest)
    decreases items
  {
    if items == [] {
      LexesBlank("", rest);
    } else {
      var more, tail, good := |items| > 1, PrintItems(items[1..], indent), LexesItems(items[1..]);
      LexItems(items[1..], indent, rest);
      LexItem(items[0], more, indent, tail + rest);
      LexesInTurn(PrintItem(items[0], more, indent), Lexes(items[0]), TreeTokens(items[0]) + CommaIf(more),
                  tail, good, ItemTokens(items[1..]), rest);
      assert LexesItems(items) <==> Lexes(items[0]) && good by {
        assert items == [items[0]] + items[1..];
      }
    }
  }

  lemma {:induction false} LexItem(item: JSON, more: bool, indent: nat, rest: string)
    requires Printable(item) && (!more ==> Delimited(rest))
    ensures LexesTo(PrintItem(item, more, indent), Lexes(item), TreeTokens(item) + CommaIf(more), rest)
    decreases item, 2
  {
    var spaces, value, end := Spaces(indent), Print(item, indent), ItemEnd(more, indent);
    LexCommaIf(more, if more then NewLine(indent) else "", rest);
    assert end == (if more then "," else "") + (if more then NewLine(indent) else "");
    assert more ==> (end + rest)[0] == ',';
    assert !more ==> end + rest == rest;
    LexTree(item, indent, end + rest);
    LexesBlank(spaces, value + (end + rest));
    LexesInTurn(spaces, true, [], value, Lexes(item), TreeTokens(item), end + rest);
    assert [] + TreeTokens(item) == TreeTokens(item);
    LexesInTurn(spaces + value, Lexes(item), TreeTokens(item), end, true, CommaIf(more), rest);
  }

  // ---------------------------------------------------------------- reading the tokens of a tree

  /** What is read back from the tokens of a tree: a value that prints as `>` is passed over. */
  function Kept(v: JSON): Option<JSON> {
    match v
    case Leaf(s) => if s == Str(TINY) then None else Some(Leaf(Reheld(s)))
    case Array(items) => Some(Array(KeptItems(items)))
    case Object(fields) => Some(Object(KeptFields(fields)))
  }

  function KeptItems(items: seq<JSON>): seq<JSON> {
    if items == [] then []
    else (match Kept(items[0]) case None => [] case Some(v) => [v]) + KeptItems(items[1..])
  }

  function KeptFields(fields: seq<Field<JSON>>): seq<Field<JSON>> {
    if fields == [] then []
    else
      (match Kept(fields[0].value) case None => [] case Some(v) => [Field(fields[0].key, v)])
      + KeptFields(fields[1..])
  }

  lemma ReadScalar(s: Scalar)
    requires PrintableScalar(s) && Lexes(Leaf(s)) && s != Str(TINY)
    ensures ScalarOf(ScalarToken(s)) == Some(Reheld(s)) && !Ignored(ScalarToken(s)) && !ScalarToken(s).Separator?
  {
    if s.Float? {
      LexFloat(s.text, "");
    }
    if s.Int? || s.Long? {
      var text := IntText(s.n);
      IntTextIsCanonical(s.n);
      assert IsSignedDigits(text) by {
        var d := if text[0] == '-' then text[1..] else text;
        forall i | 0 <= i < |text| ensures IsDigit(text[i]) || (i == 0 && text[i] == '-') {
          if text[0] != '-' {
            assert text[i] in d;
          } else if i > 0 {
            assert text[i] == d[i - 1] && d[i - 1] in d;
          }
        }
      }
    }
  }

  lemma PushOne(t: Token, ts: TokenStream)
    ensures Push([t], ts) == Cons(t, ts)
  {
    assert [t][1..] == [];
  }

  lemma {:induction false} ReadTree(v: JSON, ts: TokenStream)
    requires Printable(v) && Lexes(v)
    ensures ReadValue(Push(TreeTokens(v), ts)) == Read(Kept(v), ts)
    decreases v, 0
  {
    var all := Push(TreeTokens(v), ts);
    match v {
      case Leaf(s) =>
        PushOne(ScalarToken(s), ts);
        if s != Str(TINY) {
          ReadScalar(s);
        }
      case Array(items) =>
        var inner := ItemTokens(items) + [Separator(']')];
        assert TreeTokens(v) == [Separator('[')] + inner;
        PushConcat([Separator('[')], inner, ts);
        assert all == Cons(Separator('['), Push(inner, ts));
        ReadTreeItems(items, true, [], ts);
        assert [] + KeptItems(items) == KeptItems(items);
      case Object(fields) =>
        var inner := RowTokens(fields) + [Separator('}')];
        assert TreeTokens(v) == [Separator('{')] + inner;
        PushConcat([Separator('{')], inner, ts);
        assert all == Cons(Separator('{'), Push(inner, ts));
        ReadTreeRows(fields, true, [], ts);
        assert [] + KeptFields(fields) == KeptFields(fields);
    }
  }

  ghost predicate Before(acc: seq<Field<JSON>>, fields: seq<Field<JSON>>) {
    forall i, j | 0 <= i < |acc| && 0 <= j < |fields| :: Less(acc[i].key, fields[j].key)
  }

  lemma StillBefore(acc: seq<Field<JSON>>, fields: seq<Field<JSON>>, value: JSON)
    requires Sorted(fields) && fields != [] && Before(acc, fields)
    ensures Before(acc, fields[1..]) && Before(acc + [Field(fields[0].key, value)], fields[1..])
    ensures Insert(acc, fields[0].key, value) == acc + [Field(fields[0].key, value)]
  {
    assert forall i | 0 <= i < |acc| :: Less(acc[i].key, fields[0].key);
    InsertLast(acc, fields[0].key, value);
  }

  /** Rows arrive in key order, so every row that is kept goes to the end. */
  lemma {:induction false} ReadTreeRows(fields: seq<Field<JSON>>, first: bool, acc: seq<Field<JSON>>, ts: TokenStream)
    requires PrintableRows(fields) && LexesRows(fields) && Sorted(fields) && (fields == [] ==> first)
    requires Before(acc, fields)
    ensures ReadRows(Push(RowTokens(fields) + [Separator('}')], ts), first, acc) == Rows(acc + KeptFields(fields), ts)
    decreases fields, 1
  {
    if fields == [] {
      assert RowTokens(fields) + [Separator('}')] == [Separator('}')];
      assert Push([Separator('}')], ts) == Cons(Separator('}'), Push([], ts));
      assert acc + [] == acc;
      return;
    }
    RowsAfter(fields);
    var row, more := fields[0], |fields| > 1;
    var after := if more then Cons(Separator(','), Push(RowTokens(fields[1..]) + [Separator('}')], ts))
                 else Cons(Separator('}'), ts);
    PushRow(fields, ts);
    ReadTree(row.value, after);
    var kept := Kept(row.value);
    StillBefore(acc, fields, if kept.Some? then kept.value else row.value);
    RowsStep(row.key, Push(TreeTokens(row.value), after), first, acc);
    var acc' := if kept.Some? then acc + [Field(row.key, kept.value)] else acc;
    KeptFieldsStep(fields, acc);
    if more {
      ReadTreeRows(fields[1..], false, acc', ts);
    }
  }

  lemma RowsAfter(fields: seq<Field<JSON>>)
    requires PrintableRows(fields) && LexesRows(fields) && Sorted(fields) && fields != []
    ensures Printable(fields[0].value) && Lexes(fields[0].value)
    ensures PrintableRows(fields[1..]) && LexesRows(fields[1..]) && Sorted(fields[1..])
  {
  }

  lemma KeptFieldsStep(fields: seq<Field<JSON>>, acc: seq<Field<JSON>>)
    requires fields != []
    ensures var kept := Kept(fields[0].value);
            var acc' := if kept.Some? then acc + [Field(fields[0].key, kept.value)] else acc;
            acc' + KeptFields(fields[1..]) == acc + KeptFields(fields)
  {
  }

  lemma KeptItemsStep(items: seq<JSON>, acc: seq<JSON>)
    requires items != []
    ensures var acc' := if Kept(items[0]).Some? then acc + [Kept(items[0]).value] else acc;
            acc' + KeptItems(items[1..]) == acc + KeptItems(items)
  {
  }

  /** One turn of `ReadRows`, after a key and a colon. */
  lemma RowsStep(key: string, ts: TokenStream, first: bool, acc: seq<Field<JSON>>)
    requires ReadValue(ts).Read? && ReadValue(ts).rest.Cons?
    ensures var r := ReadValue(ts);
            var acc' := if r.value.Some? then Insert(acc, key, r.value.value) else acc;
            var all := ReadRows(Cons(StringLiteral(key), Cons(Separator(':'), ts)), first, acc);
            && (r.rest.head == Separator('}') ==> all == Rows(acc', r.rest.tail))
            && (r.rest.head == Separator(',') ==> all == ReadRows(r.rest.tail, false, acc'))
  {
  }

  /** One turn of `ReadElements`. */
  lemma ElementsStep(ts: TokenStream, first: bool, acc: seq<JSON>)
    requires ReadValue(ts).Read? && ReadValue(ts).rest.Cons? && ts.head != Separator(']')
    ensures var r := ReadValue(ts);
            var acc' := if r.value.Some? then acc + [r.value.value] else acc;
            && (r.rest.head == Separator(']') ==> ReadElements(ts, first, acc) == Elements(acc', r.rest.tail))
            && (r.rest.head == Separator(',')
                ==> ReadElements(ts, first, acc) == ReadElements(r.rest.tail, false, acc'))
  {
  }

  lemma PushRow(fields: seq<Field<JSON>>, ts: TokenStream)
    requires fields != []
    ensures var tail := RowTokens(fields[1..]) + [Separator('}')];
            var after := if |fields| > 1 then Cons(Separator(','), Push(tail, ts)) else Cons(Separator('}'), ts);
            Push(RowTokens(fields) + [Separator('}')], ts)
            == Cons(StringLiteral(fields[0].key), Cons(Separator(':'), Push(TreeTokens(fields[0].value), after)))
  {
    var row, tail := fields[0], RowTokens(fields[1..]) + [Separator('}')];
    var head := [StringLiteral(row.key), Separator(':')];
    var end := CommaIf(|fields| > 1) + tail;
    assert RowTokens(fields) + [Separator('}')] == head + (TreeTokens(row.value) + end);
    PushConcat(head, TreeTokens(row.value) + end, ts);
    PushConcat(TreeTokens(row.value), end, ts);
    PushTwo(head, Push(TreeTokens(row.value), Push(end, ts)));
    PushEnd(|fields| > 1, tail, Separator('}'), ts);
  }

  lemma PushTwo(head: seq<Token>, ts: TokenStream)
    requires |head| == 2
    ensures Push(head, ts) == Cons(head[0], Cons(head[1], ts))
  {
    assert Push(head[1..], ts) == Cons(head[1], Push(head[1..][1..], ts));
  }

  lemma PushEnd(more: bool, tail: seq<Token>, close: Token, ts: TokenStream)
    requires !more ==> tail == [close]
    ensures Push(CommaIf(more) + tail, ts) == if more then Cons(Separator(','), Push(tail, ts)) else Cons(close, ts)
  {
    PushConcat(CommaIf(more), tail, ts);
    if more {
      assert Push([Separator(',')], Push(tail, ts)) == Cons(Separator(','), Push([], Push(tail, ts)));
    } else {
      assert Push([close], ts) == Cons(close, Push([], ts));
    }
  }

  lemma PushItem(items: seq<JSON>, ts: TokenStream)
    requires items != []
    ensures var tail := ItemTokens(items[1..]) + [Separator(']')];
            var after := if |items| > 1 then Cons(Separator(','), Push(tail, ts)) else Cons(Separator(']'), ts);
            Push(ItemTokens(items) + [Separator(']')], ts) == Push(TreeTokens(items[0]), after)
  {
    var tail := ItemTokens(items[1..]) + [Separator(']')];
    var end := CommaIf(|items| > 1) + tail;
    assert ItemTokens(items) + [Separator(']')] == TreeTokens(items[0]) + end;
    PushConcat(TreeTokens(items[0]), end, ts);
    PushEnd(|items| > 1, tail, Separator(']'), ts);
  }

  lemma {:induction false} ReadTreeItems(items: seq<JSON>, first: bool, acc: seq<JSON>, ts: TokenStream)
    requires PrintableItems(items) && LexesItems(items) && (items == [] ==> first)
    ensures ReadElements(Push(ItemTokens(items) + [Separator(']')], ts), first, acc)
            == Elements(acc + KeptItems(items), ts)
    decreases items, 1
  {
    if items == [] {
      assert ItemTokens(items) + [Separator(']')] == [Separator(']')];
      assert Push([Separator(']')], ts) == Cons(Separator(']'), Push([], ts));
      assert acc + [] == acc;
      return;
    }
    var item, more := items[0], |items| > 1;
    var after := if more then Cons(Separator(','), Push(ItemTokens(items[1..]) + [Separator(']')], ts))
                 else Cons(Separator(']'), ts);
    PushItem(items, ts);
    ReadTree(item, after);
    TreeTokensHead(item, after);
    ElementsStep(Push(TreeTokens(item), after), first, acc);
    var acc' := if Kept(item).Some? then acc + [Kept(item).value] else acc;
    KeptItemsStep(items, acc);
    if more {
      ReadTreeItems(items[1..], false, acc', ts);
    }
  }

  /** No value begins with a closing bracket. */
  lemma TreeTokensHead(v: JSON, ts: TokenStream)
    requires Printable(v)
    ensures Push(TreeTokens(v), ts).Cons?
    ensures Push(TreeTokens(v), ts).head != Separator(']')
  {
    if v.Leaf? && v.scalar.Float? {
      LexFloat(v.scalar.text, "");
    }
  }

  // ---------------------------------------------------------------- what is kept

  /** A tree whose strings are all faithful is read back whole. */
  lemma {:induction false} KeptIsNormal(v: JSON)
    requires AllFaithful(v)
    ensures Kept(v) == Some(Normal(v))
    decreases v
  {
    match v {
      case Leaf(s) =>
      case Array(items) => KeptItemsAreNormal(items);
      case Object(fields) => KeptFieldsAreNormal(fields);
    }
  }

  lemma {:induction false} KeptItemsAreNormal(items: seq<JSON>)
    requires forall i | 0 <= i < |items| :: AllFaithful(items[i])
    ensures KeptItems(items) == NormalItems(items)
    decreases items
  {
    if items != [] {
      KeptIsNormal(items[0]);
      KeptItemsAreNormal(items[1..]);
    }
  }

  lemma {:induction false} KeptFieldsAreNormal(fields: seq<Field<JSON>>)
    requires forall i | 0 <= i < |fields| :: AllFaithful(fields[i].value)
    ensures KeptFields(fields) == NormalFields(fields)
    decreases fields
  {
    if fields != [] {
      KeptIsNormal(fields[0].value);
      KeptFieldsAreNormal(fields[1..]);
    }
  }

  /** Reading a value does not get rid of a fault. */
  lemma {:induction false} ValueKeepsFault(ts: TokenStream)
    requires ReadValue(ts).Read? && Faulty(ts)
    requires !ts.head.Invalid? || (ReadValue(ts).rest.Cons? && ReadValue(ts).rest.head.Separator?)
    ensures Faulty(ReadValue(ts).rest)
    decreases ts, 0
  {
    if ts.head == Separator('{') {
      RowsKeepFault(ts.tail, true, []);
    } else if ts.head == Separator('[') {
      ElementsKeepFault(ts.tail, true, []);
    }
  }

  lemma {:induction false} RowsKeepFault(ts: TokenStream, first: bool, fields: seq<Field<JSON>>)
    requires ReadRows(ts, first, fields).Rows? && Faulty(ts)
    ensures Faulty(ReadRows(ts, first, fields).rest)
    decreases ts, 1
  {
    if !(first && ts.head == Separator('}')) {
      var r := ReadValue(ts.tail.tail);
      ValueKeepsFault(ts.tail.tail);
      if r.rest.head == Separator(',') {
        RowsKeepFault(r.rest.tail, false, if r.value.Some? then Insert(fields, ts.head.s, r.value.value) else fields);
      }
    }
  }

  lemma {:induction false} ElementsKeepFault(ts: TokenStream, first: bool, items: seq<JSON>)
    requires ReadElements(ts, first, items).Elements? && Faulty(ts)
    ensures Faulty(ReadElements(ts, first, items).rest)
    decreases ts, 1
  {
    if !(first && ts.head == Separator(']')) {
      var r := ReadValue(ts);
      ValueKeepsFault(ts);
      if r.rest.head == Separator(',') {
        ElementsKeepFault(r.rest.tail, false, if r.value.Some? then items + [r.value.value] else items);
      }
    }
  }

  /** No text with a fault is a document. */
  lemma FaultIsRejected(ts: TokenStream)
    requires Faulty(ts)
    ensures ReadDocument(ts) == None
  {
    if ReadDocument(ts).Some? {
      ValueKeepsFault(ts);
    }
  }

  lemma {:induction false} FaithfulLexes(v: JSON)
    requires AllFaithful(v)
    ensures Lexes(v)
    decreases v
  {
    match v {
      case Leaf(_) =>
      case Array(items) =>
        forall i | 0 <= i < |items| ensures Lexes(items[i]) {
          FaithfulLexes(items[i]);
        }
      case Object(fields) =>
        forall i | 0 <= i < |fields| ensures Lexes(fields[i].value) {
          FaithfulLexes(fields[i].value);
        }
    }
  }

  // ---------------------------------------------------------------- the theorems

  /** Parsing undoes printing, at every indentation but 1 and up to the holders of integers, exactly
      when every key is plain and no string value is of the form `<%...%>` or has a NUL byte. */
  lemma RoundTrip(v: JSON, indent: nat)
    requires Storable(v) && !v.Leaf? && indent != 1
    ensures ReadText(PrintContainer(v, indent)) == Some(Normal(v)) <==> AllPlain(v) && AllFaithful(v)
  {
    if AllPlain(v) && AllFaithful(v) {
      PrintableIff(v);
      IndentedTokens(v, indent);
      FaithfulLexes(v);
      ReadTree(v, EndOfText);
      KeptIsNormal(v);
      assert StartsDocument(Tokens(PrintContainer(v, indent)));
    }
    if ReadText(PrintContainer(v, indent)) == Some(Normal(v)) {
      ReadBackIsKept(v, indent);
    }
  }

  /** Indentation makes no difference to what is read, for every tree with plain keys; where the text has no fault, not
      even to the tokens. */
  lemma IndentationIsInvisible(v: JSON, i: nat, j: nat)
    requires Printable(v) && !v.Leaf? && i != 1 && j != 1
    ensures ReadText(PrintContainer(v, i)) == ReadText(PrintContainer(v, j))
    ensures Lexes(v) ==> Tokens(PrintContainer(v, i)) == Tokens(PrintContainer(v, j))
  {
    IndentedTokens(v, i);
    IndentedTokens(v, j);
  }

  /** The tokens of a printed tree, whatever the indentation; with a fault it is no document. */
  lemma IndentedTokens(v: JSON, indent: nat)
    requires Printable(v) && !v.Leaf? && indent != 1
    ensures Lexes(v) ==> Tokens(PrintContainer(v, indent)) == Push(TreeTokens(v), EndOfText)
    ensures !Lexes(v) ==> ReadText(PrintContainer(v, indent)) == None
  {
    var text := PrintContainer(v, indent);
    assert text + "" == text;
    LexContainer(v, indent, "");
    assert Tokens("") == EndOfText;
    if !Lexes(v) {
      FaultIsRejected(Tokens(text));
    }
  }

  /** The tree itself comes back exactly when every integer is in the holder the parser chooses. */
  lemma {:induction false} NormalIsItself(v: JSON)
    ensures Normal(v) == v <==> Held(v)
    decreases v
  {
    match v {
      case Leaf(_) =>
      case Array(items) => NormalItemsAreThemselves(items);
      case Object(fields) => NormalFieldsAreThemselves(fields);
    }
  }

  /** Integers strictly between the limits of `int` are held as `int`, all others as `Int64`. */
  ghost predicate Held(v: JSON) {
    match v
    case Leaf(Int(n)) => INT_MIN < n < INT_MAX
    case Leaf(Long(n)) => !(INT_MIN < n < INT_MAX)
    case Leaf(_) => true
    case Array(items) => forall i | 0 <= i < |items| :: Held(items[i])
    case Object(fields) => forall i | 0 <= i < |fields| :: Held(fields[i].value)
  }

  lemma {:induction false} NormalItemsAreThemselves(items: seq<JSON>)
    ensures NormalItems(items) == items <==> forall i | 0 <= i < |items| :: Held(items[i])
    decreases items
  {
    if items != [] {
      NormalIsItself(items[0]);
      NormalItemsAreThemselves(items[1..]);
      assert items == [items[0]] + items[1..];
      assert NormalItems(items)[1..] == NormalItems(items[1..]);
    }
  }

  lemma {:induction false} NormalFieldsAreThemselves(fields: seq<Field<JSON>>)
    ensures NormalFields(fields) == fields <==> forall i | 0 <= i < |fields| :: Held(fields[i].value)
    decreases fields
  {
    if fields != [] {
      NormalIsItself(fields[0].value);
      NormalFieldsAreThemselves(fields[1..]);
      assert fields == [fields[0]] + fields[1..];
      assert NormalFields(fields)[1..] == NormalFields(fields[1..]);
    }
  }

  /** The unquoted form `<% value %>` is meant to print the value alone; it always adds `%>`. */
  lemma UnquotedAddsClosingMark(x: string)
    ensures StringText("<%" + x + "%>") == EscapeText(x) + "%>"
  {
    var s := "<%" + x + "%>";
    assert s[..2] == "<%" && s[|s| - 2..] == "%>";
    assert s[2..] == x + "%>";
    TranslateConcat(EscapeChar, x, "%>");
    EscapeTextOfBare("%>");
  }

  /** `INT_MAX`, held as an `int`, comes back as an `Int64`. */
  lemma IntMaxChangesHolder()
    ensures var v := Array([Leaf(Int(INT_MAX))]);
            Storable(v) && ReadText(PrintContainer(v, 0)) == Some(Array([Leaf(Long(INT_MAX))]))
  {
    var v := Array([Leaf(Int(INT_MAX))]);
    RoundTrip(v, 0);
    assert v.items[1..] == [];
    assert Normal(v.items[0]) == Leaf(Long(INT_MAX));
    assert NormalItems(v.items) == [Leaf(Long(INT_MAX))] + NormalItems(v.items[1..]);
    assert NormalItems(v.items[1..]) == [];
    assert Normal(v) == Array([Leaf(Long(INT_MAX))]);
    assert AllFaithful(v);
  }

  /** Printing and parsing with the classes: a stream, a parser and a handler. */
  method PrintAndLoad(v: JSON, indent: nat) returns (ok: bool, handler: Handler)
    requires Storable(v) && !v.Leaf? && indent != 1
    ensures AllPlain(v) && AllFaithful(v) <==> ok && Holds(handler.store, Normal(v))
  {
    RoundTrip(v, indent);
    var out := new OutStream();
    if v.Object? {
      StringifyObject(v.fields, out, indent);
    } else {
      StringifyArray(v.items, out, indent);
    }
    assert out.text == PrintContainer(v, indent) by {
      assert "" + PrintContainer(v, indent) == PrintContainer(v, indent);
    }
    ok, handler := Load(out.text);
  }
}
