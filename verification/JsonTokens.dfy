/** What each character begins, and how characters are printed: the tables behind the tokenizer and the
    printer. */
module JsonTokens {
  import opened TextStream
  import opened JsonValue
  import opened JsonLexer
  import opened JsonPrinter
  import opened JsonSpelling

  const BLANKS := " \t\n\U{0B}\U{0C}\r"
  const SEPARATORS := "{}[],:"

  predicate IsLetter(c: char) {
    'a' <= c <= 'z' || 'A' <= c <= 'Z'
  }

  predicate IsDecimal(c: char) {
    '0' <= c <= '9'
  }

  lemma First(c: char, rest: string)
    ensures ([c] + rest)[0] == c && ([c] + rest)[1..] == rest
    ensures !IsSpace(c) ==> NextToken([c] + rest) == TokenAt([c] + rest)
  {
  }

  lemma BlankIsPassedOver(c: char, rest: string)
    requires c in BLANKS
    ensures Tokens([c] + rest) == Tokens(rest)
  {
    First(c, rest);
    assert NextToken([c] + rest) == NextToken(rest);
  }

  lemma SeparatorIsToken(c: char, rest: string)
    requires c in SEPARATORS
    ensures Tokens([c] + rest) == Cons(Separator(c), Tokens(rest))
  {
    First(c, rest);
  }

  /** The token of an apostrophe cannot be finished. */
  lemma ApostropheThrows(rest: string)
    ensures Tokens("'" + rest) == Exception
  {
    First('\'', rest);
  }

  lemma StringIsToken(ss: seq<Spelling>, rest: string)
    requires AreSpellings(ss)
    ensures Tokens("\"" + Spelled(ss) + "\"" + rest) == Cons(StringLiteral(Bytes(ss)), Tokens(rest))
  {
    var body := Spelled(ss) + "\"" + rest;
    SpelledIsRead(ss, rest);
    BodyIsToken(body, Bytes(ss), rest);
    Assoc("\"", Spelled(ss), "\"");
    Assoc("\"", Spelled(ss) + "\"", rest);
  }

  lemma BodyIsToken(body: string, value: string, rest: string)
    requires StringBody(body) == Done(value, rest)
    ensures Tokens("\"" + body) == Cons(StringLiteral(value), Tokens(rest))
  {
    First('"', body);
  }

  /** A string that is not spelled to its closing mark throws. */
  lemma OtherStringThrows(s: string)
    requires forall ss, rest | AreSpellings(ss) :: s != Spelled(ss) + "\"" + rest
    ensures Tokens("\"" + s) == Exception
  {
    First('"', s);
    if StringBody(s).Done? {
      var ss := ReadIsSpelled(s);
      assert false;
    }
  }

  lemma {:induction false} WordIsTaken(word: string, rest: string)
    requires (forall i | 0 <= i < |word| :: IsLetter(word[i])) && (rest == "" || !IsLetter(rest[0]))
    ensures AlphaLength(word + rest) == |word|
  {
    if word == "" {
      assert word + rest == rest;
    } else {
      assert (word + rest)[1..] == word[1..] + rest;
      WordIsTaken(word[1..], rest);
    }
  }

  /** A word is all the letters in a row. */
  lemma WordIsToken(word: string, rest: string)
    requires word != "" && (forall i | 0 <= i < |word| :: IsLetter(word[i])) && (rest == "" || !IsLetter(rest[0]))
    ensures Tokens(word + rest) == Cons(Keyword(word), Tokens(rest))
  {
    var s := word + rest;
    WordIsTaken(word, rest);
    assert s == [word[0]] + (word[1..] + rest);
    First(word[0], word[1..] + rest);
    assert s[..|word|] == word && s[|word|..] == rest;
    assert StartNumber(s[0], s[1..]) == NotANumber;
  }

  /** Any other character is a token of its own, and so is a minus sign without a digit after it. */
  lemma OtherIsInvalid(c: char, rest: string)
    requires !(c in BLANKS) && !(c in SEPARATORS) && !IsLetter(c) && !IsDecimal(c) && c != '\'' && c != '"'
    requires c == '-' ==> rest == "" || !IsDecimal(rest[0])
    ensures Tokens([c] + rest) == Cons(Invalid(c), Tokens(rest))
  {
    First(c, rest);
    assert !IsSpace(c);
    assert StartNumber(c, rest) == NotANumber;
  }

  /** What begins like a number is a number or throws; a digit after a leading zero throws. */
  lemma NumberOrThrow(s: string)
    requires s != "" && (IsDecimal(s[0]) || (s[0] == '-' && |s| > 1 && IsDecimal(s[1])))
    ensures Tokens(s) == Exception
         || (Tokens(s).Cons?
             && (Tokens(s).head.IntegerLiteral? || Tokens(s).head.FloatLiteral? || Tokens(s).head.DoubleLiteral?))
    ensures |s| > 1 && s[0] == '0' && IsDecimal(s[1]) ==> Tokens(s) == Exception
    ensures |s| > 2 && s[0] == '-' && s[1] == '0' && IsDecimal(s[2]) ==> Tokens(s) == Exception
  {
    assert NextToken(s) == TokenAt(s);
  }

  // ---------------------------------------------------------------- printing characters

  /** How a character is printed in a string: by its letter if it has one, by four capital hexadecimal
      digits if it is another control character, and else as it is. A slash is as it is, and so is NUL,
      which has no spelling. */
  function Printed(c: char): string {
    if c == '"' then "\\\""
    else if c == '\\' then "\\\\"
    else if c == '\U{08}' then "\\b"
    else if c == '\U{0C}' then "\\f"
    else if c == '\U{0A}' then "\\n"
    else if c == '\U{0D}' then "\\r"
    else if c == '\U{09}' then "\\t"
    else if '\0' < c < ' ' then "\\u00" + [CAPITALS[c as nat / 16], CAPITALS[c as nat % 16]]
    else [c]
  }

  lemma CharIsPrinted(c: char)
    ensures EscapeText([c]) == Printed(c)
  {
    assert [c][1..] == "";
    assert Translate(EscapeChar, [c]) == EscapeChar(c) + Translate(EscapeChar, "") == EscapeChar(c);
    if !IsBare(c) {
      CodeIsPrinted(c);
    }
  }

  lemma CodeIsPrinted(c: char)
    requires !IsBare(c)
    ensures ['\\'] + EscapeCode(c) == Printed(c)
  {
    if |EscapeCode(c)| > 1 {
      HexDigitIsCapital(c as nat / 16);
      HexDigitIsCapital(c as nat % 16);
      var h, l := HexDigit(c as nat / 16), HexDigit(c as nat % 16);
      assert ['\\'] + ("u00" + [h, l]) == "\\u00" + [h, l];
    } else {
      assert ['\\'] + EscapeCode(c) == ['\\', EscapeCode(c)[0]];
    }
  }

  lemma HexDigitIsCapital(d: nat)
    requires d < 16
    ensures HexDigit(d) == CAPITALS[d]
  {
  }

  /** Characters are printed one after the other. */
  lemma {:induction false} TextIsPrinted(a: string, b: string)
    ensures EscapeText(a + b) == EscapeText(a) + EscapeText(b)
  {
    if a == "" {
      assert a + b == b;
    } else {
      TextIsPrinted(a[1..], b);
      assert (a + b)[0] == a[0] && (a + b)[1..] == a[1..] + b;
      Assoc(EscapeChar(a[0]), EscapeText(a[1..]), EscapeText(b));
    }
  }
}
