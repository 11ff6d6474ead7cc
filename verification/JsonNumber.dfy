/** The numbers that the number token reads: an integer part, and then fractions and exponents in turn. */
module JsonNumber {
  import opened TextStream
  import opened JsonValue
  import opened JsonLexer

  /** A fraction, or an exponent with its mark and sign. */
  datatype Segment = Fraction(digits: string) | Exponent(mark: char, sign: string, digits: string)

  ghost predicate AreDigits(s: string) {
    forall i | 0 <= i < |s| :: '0' <= s[i] <= '9'
  }

  ghost predicate IsSegment(g: Segment) {
    match g
    case Fraction(digits) => digits != "" && AreDigits(digits)
    case Exponent(mark, sign, digits) =>
      (mark == 'e' || mark == 'E') && (sign == "" || sign == "+" || sign == "-") && digits != "" && AreDigits(digits)
  }

  function SegmentText(g: Segment): string {
    match g
    case Fraction(digits) => "." + digits
    case Exponent(mark, sign, digits) => [mark] + sign + digits
  }

  function SegmentsText(gs: seq<Segment>): string {
    if gs == [] then "" else SegmentText(gs[0]) + SegmentsText(gs[1..])
  }

  /** The class of a number after a segment. */
  function ClassAfter(g: Segment): NumberClass {
    if g.Fraction? then FloatClass else DoubleClass
  }

  /** No fraction follows a fraction, and no exponent an exponent. */
  ghost predicate Alternate(cls: NumberClass, gs: seq<Segment>)
    decreases |gs|
  {
    gs == [] || (IsSegment(gs[0]) && ClassAfter(gs[0]) != cls && Alternate(ClassAfter(gs[0]), gs[1..]))
  }

  function LastClass(cls: NumberClass, gs: seq<Segment>): NumberClass
    decreases |gs|
  {
    if gs == [] then cls else LastClass(ClassAfter(gs[0]), gs[1..])
  }

  /** What can follow a number. */
  predicate Ends(rest: string) {
    rest == "" || !(IsDigit(rest[0]) || rest[0] == '.' || rest[0] == 'e' || rest[0] == 'E')
  }

  // ---------------------------------------------------------------- what is written is read

  lemma {:induction false} DigitsAreTaken(cls: NumberClass, digits: string, s: string)
    requires AreDigits(digits)
    ensures NumberTail(cls, digits + s) == PrependText(digits, NumberTail(cls, s))
  {
    if digits == "" {
      assert digits + s == s;
      assert forall n: Number :: "" + n.text == n.text;
    } else {
      assert (digits + s)[1..] == digits[1..] + s;
      DigitsAreTaken(cls, digits[1..], s);
      PrependTextTwice([digits[0]], digits[1..], NumberTail(cls, s));
      assert [digits[0]] + digits[1..] == digits;
    }
  }

  lemma FractionIsTaken(cls: NumberClass, digits: string, s: string)
    requires digits != "" && AreDigits(digits) && cls != FloatClass
    ensures NumberTail(cls, "." + digits + s) == PrependText("." + digits, NumberTail(FloatClass, s))
  {
    var t := "." + digits + s;
    assert t[1..] == digits + s;
    assert t[..2] == "." + digits[..1] && t[2..] == digits[1..] + s;
    DigitsAreTaken(FloatClass, digits[1..], s);
    PrependTextTwice("." + digits[..1], digits[1..], NumberTail(FloatClass, s));
    assert "." + digits[..1] + digits[1..] == "." + digits;
  }

  lemma ExponentIsTaken(cls: NumberClass, mark: char, sign: string, digits: string, s: string)
    requires IsSegment(Exponent(mark, sign, digits)) && cls != DoubleClass
    ensures NumberTail(cls, [mark] + sign + digits + s)
         == PrependText([mark] + sign + digits, NumberTail(DoubleClass, s))
  {
    var t := [mark] + sign + digits + s;
    var n := 1 + |sign|;
    assert t[0] == mark && t[1] == if sign == "" then digits[0] else sign[0];
    assert SignLength(t) == n;
    assert t[n..] == digits + s;
    assert t[..n + 1] == [mark] + sign + digits[..1] && t[n + 1..] == digits[1..] + s;
    DigitsAreTaken(DoubleClass, digits[1..], s);
    PrependTextTwice([mark] + sign + digits[..1], digits[1..], NumberTail(DoubleClass, s));
    assert [mark] + sign + digits[..1] + digits[1..] == [mark] + sign + digits;
  }

  lemma {:induction false} SegmentsAreTaken(cls: NumberClass, gs: seq<Segment>, rest: string)
    requires Alternate(cls, gs) && Ends(rest)
    ensures NumberTail(cls, SegmentsText(gs) + rest) == Done(Number(SegmentsText(gs), LastClass(cls, gs)), rest)
    decreases |gs|
  {
    if gs == [] {
      assert "" + rest == rest;
    } else {
      var g, more := gs[0], SegmentsText(gs[1..]);
      SegmentsAreTaken(ClassAfter(g), gs[1..], rest);
      Assoc(SegmentText(g), more, rest);
      match g {
        case Fraction(digits) => FractionIsTaken(cls, digits, more + rest);
        case Exponent(mark, sign, digits) => ExponentIsTaken(cls, mark, sign, digits, more + rest);
      }
    }
  }

  /** The integer part: no digit follows a leading zero. */
  ghost predicate IsWhole(digits: string) {
    digits != "" && AreDigits(digits) && (digits[0] == '0' ==> |digits| == 1)
  }

  function TokenOf(text: string, cls: NumberClass): Token {
    match cls
    case IntegerClass => IntegerLiteral(text)
    case FloatClass => FloatLiteral(text)
    case DoubleClass => DoubleLiteral(text)
  }

  function NumberText(minus: bool, whole: string, gs: seq<Segment>): string {
    (if minus then "-" else "") + whole + SegmentsText(gs)
  }

  ghost predicate IsNumber(whole: string, gs: seq<Segment>) {
    IsWhole(whole) && Alternate(IntegerClass, gs)
  }

  /** A number token begins: what is taken at first, and then the tail. */
  ghost predicate Begins(t: string, text: string, s: string) {
    && t != "" && StartNumber(t[0], t[1..]).Started?
    && var start := StartNumber(t[0], t[1..]);
       PrependText(start.text, NumberTail(IntegerClass, start.rest)) == PrependText(text, NumberTail(IntegerClass, s))
  }

  lemma WholeBegins(whole: string, s: string)
    requires IsWhole(whole) && (s == "" || !IsDigit(s[0]))
    ensures Begins(whole + s, whole, s)
  {
    var t := whole + s;
    assert t[1..] == whole[1..] + s;
    DigitsAreTaken(IntegerClass, whole[1..], s);
    PrependTextTwice([whole[0]], whole[1..], NumberTail(IntegerClass, s));
    assert [whole[0]] + whole[1..] == whole;
  }

  lemma MinusBegins(whole: string, s: string)
    requires IsWhole(whole) && (s == "" || !IsDigit(s[0]))
    ensures Begins("-" + whole + s, "-" + whole, s)
  {
    var t := "-" + whole + s;
    assert t[1..] == whole + s;
    if whole[0] == '0' {
      assert whole == "0" && (whole + s)[1..] == s && "-" + whole == "-0";
    } else {
      DigitsAreTaken(IntegerClass, whole, s);
      PrependTextTwice("-", whole, NumberTail(IntegerClass, s));
    }
  }

  /** Every number that is written in this way is one token, with its whole text. */
  lemma NumberIsRead(minus: bool, whole: string, gs: seq<Segment>, rest: string)
    requires IsNumber(whole, gs) && Ends(rest)
    ensures var text := NumberText(minus, whole, gs);
            Tokens(text + rest) == Cons(TokenOf(text, LastClass(IntegerClass, gs)), Tokens(rest))
  {
    var sign, more := if minus then "-" else "", SegmentsText(gs);
    SegmentsAreTaken(IntegerClass, gs, rest);
    SegmentsBegin(gs);
    Assoc(sign + whole, more, rest);
    var s := sign + whole + (more + rest);
    if minus {
      MinusBegins(whole, more + rest);
    } else {
      WholeBegins(whole, more + rest);
      assert "" + whole == whole;
    }
    NumberIsToken(s, NumberText(minus, whole, gs), LastClass(IntegerClass, gs), rest);
  }

  lemma NumberIsToken(s: string, text: string, cls: NumberClass, rest: string)
    requires s != "" && (IsDigit(s[0]) || s[0] == '-') && StartNumber(s[0], s[1..]).Started?
    requires var start := StartNumber(s[0], s[1..]);
             PrependText(start.text, NumberTail(IntegerClass, start.rest)) == Done(Number(text, cls), rest)
    ensures Tokens(s) == Cons(TokenOf(text, cls), Tokens(rest))
  {
    assert NextToken(s) == TokenAt(s) == Lexed(TokenOf(text, cls), rest);
  }

  lemma SegmentsBegin(gs: seq<Segment>)
    requires Alternate(IntegerClass, gs)
    ensures gs == [] || (SegmentsText(gs) != "" && !IsDigit(SegmentsText(gs)[0]))
  {
  }

  // ---------------------------------------------------------------- what is read is written so

  /** How the tail of a number is written. */
  ghost predicate TailIs(cls: NumberClass, s: string, digits: string, gs: seq<Segment>) {
    var r := NumberTail(cls, s);
    && r.Done? && AreDigits(digits) && Alternate(cls, gs) && Ends(r.rest)
    && r.value == Number(digits + SegmentsText(gs), LastClass(cls, gs)) && s == r.value.text + r.rest
    && (digits == "" <==> !DigitFirst(s)) && (digits != "" ==> digits[0] == s[0])
  }

  lemma {:induction false} TailUnread(cls: NumberClass, s: string) returns (digits: string, gs: seq<Segment>)
    requires NumberTail(cls, s).Done?
    ensures TailIs(cls, s, digits, gs)
    decreases |s|
  {
    digits, gs := "", [];
    if s == "" {
      assert "" + "" == "";
    } else if IsDigit(s[0]) {
      var more;
      more, gs := TailUnread(cls, s[1..]);
      digits := [s[0]] + more;
      DigitUnread(cls, s, more, gs);
    } else if s[0] == '.' {
      var more, gs' := TailUnread(FloatClass, s[2..]);
      gs := [Fraction([s[1]] + more)] + gs';
      FractionUnread(cls, s, more, gs');
    } else if s[0] == 'e' || s[0] == 'E' {
      var n := SignLength(s);
      var more, gs' := TailUnread(DoubleClass, s[n + 1..]);
      gs := [Exponent(s[0], s[1..n], [s[n]] + more)] + gs';
      ExponentUnread(cls, s, more, gs');
    }
  }

  lemma DigitUnread(cls: NumberClass, s: string, more: string, gs: seq<Segment>)
    requires s != "" && IsDigit(s[0]) && TailIs(cls, s[1..], more, gs)
    ensures TailIs(cls, s, [s[0]] + more, gs)
  {
    Assoc([s[0]], more, SegmentsText(gs));
    Assoc([s[0]], more + SegmentsText(gs), NumberTail(cls, s[1..]).rest);
  }

  lemma FractionUnread(cls: NumberClass, s: string, more: string, gs: seq<Segment>)
    requires s != "" && s[0] == '.' && DigitFirst(s[1..]) && cls != FloatClass && TailIs(FloatClass, s[2..], more, gs)
    ensures TailIs(cls, s, "", [Fraction([s[1]] + more)] + gs)
  {
    var g := Fraction([s[1]] + more);
    assert ([g] + gs)[1..] == gs;
    FractionGlue(s, more, SegmentsText(gs), NumberTail(FloatClass, s[2..]).rest);
  }

  lemma FractionGlue(s: string, more: string, text: string, rest: string)
    requires |s| >= 2 && s[0] == '.' && s[2..] == more + text + rest
    ensures s[..2] + (more + text) == "" + ("." + ([s[1]] + more) + text)
    ensures s == s[..2] + (more + text) + rest
  {
    assert s[..2] == "." + [s[1]] && s == s[..2] + s[2..];
  }

  lemma ExponentUnread(cls: NumberClass, s: string, more: string, gs: seq<Segment>)
    requires s != "" && (s[0] == 'e' || s[0] == 'E') && DigitFirst(s[SignLength(s)..]) && cls != DoubleClass
    requires TailIs(DoubleClass, s[SignLength(s) + 1..], more, gs)
    ensures TailIs(cls, s, "", [Exponent(s[0], s[1..SignLength(s)], [s[SignLength(s)]] + more)] + gs)
  {
    var n := SignLength(s);
    var g := Exponent(s[0], s[1..n], [s[n]] + more);
    SignIs(s);
    ExponentStep(cls, s);
    ExponentGlue(s, n, more, SegmentsText(gs));
    TailFromStep(cls, s, s[..n + 1], s[n + 1..], g, more, gs);
  }

  lemma TailFromStep(cls: NumberClass, s: string, head: string, s': string, g: Segment, more: string, gs: seq<Segment>)
    requires NumberTail(cls, s) == PrependText(head, NumberTail(ClassAfter(g), s')) && s == head + s'
    requires TailIs(ClassAfter(g), s', more, gs) && IsSegment(g) && ClassAfter(g) != cls && !DigitFirst(s)
    requires head + (more + SegmentsText(gs)) == "" + (SegmentText(g) + SegmentsText(gs))
    ensures TailIs(cls, s, "", [g] + gs)
  {
    OneSegment(cls, g, gs);
    Assoc(head, more + SegmentsText(gs), NumberTail(ClassAfter(g), s').rest);
  }

  lemma ExponentStep(cls: NumberClass, s: string)
    requires s != "" && (s[0] == 'e' || s[0] == 'E') && DigitFirst(s[SignLength(s)..]) && cls != DoubleClass
    ensures NumberTail(cls, s) == PrependText(s[..SignLength(s) + 1], NumberTail(DoubleClass, s[SignLength(s) + 1..]))
  {
  }

  lemma OneSegment(cls: NumberClass, g: Segment, gs: seq<Segment>)
    ensures SegmentsText([g] + gs) == SegmentText(g) + SegmentsText(gs)
    ensures Alternate(cls, [g] + gs) <==> IsSegment(g) && ClassAfter(g) != cls && Alternate(ClassAfter(g), gs)
    ensures LastClass(cls, [g] + gs) == LastClass(ClassAfter(g), gs)
  {
    assert ([g] + gs)[1..] == gs;
  }

  lemma SignIs(s: string)
    requires s != "" && DigitFirst(s[SignLength(s)..])
    ensures s[1..SignLength(s)] == "" || s[1..SignLength(s)] == "+" || s[1..SignLength(s)] == "-"
    ensures SignLength(s) < |s| && IsDigit(s[SignLength(s)])
  {
  }

  lemma ExponentGlue(s: string, n: nat, more: string, text: string)
    requires 1 <= n < |s|
    ensures s[..n + 1] + (more + text) == "" + ([s[0]] + s[1..n] + ([s[n]] + more) + text)
    ensures s == s[..n + 1] + s[n + 1..]
  {
    assert s[..n + 1] == [s[0]] + s[1..n] + [s[n]];
  }

  /** And nothing else is: every number token has this form, and the text goes on with what cannot belong
      to a number. */
  lemma NumberIsWritten(s: string) returns (minus: bool, whole: string, gs: seq<Segment>, rest: string)
    requires s != "" && !IsSpace(s[0]) && NextToken(s).Lexed?
    requires var t := NextToken(s).token; t.IntegerLiteral? || t.FloatLiteral? || t.DoubleLiteral?
    ensures IsNumber(whole, gs) && Ends(rest) && s == NumberText(minus, whole, gs) + rest
    ensures NextToken(s) == Lexed(TokenOf(NumberText(minus, whole, gs), LastClass(IntegerClass, gs)), rest)
  {
    var start := StartNumber(s[0], s[1..]);
    NumberHasStart(s);
    var digits;
    digits, gs := TailUnread(IntegerClass, start.rest);
    rest := NumberTail(IntegerClass, start.rest).rest;
    minus := s[0] == '-';
    whole := if minus then start.text[1..] + digits else start.text + digits;
    WholeIs(s, start, digits, whole);
    Assoc(start.text, digits, SegmentsText(gs));
    StartGlue(s, start, digits + SegmentsText(gs), rest);
  }

  lemma NumberHasStart(s: string)
    requires s != "" && !IsSpace(s[0]) && NextToken(s).Lexed?
    requires var t := NextToken(s).token; t.IntegerLiteral? || t.FloatLiteral? || t.DoubleLiteral?
    ensures var start := StartNumber(s[0], s[1..]);
            && start.Started?
            && var tail := NumberTail(IntegerClass, start.rest);
               tail.Done? && NextToken(s) == Lexed(TokenOf(start.text + tail.value.text, tail.value.cls), tail.rest)
  {
    assert NextToken(s) == TokenAt(s);
  }

  lemma StartGlue(s: string, start: NumberStart, text: string, rest: string)
    requires s != "" && start == StartNumber(s[0], s[1..]) && start.Started? && start.rest == text + rest
    ensures s == start.text + text + rest
  {
    assert s == start.text + start.rest;
  }

  lemma DigitAndMore(c: char, digits: string)
    requires IsDigit(c) && AreDigits(digits) && (c == '0' ==> digits == "")
    ensures IsWhole([c] + digits)
  {
    var w := [c] + digits;
    assert forall i | 0 < i < |w| :: w[i] == digits[i - 1];
  }

  lemma WholeIs(s: string, start: NumberStart, digits: string, whole: string)
    requires s != "" && start == StartNumber(s[0], s[1..]) && start.Started? && AreDigits(digits)
    requires (digits == "" <==> !DigitFirst(start.rest)) && (digits != "" ==> digits[0] == start.rest[0])
    requires whole == if s[0] == '-' then start.text[1..] + digits else start.text + digits
    ensures IsWhole(whole) && start.text + digits == (if s[0] == '-' then "-" else "") + whole
  {
    var c, t := s[0], s[1..];
    if c == '-' {
      if t[0] == '0' {
        DigitAndMore('0', "");
        assert start.text == "-0" && digits == "" && whole == "0";
      } else {
        assert start.text == "-" && whole == digits;
      }
    } else {
      assert start.text == [c];
      DigitAndMore(c, digits);
    }
  }
}
