/** The forms that a command can have in the text of a template: exactly these are read, and each as its
    own step. */
module TemplateForms {
  import opened TextStream
  import opened TemplateSyntax
  import opened TemplatePrint

  predicate Blank(s: string) {
    forall i | 0 <= i < |s| :: IsSpace(s[i])
  }

  /** A command after `<?`: blanks, its word, blanks, its arguments, blanks, `?>` and perhaps a line end.
      `between` are the blanks between the two arguments of `for`. */
  datatype Form = Form(
    event: Event, lead: string, word: string, gap: string, between: string, trail: string, eol: string)

  /** The words of a command. */
  predicate IsWordOf(word: string, e: Event) {
    match e
    case AddText(_) => false
    case AddEcho(_) => word == "echo" || word == "="
    case AddInclude(_) => word == "include"
    case OpenLoop(_, _) => word == "for"
    case OpenLogic(Truth(_)) => word == "if"
    case OpenLogic(Exists(_)) => word == "ifexist"
    case OpenLogic(Otherwise) => false
    case AddBranch(Truth(_)) => word == "elsif" || word == "elif"
    case AddBranch(Exists(_)) => false
    case AddBranch(Otherwise) => word == "else"
    case CloseLoop => word == "endfor"
    case CloseLogic => word == "endif"
  }

  /** The arguments of a command. */
  function ArgumentsText(e: Event, between: string): string {
    match e
    case AddEcho(q) => q
    case AddInclude(file) => "\"" + file + "\""
    case OpenLoop(name, q) => name + between + q
    case OpenLogic(Truth(q)) => q
    case OpenLogic(Exists(q)) => q
    case AddBranch(Truth(q)) => q
    case _ => ""
  }

  predicate AreArguments(e: Event, between: string) {
    match e
    case AddEcho(q) => IsQuery(q)
    case AddInclude(file) => IsFile(file)
    case OpenLoop(name, q) => IsName(name) && between != "" && IsQuery(q)
    case OpenLogic(Truth(q)) => IsQuery(q)
    case OpenLogic(Exists(q)) => IsQuery(q)
    case AddBranch(Truth(q)) => IsQuery(q)
    case _ => true
  }

  /** Every command but `echo` takes a line end, and all of it. */
  predicate IsLineEnd(e: Event, eol: string, rest: string) {
    if e.AddEcho? then eol == ""
    else if eol == "" then rest == "" || (rest[0] != '\r' && rest[0] != '\n')
    else if eol == "\r" then rest == "" || rest[0] != '\n'
    else eol == "\n" || eol == "\r\n"
  }

  /** Blanks after the word can only be missing where it ends of itself: `=`, or before `?>`. (The name in
      a `for` may begin with `?>`.) */
  predicate IsForm(f: Form, rest: string) {
    && Blank(f.lead) && Blank(f.gap) && Blank(f.between) && Blank(f.trail)
    && IsWordOf(f.word, f.event) && AreArguments(f.event, f.between) && IsLineEnd(f.event, f.eol, rest)
    && (f.gap == "" ==> f.word == "=" || ArgumentsText(f.event, f.between) == ""
                        || Ahead(ArgumentsText(f.event, f.between), '?', '>'))
  }

  function FormText(f: Form): string {
    f.lead + f.word + f.gap + ArgumentsText(f.event, f.between) + f.trail + "?>" + f.eol
  }

  // ---------------------------------------------------------------- pieces

  /** What a reader stops at. */
  predicate Stops(rest: string) {
    rest != "" && (IsSpace(rest[0]) || Ahead(rest, '?', '>'))
  }

  lemma {:induction false} BlankIsSkipped(s: string, rest: string)
    requires Blank(s) && (rest == "" || !IsSpace(rest[0]))
    ensures SkipSpace(s + rest) == rest
  {
    if s == "" {
      assert s + rest == rest;
    } else {
      assert (s + rest)[1..] == s[1..] + rest;
      BlankIsSkipped(s[1..], rest);
    }
  }

  /** A command word up to a space, which is taken, or up to `?>`. */
  lemma {:induction false} WordStops(w: string, acc: string, rest: string)
    requires (forall i | 0 <= i < |w| :: 'a' <= w[i] <= 'z') && Stops(rest)
    ensures CommandWord(w + rest, acc) == Piece(acc + w, if IsSpace(rest[0]) then rest[1..] else rest)
    decreases |w|
  {
    var s := w + rest;
    if w == "" {
      assert s == rest && acc + w == acc;
    } else {
      assert s[1..] == w[1..] + rest;
      WordStops(w[1..], acc + [w[0]], rest);
      assert acc + [w[0]] + w[1..] == acc + w;
    }
  }

  lemma {:induction false} QueryStops(q: string, rest: string)
    requires NoSpace(q) && NoPair(q, '?', '>') && Stops(rest)
    ensures QueryPiece(q + rest) == Piece(q, if IsSpace(rest[0]) then rest[1..] else rest)
  {
    var s := q + rest;
    if q == "" {
      assert s == rest;
    } else {
      assert s[1..] == q[1..] + rest;
      assert |s| > 1 && s[1] == if |q| > 1 then q[1] else rest[0];
      QueryStops(q[1..], rest);
      assert [q[0]] + q[1..] == q;
    }
  }

  lemma {:induction false} NameStops(n: string, rest: string)
    requires NoSpace(n) && rest != "" && IsSpace(rest[0])
    ensures WordPiece(n + rest) == Piece(n, rest)
  {
    var s := n + rest;
    if n == "" {
      assert s == rest;
    } else {
      assert s[1..] == n[1..] + rest;
      NameStops(n[1..], rest);
      assert [n[0]] + n[1..] == n;
    }
  }

  // ---------------------------------------------------------------- forms are read

  /** What is left after the arguments: blanks, the closing mark and the line end. */
  function Tail(f: Form, rest: string): string {
    f.trail + ("?>" + (f.eol + rest))
  }

  lemma TailStops(f: Form, rest: string)
    requires Blank(f.trail)
    ensures Stops(Tail(f, rest)) && SkipSpace(Tail(f, rest)) == "?>" + (f.eol + rest)
    ensures IsSpace(Tail(f, rest)[0]) ==> SkipSpace(Tail(f, rest)[1..]) == "?>" + (f.eol + rest)
  {
    BlankIsSkipped(f.trail, "?>" + (f.eol + rest));
  }

  lemma ClosingIsTaken(k: Keyword, e: Event, eol: string, rest: string, s: string)
    requires SkipSpace(s) == "?>" + (eol + rest) && IsLineEnd(e, eol, rest) && (e.AddEcho? <==> k.KEcho?)
    ensures Closing(k, s) == Some(rest)
  {
    var t := eol + rest;
    assert ("?>" + t)[2..] == t;
    if eol == "" {
      assert t == rest;
    } else if |eol| == 1 {
      assert t[1..] == rest;
    } else {
      assert t[1..] == "\n" + rest && t[1..][1..] == rest;
    }
  }

  function KeywordFor(e: Event): Option<Keyword> {
    match e
    case AddEcho(_) => Some(KEcho)
    case AddInclude(_) => Some(KInclude)
    case OpenLoop(_, _) => Some(KFor)
    case OpenLogic(Truth(_)) => Some(KIf)
    case OpenLogic(Exists(_)) => Some(KIfExist)
    case AddBranch(Truth(_)) => Some(KElsif)
    case AddBranch(Otherwise) => Some(KElse)
    case CloseLoop => Some(KEndFor)
    case CloseLogic => Some(KEndIf)
    case _ => None
  }

  lemma QueryIsTaken(q: string, f: Form, rest: string)
    requires IsQuery(q) && Blank(f.trail)
    ensures QueryPiece(q + Tail(f, rest)).word == q
    ensures SkipSpace(QueryPiece(q + Tail(f, rest)).rest) == "?>" + (f.eol + rest)
  {
    TailStops(f, rest);
    QueryStops(q, Tail(f, rest));
  }

  /** The arguments, and what is then left of the text. */
  ghost predicate Taken(k: Keyword, s: string, e: Event, left: string) {
    Arguments(k, s).Done? && Arguments(k, s).value == e && SkipSpace(Arguments(k, s).rest) == left
  }

  lemma LoopIsTaken(name: string, between: string, q: string, f: Form, rest: string)
    requires IsName(name) && Blank(between) && between != "" && IsQuery(q) && Blank(f.trail)
    ensures Taken(KFor, name + between + q + Tail(f, rest), OpenLoop(name, q), "?>" + (f.eol + rest))
  {
    var after := q + Tail(f, rest);
    assert name + between + q + Tail(f, rest) == name + (between + after);
    NameStops(name, between + after);
    BlankIsSkipped(between, after);
    QueryIsTaken(q, f, rest);
  }

  lemma FileIsTaken(file: string, f: Form, rest: string)
    requires IsFile(file) && Blank(f.trail)
    ensures Taken(KInclude, "\"" + file + "\"" + Tail(f, rest), AddInclude(file), "?>" + (f.eol + rest))
  {
    var s := "\"" + file + "\"" + Tail(f, rest);
    assert s[1..] == file + ['"'] + Tail(f, rest);
    FileIsRead(file, Tail(f, rest));
    TailStops(f, rest);
  }

  lemma ArgumentsAreTaken(f: Form, rest: string)
    requires IsForm(f, rest)
    ensures KeywordFor(f.event).Some?
    ensures var args := ArgumentsText(f.event, f.between);
            Taken(KeywordFor(f.event).value, if args == "" then "?>" + (f.eol + rest) else args + Tail(f, rest),
                  f.event, "?>" + (f.eol + rest))
  {
    match f.event {
      case AddInclude(file) => FileIsTaken(file, f, rest);
      case OpenLoop(name, q) => LoopIsTaken(name, f.between, q, f, rest);
      case CloseLoop =>
      case CloseLogic =>
      case AddBranch(Otherwise) =>
      case _ => OneQueryIsTaken(f, ArgumentsText(f.event, ""), rest);
    }
  }

  lemma OneQueryIsTaken(f: Form, q: string, rest: string)
    requires Blank(f.trail) && IsQuery(q)
    requires match f.event
             case AddEcho(p) => p == q
             case OpenLogic(Truth(p)) => p == q
             case OpenLogic(Exists(p)) => p == q
             case AddBranch(Truth(p)) => p == q
             case _ => false
    ensures Taken(KeywordFor(f.event).value, q + Tail(f, rest), f.event, "?>" + (f.eol + rest))
  {
    QueryIsTaken(q, f, rest);
  }

  /** The text after the word of a command. */
  function AfterWord(f: Form, rest: string): string {
    f.gap + (ArgumentsText(f.event, f.between) + Tail(f, rest))
  }

  lemma GapIsSkipped(f: Form, rest: string)
    requires IsForm(f, rest)
    ensures var args := ArgumentsText(f.event, f.between);
            SkipSpace(AfterWord(f, rest)) == if args == "" then "?>" + (f.eol + rest) else args + Tail(f, rest)
  {
    var args := ArgumentsText(f.event, f.between);
    if args == "" {
      assert AfterWord(f, rest) == (f.gap + f.trail) + ("?>" + (f.eol + rest));
      BlankIsSkipped(f.gap + f.trail, "?>" + (f.eol + rest));
    } else {
      BlankIsSkipped(f.gap, args + Tail(f, rest));
    }
  }

  lemma SkippedOnce(s: string)
    requires s != "" && IsSpace(s[0])
    ensures SkipSpace(s) == SkipSpace(s[1..])
  {
  }

  lemma WordNames(word: string, e: Event)
    requires IsWordOf(word, e) && word != "="
    ensures IsCommand(word) && KeywordOf(word) == KeywordFor(e)
  {
  }

  lemma AfterStops(f: Form, rest: string)
    requires IsForm(f, rest) && f.word != "="
    ensures Stops(AfterWord(f, rest))
  {
    TailStops(f, rest);
    var args := ArgumentsText(f.event, f.between);
    if f.gap != "" {
      assert AfterWord(f, rest)[0] == f.gap[0];
    } else if args == "" {
      assert AfterWord(f, rest) == Tail(f, rest);
    } else {
      assert AfterWord(f, rest)[0] == args[0] && AfterWord(f, rest)[1] == args[1];
    }
  }

  lemma EqualsIsTaken(after: string)
    ensures CommandWord("=" + after, "") == Piece("echo", after)
  {
    assert ("=" + after)[1..] == after;
  }

  /** The word of a command names its keyword, and the text after it is what is left. */
  lemma WordIsTaken(f: Form, rest: string)
    requires IsForm(f, rest)
    ensures var w := CommandWord(f.word + AfterWord(f, rest), "");
            && w.word != "" && KeywordOf(w.word) == KeywordFor(f.event)
            && SkipSpace(w.rest) == SkipSpace(AfterWord(f, rest))
  {
    var after := AfterWord(f, rest);
    if f.word == "=" {
      EqualsIsTaken(after);
    } else {
      WordNames(f.word, f.event);
      AfterStops(f, rest);
      assert "" + f.word == f.word;
      WordStops(f.word, "", after);
      if IsSpace(after[0]) {
        SkippedOnce(after);
      }
    }
  }

  lemma FormParts(f: Form, rest: string)
    ensures FormText(f) + rest == f.lead + (f.word + AfterWord(f, rest))
  {
    var args := ArgumentsText(f.event, f.between);
    assert FormText(f) + rest == f.lead + (f.word + (f.gap + (args + (f.trail + ("?>" + (f.eol + rest))))));
  }

  /** A command in any of its forms is its step. */
  lemma FormIsRead(f: Form, rest: string)
    requires IsForm(f, rest)
    ensures CommandScript(FormText(f) + rest) == Then(f.event, ScriptOf(rest))
  {
    FormParts(f, rest);
    BlankIsSkipped(f.lead, f.word + AfterWord(f, rest));
    WordIsTaken(f, rest);
    GapIsSkipped(f, rest);
    ArgumentsAreTaken(f, rest);
    var k := KeywordFor(f.event).value;
    var args := ArgumentsText(f.event, f.between);
    var s := if args == "" then "?>" + (f.eol + rest) else args + Tail(f, rest);
    ClosingIsTaken(k, f.event, f.eol, rest, Arguments(k, s).rest);
    assert ClosingScript(k, f.event, Arguments(k, s).rest) == Then(f.event, ScriptOf(rest));
    assert KeywordScript(k, s) == Then(f.event, ScriptOf(rest));
  }

  /** The same in the text of a template, after a text without `<?`. */
  lemma CommandIsReadInText(text: string, f: Form, rest: string)
    requires NoPair(text, '<', '?') && IsForm(f, rest)
    ensures ScriptOf(text + "<?" + FormText(f) + rest)
         == if text == "" then Then(f.event, ScriptOf(rest)) else Then(AddText(text), Then(f.event, ScriptOf(rest)))
  {
    var tail := "<?" + (FormText(f) + rest);
    assert text + "<?" + FormText(f) + rest == text + tail;
    ContentIsRead(text, tail);
    assert tail[2..] == FormText(f) + rest;
    FormIsRead(f, rest);
  }

  /** `<?=query?>`, with or without blanks. */
  lemma EqualsIsEcho(q: string, before: string, after: string, rest: string)
    requires IsQuery(q) && Blank(before) && Blank(after)
    ensures ScriptOf("<?=" + before + q + after + "?>" + rest) == Then(AddEcho(q), ScriptOf(rest))
  {
    var f := Form(AddEcho(q), "", "=", before, "", after, "");
    CommandIsReadInText("", f, rest);
    EqualsGlue(before, q, after, rest);
  }

  lemma EqualsGlue(before: string, q: string, after: string, rest: string)
    ensures "" + "<?" + ("" + "=" + before + q + after + "?>" + "") + rest == "<?=" + before + q + after + "?>" + rest
  {
    assert "" + "<?" + ("" + "=" + before + q + after + "?>" + "") == "<?=" + before + q + after + "?>";
  }

  // ---------------------------------------------------------------- only forms are read

  lemma {:induction false} Unskipped(s: string) returns (blank: string)
    ensures Blank(blank) && s == blank + SkipSpace(s)
  {
    blank := "";
    if s != "" && IsSpace(s[0]) {
      var more := Unskipped(s[1..]);
      blank := [s[0]] + more;
    }
  }

  /** How a word ends: at the end of the text, before `?>`, or with a space that is taken. */
  predicate Ends(gap: string, rest: string) {
    Blank(gap) && |gap| <= 1 && (gap == "" ==> rest == "" || Ahead(rest, '?', '>'))
  }

  lemma {:induction false} WordUnread(s: string, acc: string) returns (w: string, gap: string)
    requires acc != "" || s == "" || s[0] != '='
    ensures var r := CommandWord(s, acc); r.word == acc + w && s == w + gap + r.rest && Ends(gap, r.rest)
    decreases |s|
  {
    w, gap := "", "";
    if s == "" || Ahead(s, '?', '>') {
      assert acc + "" == acc;
    } else if IsSpace(s[0]) {
      gap := [s[0]];
      assert acc + "" == acc;
    } else {
      w, gap := WordUnread(s[1..], acc + [s[0]]);
      var r := CommandWord(s, acc);
      assert acc + [s[0]] + w == acc + ([s[0]] + w);
      assert s == [s[0]] + w + gap + r.rest;
      w := [s[0]] + w;
    }
  }

  lemma {:induction false} QueryUnread(s: string) returns (gap: string)
    ensures var r := QueryPiece(s);
            s == r.word + gap + r.rest && Ends(gap, r.rest) && NoSpace(r.word) && NoPair(r.word, '?', '>')
  {
    gap := "";
    if s == "" || Ahead(s, '?', '>') {
    } else if IsSpace(s[0]) {
      gap := [s[0]];
    } else {
      var r := QueryPiece(s[1..]);
      gap := QueryUnread(s[1..]);
      ConsGlue(s, r.word, gap, r.rest);
      ConsNoPair(s[0], r.word);
    }
  }

  lemma ConsGlue(s: string, word: string, gap: string, rest: string)
    requires s != "" && s[1..] == word + gap + rest
    ensures s == [s[0]] + word + gap + rest
    ensures word != "" ==> |s| > 1 && s[1] == word[0]
  {
    assert s == [s[0]] + s[1..];
  }

  lemma ConsNoPair(c: char, word: string)
    requires NoPair(word, '?', '>') && (word != "" ==> !(c == '?' && word[0] == '>'))
    ensures NoPair([c] + word, '?', '>')
  {
  }

  lemma {:induction false} NameUnread(s: string)
    ensures var r := WordPiece(s); s == r.word + r.rest && NoSpace(r.word) && (r.rest == "" || IsSpace(r.rest[0]))
  {
    if s != "" && !IsSpace(s[0]) {
      var r := WordPiece(s[1..]);
      NameUnread(s[1..]);
      assert s == [s[0]] + r.word + r.rest;
    }
  }

  lemma {:induction false} FileUnread(s: string)
    ensures var r := UntilQuote(s);
            && (forall i | 0 <= i < |r.word| :: r.word[i] != '"')
            && (r.rest != "" ==> s == r.word + ['"'] + r.rest)
  {
    if s != "" && s[0] != '"' {
      FileUnread(s[1..]);
    }
  }

  /** What a command takes after its closing mark. */
  function LineEndTaken(k: Keyword, t: string): string {
    if k.KEcho? then t else SkipOne(SkipOne(t, '\r'), '\n')
  }

  lemma LineEndUnread(k: Keyword, e: Event, t: string) returns (eol: string)
    requires e.AddEcho? <==> k.KEcho?
    ensures t == eol + LineEndTaken(k, t) && IsLineEnd(e, eol, LineEndTaken(k, t))
  {
    eol := "";
    if !k.KEcho? && t != "" {
      if t[0] == '\n' {
        eol := "\n";
      } else if t[0] == '\r' {
        eol := if |t| > 1 && t[1] == '\n' then "\r\n" else "\r";
      }
    }
  }

  /** What follows the arguments. */
  lemma ClosingUnread(k: Keyword, e: Event, s: string) returns (trail: string, eol: string)
    requires Closing(k, s).Some? && (e.AddEcho? <==> k.KEcho?)
    ensures Blank(trail) && IsLineEnd(e, eol, Closing(k, s).value)
    ensures s == trail + ("?>" + (eol + Closing(k, s).value))
  {
    trail := Unskipped(s);
    var u := SkipSpace(s);
    eol := LineEndUnread(k, e, u[2..]);
    assert Closing(k, s) == Some(LineEndTaken(k, u[2..]));
    MarkGlue(u);
  }

  lemma MarkGlue(u: string)
    requires |u| >= 2 && u[0] == '?' && u[1] == '>'
    ensures u == "?>" + u[2..]
  {
  }

  /** The arguments of a command that is read to its end: their text, and what follows them. */
  lemma ArgumentsUnread(k: Keyword, s: string) returns (between: string, gap: string)
    requires Arguments(k, s).Done? && Closing(k, Arguments(k, s).rest).Some? && (s == "" || !IsSpace(s[0]))
    ensures var e := Arguments(k, s).value;
            && AreArguments(e, between) && Blank(between) && Blank(gap)
            && s == ArgumentsText(e, between) + gap + Arguments(k, s).rest
            && KeywordFor(e) == Some(k)
  {
    between, gap := "", "";
    match k {
      case KFor => between, gap := LoopUnread(s);
      case KInclude => IncludeUnread(s);
      case KElse => NothingUnread(s);
      case KEndFor => NothingUnread(s);
      case KEndIf => NothingUnread(s);
      case _ => gap := OneQueryUnread(k, s);
    }
  }

  lemma NothingUnread(s: string)
    ensures s == "" + "" + s
  {
  }

  lemma OneQueryUnread(k: Keyword, s: string) returns (gap: string)
    requires k.KEcho? || k.KIf? || k.KIfExist? || k.KElsif?
    requires Arguments(k, s).Done?
    ensures var e := Arguments(k, s).value;
            && AreArguments(e, "") && Blank(gap) && KeywordFor(e) == Some(k)
            && s == ArgumentsText(e, "") + gap + Arguments(k, s).rest
  {
    gap := QueryUnread(s);
    assert IsQuery(QueryPiece(s).word);
  }

  lemma IncludeUnread(s: string)
    requires Arguments(KInclude, s).Done? && Closing(KInclude, Arguments(KInclude, s).rest).Some?
    requires s == "" || !IsSpace(s[0])
    ensures var e := Arguments(KInclude, s).value;
            AreArguments(e, "") && s == ArgumentsText(e, "") + "" + Arguments(KInclude, s).rest && e.AddInclude?
  {
    FileUnread(s[1..]);
    var file := UntilQuote(s[1..]);
    IncludeGlue(s, file.word, file.rest);
  }

  lemma IncludeGlue(s: string, file: string, rest: string)
    requires s != "" && s[0] == '"' && s[1..] == file + ['"'] + rest
    ensures s == "\"" + file + "\"" + "" + rest
  {
    assert s == ['"'] + s[1..];
  }

  lemma LoopUnread(s: string) returns (between: string, gap: string)
    requires Arguments(KFor, s).Done?
    ensures var e := Arguments(KFor, s).value;
            && AreArguments(e, between) && Blank(between) && Blank(gap)
            && s == ArgumentsText(e, between) + gap + Arguments(KFor, s).rest && e.OpenLoop?
  {
    var name := WordPiece(s);
    NameUnread(s);
    between := Unskipped(name.rest);
    var t := SkipSpace(name.rest);
    gap := QueryUnread(t);
    var q := QueryPiece(t);
    LoopGlue(s, name.word, name.rest, between, t, q.word, gap, q.rest);
  }

  lemma LoopGlue(s: string, name: string, r: string, between: string, t: string, q: string, gap: string, rest: string)
    requires s == name + r && r == between + t && t == q + gap + rest
    ensures s == name + between + q + gap + rest
  {
  }

  /** The word of a command, and the blanks after it. */
  lemma CommandUnread(s: string) returns (word: string, gap: string)
    requires CommandWord(s, "").word != ""
    ensures var w := CommandWord(s, "");
            && s == word + gap + w.rest && Blank(gap)
            && if word == "=" then w.word == "echo"
               else word == w.word && (gap == "" ==> w.rest == "" || Ahead(w.rest, '?', '>'))
  {
    if s[0] == '=' {
      word, gap := "=", "";
    } else {
      word, gap := WordUnread(s, "");
    }
  }

  lemma WordsAre(word: string, k: Keyword, e: Event)
    requires KeywordOf(word) == Some(k) && KeywordFor(e) == Some(k)
    ensures IsWordOf(word, e)
  {
  }

  /** Whatever is read as a step has one of these forms. */
  lemma ReadIsForm(s: string) returns (f: Form, rest: string)
    requires CommandScript(s).Then?
    ensures IsForm(f, rest) && s == FormText(f) + rest
    ensures CommandScript(s) == Then(f.event, ScriptOf(rest))
  {
    var lead := Unskipped(s);
    var w := CommandWord(SkipSpace(s), "");
    var word, gap := CommandUnread(SkipSpace(s));
    var k := KeywordOf(w.word).value;
    var more := Unskipped(w.rest);
    f, rest := KeywordUnread(k, SkipSpace(w.rest), lead, word, gap + more);
    WordsAre(w.word, k, f.event);
    if f.gap == "" && word != "=" {
      MarkIsFirst(k, SkipSpace(w.rest));
    }
    FormGlue(f, rest, s, gap, more, SkipSpace(w.rest));
  }

  /** A command after its word and the blanks there. */
  lemma KeywordUnread(k: Keyword, s: string, lead: string, word: string, gap: string) returns (f: Form, rest: string)
    requires KeywordScript(k, s).Then? && (s == "" || !IsSpace(s[0]))
    ensures Arguments(k, s).Done? && f.event == Arguments(k, s).value && KeywordFor(f.event) == Some(k)
    ensures f.lead == lead && f.word == word && f.gap == gap
    ensures AreArguments(f.event, f.between) && Blank(f.between) && Blank(f.trail) && IsLineEnd(f.event, f.eol, rest)
    ensures s == ArgumentsText(f.event, f.between) + (f.trail + ("?>" + (f.eol + rest)))
    ensures KeywordScript(k, s) == Then(f.event, ScriptOf(rest))
  {
    var e := Arguments(k, s).value;
    var left := Arguments(k, s).rest;
    assert KeywordScript(k, s) == ClosingScript(k, e, left);
    rest := Closing(k, left).value;
    var between, after := ArgumentsUnread(k, s);
    var trail, eol := ClosingUnread(k, e, left);
    f := Form(e, lead, word, gap, between, after + trail, eol);
    ArgumentsGlue(ArgumentsText(e, between), after, trail, "?>" + (eol + rest));
  }

  lemma ArgumentsGlue(args: string, after: string, trail: string, tail: string)
    ensures args + after + (trail + tail) == args + ((after + trail) + tail)
  {
  }

  lemma FormGlue(f: Form, rest: string, s: string, gap: string, more: string, args: string)
    requires f.gap == gap + more && s == f.lead + (f.word + gap + (more + args))
    requires args == ArgumentsText(f.event, f.between) + Tail(f, rest)
    ensures s == FormText(f) + rest
  {
    FormParts(f, rest);
    assert f.word + gap + (more + args) == f.word + (f.gap + args);
  }

  /** Before `?>` there are no arguments, unless that begins the name in a `for`. */
  lemma MarkIsFirst(k: Keyword, s: string)
    requires Arguments(k, s).Done? && Ahead(s, '?', '>')
    ensures var e := Arguments(k, s).value;
            forall between :: ArgumentsText(e, between) == "" || Ahead(ArgumentsText(e, between), '?', '>')
  {
    if k.KFor? {
      assert s[1..][0] == '>';
      assert WordPiece(s).word == [s[0]] + WordPiece(s[1..]).word;
      assert WordPiece(s[1..]).word == [s[1]] + WordPiece(s[1..][1..]).word;
    }
  }

  // ---------------------------------------------------------------- the end of a template

  /** A text without a command after it is the last. */
  lemma LastTextIsRead(text: string)
    requires IsContent(text)
    ensures ScriptOf(text) == Then(AddText(text), Finish)
  {
    assert text + "" == text;
    ContentIsRead(text, "");
    assert CommandScript("") == Finish;
  }

  /** A command without a word ends the template, whatever follows it. */
  lemma EmptyCommandEnds(blank: string, rest: string)
    requires Blank(blank)
    ensures CommandScript(blank) == Finish && CommandScript(blank + ("?>" + rest)) == Finish
  {
    assert blank + "" == blank;
    BlankIsSkipped(blank, "");
    BlankIsSkipped(blank, "?>" + rest);
  }

  /** And nothing else does; whatever is neither a form nor empty is refused. */
  lemma EndIsEmptyCommand(s: string) returns (blank: string)
    requires CommandScript(s).Finish?
    ensures Blank(blank) && blank <= s && (s == blank || Ahead(s[|blank|..], '?', '>'))
  {
    blank := Unskipped(s);
    var t := SkipSpace(s);
    assert s[|blank|..] == t && blank + "" == blank;
    SkippedStays(s);
    if t != "" && !Ahead(t, '?', '>') {
      var word := CommandWord(t, "");
      WordHasLetters(t);
      if KeywordOf(word.word).Some? {
        KeywordDoesNotEnd(KeywordOf(word.word).value, SkipSpace(word.rest));
      }
    }
  }

  lemma KeywordDoesNotEnd(k: Keyword, s: string)
    ensures !KeywordScript(k, s).Finish?
  {
    if Arguments(k, s).Done? {
      assert !ClosingScript(k, Arguments(k, s).value, Arguments(k, s).rest).Finish?;
    }
  }

  lemma {:induction false} SkippedStays(s: string)
    ensures SkipSpace(s) == "" || !IsSpace(SkipSpace(s)[0])
  {
  }

  lemma WordHasLetters(s: string)
    requires s != "" && !IsSpace(s[0]) && !Ahead(s, '?', '>')
    ensures CommandWord(s, "").word != ""
  {
    if s[0] != '=' {
      var w, gap := WordUnread(s[1..], [s[0]]);
      assert "" + [s[0]] == [s[0]];
    }
  }
}
