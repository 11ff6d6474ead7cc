/** The text of a template: what `readText`, `readTemplateCommand` and the other readers take from
    the stream, and the sequence of steps that `Template::parse` makes of a text. */
module TemplateSyntax {
  import opened TextStream

  // ---------------------------------------------------------------- template trees

  /** `LogicQuery`, `LogicExistQuery` and `LogicElseQuery` */
  datatype Cond = Truth(query: string) | Exists(query: string) | Otherwise

  datatype Part =
    | Text(content: string)
    | Echo(query: string)
    | Include(file: string)
    | Loop(name: string, query: string, body: seq<Part>)
    | Logic(branches: seq<Branch>)

  datatype Branch = Branch(cond: Cond, body: seq<Part>)

  /** What `parse` does with a text or a command. */
  datatype Event =
    | AddText(content: string)
    | AddEcho(query: string)
    | AddInclude(file: string)
    | OpenLoop(name: string, query: string)
    | OpenLogic(cond: Cond)
    | AddBranch(cond: Cond)
    | CloseLoop
    | CloseLogic

  // ---------------------------------------------------------------- readers

  datatype Piece = Piece(word: string, rest: string)

  /** Two characters ahead. */
  predicate Ahead(s: string, a: char, b: char) {
    |s| >= 2 && s[0] == a && s[1] == b
  }

  /** `readText`: up to and including `<?`. */
  function TextPiece(s: string): (r: Piece)
    ensures |r.rest| <= |s|
  {
    if s == [] then Piece("", [])
    else if Ahead(s, '<', '?') then Piece("", s[2..])
    else
      var r := TextPiece(s[1..]);
      Piece([s[0]] + r.word, r.rest)
  }

  /** The loop of `readTemplateCommand`: a space after the word is taken, `?>` is not, and `=` at the
      start stands for `echo`. */
  function CommandWord(s: string, word: string): (r: Piece)
    ensures |r.rest| <= |s|
    ensures word == "" && r.word != "" ==> |r.rest| < |s|
    decreases |s|
  {
    if s == [] then Piece(word, [])
    else if IsSpace(s[0]) then Piece(word, s[1..])
    else if Ahead(s, '?', '>') then Piece(word, s)
    else if s[0] == '=' && word == "" then Piece("echo", s[1..])
    else CommandWord(s[1..], word + [s[0]])
  }

  /** `readWord` */
  function WordPiece(s: string): (r: Piece)
    ensures |r.rest| <= |s|
  {
    if s == [] || IsSpace(s[0]) then Piece("", s)
    else
      var r := WordPiece(s[1..]);
      Piece([s[0]] + r.word, r.rest)
  }

  /** `readQuery`: a space after the query is taken, `?>` is not. */
  function QueryPiece(s: string): (r: Piece)
    ensures |r.rest| <= |s|
  {
    if s == [] || Ahead(s, '?', '>') then Piece("", s)
    else if IsSpace(s[0]) then Piece("", s[1..])
    else
      var r := QueryPiece(s[1..]);
      Piece([s[0]] + r.word, r.rest)
  }

  /** The loop of `readString`, after the opening quote. */
  function UntilQuote(s: string): (r: Piece)
    ensures |r.rest| <= |s|
  {
    if s == [] then Piece("", [])
    else if s[0] == '"' then Piece("", s[1..])
    else
      var r := UntilQuote(s[1..]);
      Piece([s[0]] + r.word, r.rest)
  }

  /** `readString` */
  function StringPiece(s: string): (r: Piece)
    ensures |r.rest| <= |s|
  {
    if s == [] then Piece("", [])
    else if s[0] == '"' then UntilQuote(s[1..])
    else Piece("", s[1..])
  }

  // ---------------------------------------------------------------- commands

  function QueryCommand(s: string, make: string -> Event): Scan<Event> {
    var q := QueryPiece(s);
    if q.word == "" then Throw else Done(make(q.word), q.rest)
  }

  datatype Keyword = KEcho | KFor | KElse | KElsif | KEndFor | KEndIf | KIf | KIfExist | KInclude

  function KeywordOf(word: string): Option<Keyword> {
    if word == "echo" then Some(KEcho)
    else if word == "for" then Some(KFor)
    else if word == "else" then Some(KElse)
    else if word == "elsif" || word == "elif" then Some(KElsif)
    else if word == "endfor" then Some(KEndFor)
    else if word == "endif" then Some(KEndIf)
    else if word == "if" then Some(KIf)
    else if word == "ifexist" then Some(KIfExist)
    else if word == "include" then Some(KInclude)
    else None
  }

  /** The arguments of a command. */
  function Arguments(k: Keyword, s: string): (r: Scan<Event>)
    ensures r.Done? ==> |r.rest| <= |s|
  {
    match k
    case KEcho => QueryCommand(s, q => AddEcho(q))
    case KFor =>
      var name := WordPiece(s);
      if name.word == "" then Throw
      else QueryCommand(SkipSpace(name.rest), q => OpenLoop(name.word, q))
    case KElse => Done(AddBranch(Otherwise), s)
    case KElsif => QueryCommand(s, q => AddBranch(Truth(q)))
    case KEndFor => Done(CloseLoop, s)
    case KEndIf => Done(CloseLogic, s)
    case KIf => QueryCommand(s, q => OpenLogic(Truth(q)))
    case KIfExist => QueryCommand(s, q => OpenLogic(Exists(q)))
    case KInclude =>
      var file := StringPiece(SkipSpace(s));
      if file.word == "" then Throw else Done(AddInclude(file.word), file.rest)
  }

  function SkipOne(s: string, c: char): (r: string)
    ensures |r| <= |s|
  {
    if s != [] && s[0] == c then s[1..] else s
  }

  /** The closing `?>`; every command but `echo` also takes the line end after it. */
  function Closing(k: Keyword, s: string): (r: Option<string>)
    ensures r.Some? ==> |r.value| <= |s|
  {
    var t := SkipSpace(s);
    if !Ahead(t, '?', '>') then None
    else if k.KEcho? then Some(t[2..])
    else Some(SkipOne(SkipOne(t[2..], '\r'), '\n'))
  }

  // ---------------------------------------------------------------- whole texts

  /** The steps of a parse: they end with the text, or with an exception. */
  datatype Script = Then(event: Event, rest: Script) | Finish | Broken

  function AfterText(text: string, script: Script): Script {
    if text == "" then script else Then(AddText(text), script)
  }

  /** The loop of `parse`. A text without a command after it is the last. */
  function ScriptOf(s: string): Script
    decreases |s|, 1
  {
    var text := TextPiece(s);
    AfterText(text.word, CommandScript(text.rest))
  }

  /** One command after `<?`. An empty word, as at the end of the text, ends the parse. */
  function CommandScript(s: string): Script
    decreases |s|, 0
  {
    var word := CommandWord(SkipSpace(s), "");
    if word.word == "" then Finish
    else match KeywordOf(word.word)
      case None => Broken
      case Some(k) => KeywordScript(k, SkipSpace(word.rest))
  }

  function KeywordScript(k: Keyword, s: string): Script
    decreases |s|, 3
  {
    match Arguments(k, s)
    case Throw => Broken
    case Done(event, rest) => ClosingScript(k, event, rest)
  }

  function ClosingScript(k: Keyword, event: Event, s: string): Script
    decreases |s|, 2
  {
    match Closing(k, s)
    case None => Broken
    case Some(rest) => Then(event, ScriptOf(rest))
  }

  // ---------------------------------------------------------------- the reading methods

  method ReadText(istr: InStream) returns (text: string)
    requires istr.Valid()
    modifies istr
    ensures istr.Valid()
    ensures Piece(text, istr.Rest()) == TextPiece(old(istr.Rest()))
  {
    text := "";
    ghost var s := istr.Rest();
    var c := istr.Get();
    while c.Some?
      invariant istr.Valid()
      invariant c == None <==> s == []
      invariant c.Some? ==> c.value == s[0] && istr.Rest() == s[1..]
      invariant c == None ==> istr.Rest() == []
      invariant var r := TextPiece(s); Piece(text + r.word, r.rest) == TextPiece(old(istr.Rest()))
      decreases |s|
    {
      if c.value == '<' {
        var next := istr.Peek();
        if next == Some('?') {
          var _ := istr.Get();
          assert text + "" == text;
          assert istr.Rest() == s[2..];
          return;
        }
      }
      ghost var r := TextPiece(s[1..]);
      assert text + ([c.value] + r.word) == text + [c.value] + r.word;
      text := text + [c.value];
      s := istr.Rest();
      c := istr.Get();
    }
    assert text + "" == text;
  }

  method ReadWhiteSpace(istr: InStream)
    requires istr.Valid()
    modifies istr
    ensures istr.Valid()
    ensures istr.Rest() == SkipSpace(old(istr.Rest()))
  {
    var c := istr.Peek();
    while c.Some? && IsSpace(c.value)
      invariant istr.Valid()
      invariant c == if istr.Rest() == [] then None else Some(istr.Rest()[0])
      invariant SkipSpace(istr.Rest()) == SkipSpace(old(istr.Rest()))
      decreases |istr.Rest()|
    {
      var _ := istr.Get();
      c := istr.Peek();
    }
  }

  /** `putback` is modelled by looking ahead before taking the character. */
  method ReadTemplateCommand(istr: InStream) returns (command: string)
    requires istr.Valid()
    modifies istr
    ensures istr.Valid()
    ensures Piece(command, istr.Rest()) == CommandWord(SkipSpace(old(istr.Rest())), "")
  {
    ReadWhiteSpace(istr);
    command := "";
    ghost var start := istr.Rest();
    while true
      invariant istr.Valid()
      invariant CommandWord(istr.Rest(), command) == CommandWord(start, "")
      decreases |istr.Rest()|
    {
      var stop := AtClosing(istr);
      var c := istr.Peek();
      if c == None || stop {
        return;
      }
      var _ := istr.Get();
      if IsSpace(c.value) {
        return;
      }
      if c.value == '=' && command == "" {
        return "echo";
      }
      command := command + [c.value];
    }
  }

  /** Whether `?>` is ahead. */
  method AtClosing(istr: InStream) returns (yes: bool)
    requires istr.Valid()
    ensures yes <==> Ahead(istr.Rest(), '?', '>')
  {
    yes := istr.pos + 1 < |istr.text| && istr.text[istr.pos] == '?' && istr.text[istr.pos + 1] == '>';
  }

  method ReadWord(istr: InStream) returns (word: string)
    requires istr.Valid()
    modifies istr
    ensures istr.Valid()
    ensures Piece(word, istr.Rest()) == WordPiece(old(istr.Rest()))
  {
    word := "";
    ghost var s := istr.Rest();
    var c := istr.Peek();
    while c.Some? && !IsSpace(c.value)
      invariant istr.Valid() && istr.Rest() == s
      invariant c == if s == [] then None else Some(s[0])
      invariant var r := WordPiece(s); Piece(word + r.word, r.rest) == WordPiece(old(istr.Rest()))
      decreases |s|
    {
      ghost var r := WordPiece(s[1..]);
      assert word + ([c.value] + r.word) == word + [c.value] + r.word;
      var _ := istr.Get();
      word := word + [c.value];
      s := istr.Rest();
      c := istr.Peek();
    }
    assert word + "" == word;
  }

  method ReadQuery(istr: InStream) returns (query: string)
    requires istr.Valid()
    modifies istr
    ensures istr.Valid()
    ensures Piece(query, istr.Rest()) == QueryPiece(old(istr.Rest()))
  {
    query := "";
    ghost var s := istr.Rest();
    var stop := AtClosing(istr);
    var c := istr.Peek();
    while c.Some? && !stop && !IsSpace(c.value)
      invariant istr.Valid() && istr.Rest() == s
      invariant c == if s == [] then None else Some(s[0])
      invariant stop <==> Ahead(s, '?', '>')
      invariant var r := QueryPiece(s); Piece(query + r.word, r.rest) == QueryPiece(old(istr.Rest()))
      decreases |s|
    {
      ghost var r := QueryPiece(s[1..]);
      assert query + ([c.value] + r.word) == query + [c.value] + r.word;
      var _ := istr.Get();
      query := query + [c.value];
      s := istr.Rest();
      stop := AtClosing(istr);
      c := istr.Peek();
    }
    assert query + "" == query;
    if c.Some? && !stop {
      var _ := istr.Get();
    }
  }

  method ReadString(istr: InStream) returns (str: string)
    requires istr.Valid()
    modifies istr
    ensures istr.Valid()
    ensures Piece(str, istr.Rest()) == StringPiece(old(istr.Rest()))
  {
    str := "";
    var c := istr.Get();
    if c == Some('"') {
      ghost var s, start := istr.Rest(), istr.Rest();
      c := istr.Get();
      while c.Some? && c.value != '"'
        invariant istr.Valid()
        invariant c == None <==> s == []
        invariant c.Some? ==> c.value == s[0] && istr.Rest() == s[1..]
        invariant c == None ==> istr.Rest() == []
        invariant var r := UntilQuote(s); Piece(str + r.word, r.rest) == UntilQuote(start)
        decreases |s|
      {
        ghost var r := UntilQuote(s[1..]);
        assert str + ([c.value] + r.word) == str + [c.value] + r.word;
        str := str + [c.value];
        s := istr.Rest();
        c := istr.Get();
      }
      assert str + "" == str;
    }
  }

  method ReadQueryCommand(istr: InStream, make: string -> Event) returns (r: Option<Event>)
    requires istr.Valid()
    modifies istr
    ensures istr.Valid()
    ensures match QueryCommand(old(istr.Rest()), make)
            case Throw => r == None
            case Done(event, rest) => r == Some(event) && istr.Rest() == rest
  {
    var query := ReadQuery(istr);
    return if query == "" then None else Some(make(query));
  }

  /** The branches on the command in `parse`, without what they do to the part stack. */
  method ReadArguments(command: string, istr: InStream) returns (r: Option<Event>)
    requires istr.Valid()
    modifies istr
    ensures istr.Valid()
    ensures match KeywordOf(command)
            case None => r == None
            case Some(k) =>
              match Arguments(k, old(istr.Rest()))
              case Throw => r == None
              case Done(event, rest) => r == Some(event) && istr.Rest() == rest
  {
    if command == "echo" {
      r := ReadQueryCommand(istr, q => AddEcho(q));
    } else if command == "for" {
      var name := ReadWord(istr);
      if name == "" {
        return None;
      }
      ReadWhiteSpace(istr);
      r := ReadQueryCommand(istr, q => OpenLoop(name, q));
    } else if command == "else" {
      r := Some(AddBranch(Otherwise));
    } else if command == "elsif" || command == "elif" {
      r := ReadQueryCommand(istr, q => AddBranch(Truth(q)));
    } else if command == "endfor" {
      r := Some(CloseLoop);
    } else if command == "endif" {
      r := Some(CloseLogic);
    } else if command == "if" {
      r := ReadQueryCommand(istr, q => OpenLogic(Truth(q)));
    } else if command == "ifexist" {
      r := ReadQueryCommand(istr, q => OpenLogic(Exists(q)));
    } else if command == "include" {
      ReadWhiteSpace(istr);
      var file := ReadString(istr);
      r := if file == "" then None else Some(AddInclude(file));
    } else {
      r := None;
    }
  }

  /** The end of `parse`'s loop; false stands for the exception. */
  method ReadClosing(command: string, istr: InStream) returns (ok: bool)
    requires istr.Valid() && KeywordOf(command).Some?
    modifies istr
    ensures istr.Valid()
    ensures match Closing(KeywordOf(command).value, old(istr.Rest()))
            case None => !ok
            case Some(rest) => ok && istr.Rest() == rest
  {
    ReadWhiteSpace(istr);
    ok := AtClosing(istr);
    if ok {
      ghost var t := istr.Rest();
      var _ := istr.Get();
      var _ := istr.Get();
      assert istr.Rest() == t[2..];
      if command != "echo" {
        var c := istr.Peek();
        if c == Some('\r') {
          var _ := istr.Get();
        }
        c := istr.Peek();
        if c == Some('\n') {
          var _ := istr.Get();
        }
      }
    }
  }

  datatype ItemRead = OneStep(event: Event) | NoStep | StepThrows

  /** What `parse` does after a text: one command, up to its closing. */
  method ReadCommand(istr: InStream) returns (r: ItemRead)
    requires istr.Valid()
    modifies istr
    ensures istr.Valid()
    ensures CommandScript(old(istr.Rest())) ==
            match r
            case NoStep => Finish
            case StepThrows => Broken
            case OneStep(event) => Then(event, ScriptOf(istr.Rest()))
    ensures r.OneStep? ==> |istr.Rest()| < |old(istr.Rest())|
  {
    var command := ReadTemplateCommand(istr);
    if command == "" {
      return NoStep;
    }
    ReadWhiteSpace(istr);
    ghost var k, tail := KeywordOf(command), istr.Rest();
    assert k.Some? ==> CommandScript(old(istr.Rest())) == KeywordScript(k.value, tail);
    var event := ReadArguments(command, istr);
    if event == None {
      return StepThrows;
    }
    assert KeywordScript(k.value, tail) == ClosingScript(k.value, event.value, istr.Rest());
    var ok := ReadClosing(command, istr);
    return if ok then OneStep(event.value) else StepThrows;
  }
}
