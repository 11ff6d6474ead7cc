/** Writing a template tree in the syntax of the template language, and the steps that parsing the
    text takes: the steps of the tree, one by one. */
module TemplatePrint {
  import opened TextStream
  import opened TemplateSyntax

  // ---------------------------------------------------------------- printing

  function Spelling(k: Keyword): string {
    match k
    case KEcho => "echo"
    case KFor => "for"
    case KElse => "else"
    case KElsif => "elsif"
    case KEndFor => "endfor"
    case KEndIf => "endif"
    case KIf => "if"
    case KIfExist => "ifexist"
    case KInclude => "include"
  }

  /** What follows a command. `parse` takes the line end after every command but `echo`. */
  function After(k: Keyword): string {
    if k.KEcho? then "?>" else "?>\n"
  }

  /** A command with its arguments, each with a space after it. */
  function Tag(k: Keyword, args: string): string {
    "<? " + Spelling(k) + " " + args + After(k)
  }

  function PrintPart(p: Part): string
    decreases p, 0
  {
    match p
    case Text(content) => content
    case Echo(query) => Tag(KEcho, query + " ")
    case Include(file) => Tag(KInclude, "\"" + file + "\" ")
    case Loop(name, query, body) => Tag(KFor, name + " " + query + " ") + PrintParts(body) + Tag(KEndFor, "")
    case Logic(branches) => PrintBranches(branches, true) + Tag(KEndIf, "")
  }

  function PrintParts(ps: seq<Part>): string
    decreases ps, 1
  {
    if ps == [] then "" else PrintPart(ps[0]) + PrintParts(ps[1..])
  }

  function PrintCond(cond: Cond, first: bool): string {
    match cond
    case Truth(query) => Tag(if first then KIf else KElsif, query + " ")
    case Exists(query) => Tag(KIfExist, query + " ")
    case Otherwise => Tag(KElse, "")
  }

  function PrintBranches(bs: seq<Branch>, first: bool): string
    decreases bs, 1
  {
    if bs == [] then ""
    else PrintCond(bs[0].cond, first) + PrintParts(bs[0].body) + PrintBranches(bs[1..], false)
  }

  // ---------------------------------------------------------------- what can be printed

  /** The two characters are never next to each other. */
  predicate NoPair(s: string, a: char, b: char) {
    forall i | 0 <= i < |s| - 1 :: !(s[i] == a && s[i + 1] == b)
  }

  predicate NoSpace(s: string) {
    forall i | 0 <= i < |s| :: !IsSpace(s[i])
  }

  predicate IsQuery(s: string) { s != "" && NoSpace(s) && NoPair(s, '?', '>') }

  predicate IsName(s: string) { s != "" && NoSpace(s) }

  predicate IsContent(s: string) { s != "" && NoPair(s, '<', '?') }

  predicate IsFile(s: string) { s != "" && forall i | 0 <= i < |s| :: s[i] != '"' }

  predicate IsCond(cond: Cond, first: bool) {
    match cond
    case Truth(query) => IsQuery(query)
    case Exists(query) => first && IsQuery(query)
    case Otherwise => !first
  }

  /** A part whose words are words, with an `if` or `ifexist` first and any mixture of `elsif` and
      `else` after it. */
  ghost predicate IsPart(p: Part)
    decreases p, 0
  {
    match p
    case Text(content) => IsContent(content)
    case Echo(query) => IsQuery(query)
    case Include(file) => IsFile(file)
    case Loop(name, query, body) => IsName(name) && IsQuery(query) && IsTemplate(body)
    case Logic(branches) => branches != [] && AreBranches(branches, true)
  }

  /** Two texts in a row would be read as one. */
  ghost predicate IsTemplate(ps: seq<Part>)
    decreases ps, 1
  {
    ps == [] || (IsPart(ps[0]) && (|ps| > 1 && ps[0].Text? ==> !ps[1].Text?) && IsTemplate(ps[1..]))
  }

  ghost predicate AreBranches(bs: seq<Branch>, first: bool)
    decreases bs, 1
  {
    bs == [] || (IsCond(bs[0].cond, first) && IsTemplate(bs[0].body) && AreBranches(bs[1..], false))
  }

  // ---------------------------------------------------------------- the steps of a tree

  function Steps(p: Part): seq<Event>
    decreases p, 0
  {
    match p
    case Text(content) => [AddText(content)]
    case Echo(query) => [AddEcho(query)]
    case Include(file) => [AddInclude(file)]
    case Loop(name, query, body) => [OpenLoop(name, query)] + AllSteps(body) + [CloseLoop]
    case Logic(branches) => BranchSteps(branches, true) + [CloseLogic]
  }

  function AllSteps(ps: seq<Part>): seq<Event>
    decreases ps, 1
  {
    if ps == [] then [] else Steps(ps[0]) + AllSteps(ps[1..])
  }

  function CondStep(cond: Cond, first: bool): Event {
    if first then OpenLogic(cond) else AddBranch(cond)
  }

  function BranchSteps(bs: seq<Branch>, first: bool): seq<Event>
    decreases bs, 1
  {
    if bs == [] then []
    else [CondStep(bs[0].cond, first)] + AllSteps(bs[0].body) + BranchSteps(bs[1..], false)
  }

  function Push(evs: seq<Event>, script: Script): Script {
    if evs == [] then script else Then(evs[0], Push(evs[1..], script))
  }

  lemma {:induction false} PushConcat(a: seq<Event>, b: seq<Event>, script: Script)
    ensures Push(a + b, script) == Push(a, Push(b, script))
  {
    if a == [] {
      assert a + b == b;
    } else {
      PushConcat(a[1..], b, script);
      assert (a + b)[1..] == a[1..] + b;
    }
  }

  lemma PushOne(e: Event, script: Script)
    ensures Push([e], script) == Then(e, script)
  {
    assert Push([e][1..], script) == script;
  }

  // ---------------------------------------------------------------- reading printed pieces

  lemma {:induction false} QueryIsRead(q: string, rest: string)
    requires NoSpace(q) && NoPair(q, '?', '>')
    ensures QueryPiece(q + [' '] + rest) == Piece(q, rest)
  {
    var s := q + [' '] + rest;
    if q == [] {
      assert s[1..] == rest;
    } else {
      assert s[1..] == q[1..] + [' '] + rest;
      assert s[1] == if |q| > 1 then q[1] else ' ';
      QueryIsRead(q[1..], rest);
      assert [q[0]] + q[1..] == q;
    }
  }

  lemma {:induction false} NameIsRead(n: string, rest: string)
    requires NoSpace(n)
    ensures WordPiece(n + [' '] + rest) == Piece(n, [' '] + rest)
  {
    var s := n + [' '] + rest;
    if n == [] {
      assert s == [' '] + rest;
    } else {
      assert s[1..] == n[1..] + [' '] + rest;
      NameIsRead(n[1..], rest);
      assert [n[0]] + n[1..] == n;
    }
  }

  lemma {:induction false} FileIsRead(f: string, rest: string)
    requires forall i | 0 <= i < |f| :: f[i] != '"'
    ensures UntilQuote(f + ['"'] + rest) == Piece(f, rest)
  {
    var s := f + ['"'] + rest;
    if f == [] {
      assert s[1..] == rest;
    } else {
      assert s[1..] == f[1..] + ['"'] + rest;
      FileIsRead(f[1..], rest);
      assert [f[0]] + f[1..] == f;
    }
  }

  /** The rest of the text after a content: a command, or the end. */
  predicate EndsText(rest: string) {
    rest == [] || Ahead(rest, '<', '?')
  }

  lemma {:induction false} ContentIsRead(t: string, rest: string)
    requires NoPair(t, '<', '?') && EndsText(rest)
    ensures TextPiece(t + rest) == Piece(t, if rest == [] then [] else rest[2..])
  {
    var s := t + rest;
    if t == [] {
      assert s == rest;
    } else {
      assert s[1..] == t[1..] + rest;
      assert !Ahead(s, '<', '?');
      ContentIsRead(t[1..], rest);
      assert [t[0]] + t[1..] == t;
    }
  }

  /** The letters of a command. */
  predicate IsCommand(w: string) {
    w != "" && forall i | 0 <= i < |w| :: 'a' <= w[i] <= 'z'
  }

  lemma {:induction false} WordIsRead(w: string, acc: string, rest: string)
    requires forall i | 0 <= i < |w| :: 'a' <= w[i] <= 'z'
    ensures CommandWord(w + [' '] + rest, acc) == Piece(acc + w, rest)
    decreases |w|
  {
    var s := w + [' '] + rest;
    if w == [] {
      assert s[1..] == rest;
      assert acc + w == acc;
    } else {
      assert s[1..] == w[1..] + [' '] + rest;
      WordIsRead(w[1..], acc + [w[0]], rest);
      assert acc + [w[0]] + w[1..] == acc + w;
    }
  }

  lemma NoSpaceAhead(s: string)
    requires s == [] || !IsSpace(s[0])
    ensures SkipSpace(s) == s && SkipSpace([' '] + s) == s
  {
    assert ([' '] + s)[1..] == s;
  }

  lemma ClosingIsRead(k: Keyword, rest: string)
    ensures Closing(k, After(k) + rest) == Some(rest)
  {
    var s := After(k) + rest;
    NoSpaceAhead(s);
    if k.KEcho? {
      assert s[2..] == rest;
    } else {
      assert s[2..] == "\n" + rest;
      assert SkipOne(SkipOne("\n" + rest, '\r'), '\n') == rest;
    }
  }

  lemma SpellingIsKeyword(k: Keyword)
    ensures IsCommand(Spelling(k)) && KeywordOf(Spelling(k)) == Some(k)
  {
  }

  /** A command whose arguments are read is one step of the script. */
  lemma TagIsRead(k: Keyword, args: string, e: Event, rest: string)
    requires var tail := args + (After(k) + rest);
             && !IsSpace(tail[0])
             && Arguments(k, tail).Done? && Arguments(k, tail).value == e
             && Closing(k, Arguments(k, tail).rest) == Some(rest)
    ensures ScriptOf(Tag(k, args) + rest) == Then(e, ScriptOf(rest))
  {
    var tail := args + (After(k) + rest);
    SpellingIsKeyword(k);
    assert ClosingScript(k, e, Arguments(k, tail).rest) == Then(e, ScriptOf(rest));
    assert KeywordScript(k, tail) == Then(e, ScriptOf(rest));
    TagText(k, args, rest);
    WordTagIsRead(Spelling(k), k, tail, e, rest);
  }

  lemma TagText(k: Keyword, args: string, rest: string)
    ensures Tag(k, args) + rest == "<? " + Spelling(k) + " " + (args + (After(k) + rest))
  {
  }

  lemma WordTagIsRead(w: string, k: Keyword, tail: string, e: Event, rest: string)
    requires IsCommand(w) && KeywordOf(w) == Some(k) && tail != [] && !IsSpace(tail[0])
    requires KeywordScript(k, tail) == Then(e, ScriptOf(rest))
    ensures ScriptOf("<? " + w + " " + tail) == Then(e, ScriptOf(rest))
  {
    var command := w + [' '] + tail;
    var s := "<? " + w + " " + tail;
    assert s[2..] == [' '] + command;
    assert TextPiece(s) == Piece("", [' '] + command);
    CommandIsRead(w, k, tail);
  }

  lemma CommandIsRead(w: string, k: Keyword, tail: string)
    requires IsCommand(w) && KeywordOf(w) == Some(k) && tail != [] && !IsSpace(tail[0])
    ensures CommandScript([' '] + (w + [' '] + tail)) == KeywordScript(k, tail)
  {
    NoSpaceAhead(w + [' '] + tail);
    WordIsRead(w, "", tail);
    assert "" + w == w;
    NoSpaceAhead(tail);
  }

  lemma QueryTagIsRead(k: Keyword, q: string, e: Event, rest: string)
    requires IsQuery(q)
    requires match k
             case KEcho => e == AddEcho(q)
             case KIf => e == OpenLogic(Truth(q))
             case KIfExist => e == OpenLogic(Exists(q))
             case KElsif => e == AddBranch(Truth(q))
             case _ => false
    ensures ScriptOf(Tag(k, q + " ") + rest) == Then(e, ScriptOf(rest))
  {
    var after := After(k) + rest;
    QueryIsRead(q, after);
    assert q + " " + after == q + [' '] + after;
    ClosingIsRead(k, rest);
    TagIsRead(k, q + " ", e, rest);
  }

  lemma BareTagIsRead(k: Keyword, e: Event, rest: string)
    requires (k.KElse? && e == AddBranch(Otherwise)) || (k.KEndFor? && e == CloseLoop) || (k.KEndIf? && e == CloseLogic)
    ensures ScriptOf(Tag(k, "") + rest) == Then(e, ScriptOf(rest))
  {
    assert "" + (After(k) + rest) == After(k) + rest;
    ClosingIsRead(k, rest);
    TagIsRead(k, "", e, rest);
  }

  lemma LoopTagIsRead(n: string, q: string, rest: string)
    requires IsName(n) && IsQuery(q)
    ensures ScriptOf(Tag(KFor, n + " " + q + " ") + rest) == Then(OpenLoop(n, q), ScriptOf(rest))
  {
    var args, after := n + " " + q + " ", After(KFor) + rest;
    LoopArguments(n, q, after);
    assert args + after == n + [' '] + (q + [' '] + after);
    ClosingIsRead(KFor, rest);
    TagIsRead(KFor, args, OpenLoop(n, q), rest);
  }

  lemma LoopArguments(n: string, q: string, after: string)
    requires IsName(n) && IsQuery(q)
    ensures Arguments(KFor, n + [' '] + (q + [' '] + after)) == Done(OpenLoop(n, q), after)
  {
    QueryIsRead(q, after);
    NameIsRead(n, q + [' '] + after);
    NoSpaceAhead(q + [' '] + after);
  }

  lemma IncludeTagIsRead(f: string, rest: string)
    requires IsFile(f)
    ensures ScriptOf(Tag(KInclude, "\"" + f + "\" ") + rest) == Then(AddInclude(f), ScriptOf(rest))
  {
    var after := After(KInclude) + rest;
    var tail := "\"" + f + "\" " + after;
    FileIsRead(f, [' '] + after);
    assert tail[1..] == f + ['"'] + ([' '] + after);
    assert StringPiece(tail) == Piece(f, [' '] + after);
    NoSpaceAhead(tail);
    NoSpaceAhead(after);
    ClosingIsRead(KInclude, rest);
    TagIsRead(KInclude, "\"" + f + "\" ", AddInclude(f), rest);
  }

  // ---------------------------------------------------------------- reading a printed template

  /** The printed text of every part but a content begins with `<?`. */
  lemma {:induction false} PartsBeginWithTag(ps: seq<Part>, rest: string)
    requires IsTemplate(ps) && EndsText(rest) && (ps != [] ==> !ps[0].Text?)
    ensures EndsText(PrintParts(ps) + rest)
  {
    if ps == [] {
      assert "" + rest == rest;
    } else {
      var p := ps[0];
      if p.Logic? {
        assert PrintBranches(p.branches, true)[..2] == "<?" by {
          assert PrintCond(p.branches[0].cond, true)[..2] == "<?";
        }
      }
      assert PrintPart(p)[..2] == "<?";
      assert (PrintParts(ps) + rest)[..2] == "<?";
    }
  }

  /** Parsing the text of a template takes the steps of its tree. */
  lemma {:induction false} TemplateIsRead(ps: seq<Part>, rest: string)
    requires IsTemplate(ps) && EndsText(rest)
    ensures ScriptOf(PrintParts(ps) + rest) == Push(AllSteps(ps), ScriptOf(rest))
    decreases ps, 1
  {
    if ps == [] {
      assert "" + rest == rest;
    } else {
      TemplateIsRead(ps[1..], rest);
      if ps[0].Text? {
        PartsBeginWithTag(ps[1..], rest);
      }
      PartIsRead(ps[0], PrintParts(ps[1..]) + rest);
      var tail := PrintParts(ps[1..]) + rest;
      Assoc(PrintPart(ps[0]), PrintParts(ps[1..]), rest);
      JoinScripts(ScriptOf(PrintPart(ps[0]) + tail), ScriptOf(tail), ScriptOf(rest), Steps(ps[0]), AllSteps(ps[1..]));
    }
  }

  lemma {:induction false} PartIsRead(p: Part, rest: string)
    requires IsPart(p) && (p.Text? ==> EndsText(rest))
    ensures ScriptOf(PrintPart(p) + rest) == Push(Steps(p), ScriptOf(rest))
    decreases p, 0
  {
    match p {
      case Text(content) =>
        ContentIsRead(content, rest);
        PushOne(AddText(content), ScriptOf(rest));
        TextThenScript(content, rest);
      case Echo(q) =>
        QueryTagIsRead(KEcho, q, AddEcho(q), rest);
        PushOne(AddEcho(q), ScriptOf(rest));
      case Include(f) =>
        IncludeTagIsRead(f, rest);
        PushOne(AddInclude(f), ScriptOf(rest));
      case Loop(n, q, body) =>
        TemplateIsRead(body, Tag(KEndFor, "") + rest);
        LoopIsRead(n, q, body, rest);
      case Logic(bs) =>
        BranchesAreRead(bs, true, Tag(KEndIf, "") + rest);
        LogicIsRead(bs, rest);
    }
  }

  /** Two texts, one after the other. */
  lemma JoinScripts(whole: Script, tail: Script, rest: Script, evs: seq<Event>, evs': seq<Event>)
    requires whole == Push(evs, tail) && tail == Push(evs', rest)
    ensures whole == Push(evs + evs', rest)
  {
    PushConcat(evs, evs', rest);
  }

  lemma LoopIsRead(n: string, q: string, body: seq<Part>, rest: string)
    requires IsName(n) && IsQuery(q)
    requires var end := Tag(KEndFor, "") + rest; ScriptOf(PrintParts(body) + end) == Push(AllSteps(body), ScriptOf(end))
    ensures ScriptOf(PrintPart(Loop(n, q, body)) + rest) == Push(Steps(Loop(n, q, body)), ScriptOf(rest))
  {
    var inner, close := PrintParts(body), Tag(KEndFor, "");
    BareTagIsRead(KEndFor, CloseLoop, rest);
    LoopTagIsRead(n, q, inner + (close + rest));
    HeadIsRead(Tag(KFor, n + " " + q + " "), inner, OpenLoop(n, q), AllSteps(body), close + rest);
    Assoc(Tag(KFor, n + " " + q + " ") + inner, close, rest);
    PushConcat([OpenLoop(n, q)] + AllSteps(body), [CloseLoop], ScriptOf(rest));
    PushOne(CloseLoop, ScriptOf(rest));
  }

  /** A command that is one step, and what follows it. */
  lemma HeadIsRead(open: string, inner: string, e: Event, evs: seq<Event>, rest: string)
    requires ScriptOf(open + (inner + rest)) == Then(e, ScriptOf(inner + rest))
    requires ScriptOf(inner + rest) == Push(evs, ScriptOf(rest))
    ensures ScriptOf(open + inner + rest) == Push([e] + evs, ScriptOf(rest))
  {
    Assoc(open, inner, rest);
    PushOne(e, ScriptOf(inner + rest));
    JoinScripts(ScriptOf(open + (inner + rest)), ScriptOf(inner + rest), ScriptOf(rest), [e], evs);
  }

  lemma LogicIsRead(bs: seq<Branch>, rest: string)
    requires var end := Tag(KEndIf, "") + rest;
             ScriptOf(PrintBranches(bs, true) + end) == Push(BranchSteps(bs, true), ScriptOf(end))
    ensures ScriptOf(PrintPart(Logic(bs)) + rest) == Push(Steps(Logic(bs)), ScriptOf(rest))
  {
    var end := Tag(KEndIf, "") + rest;
    BareTagIsRead(KEndIf, CloseLogic, rest);
    assert PrintPart(Logic(bs)) + rest == PrintBranches(bs, true) + end;
    PushConcat(BranchSteps(bs, true), [CloseLogic], ScriptOf(rest));
    PushOne(CloseLogic, ScriptOf(rest));
  }

  lemma TextThenScript(t: string, rest: string)
    requires IsContent(t) && EndsText(rest)
    ensures ScriptOf(t + rest) == Then(AddText(t), ScriptOf(rest))
  {
    ContentIsRead(t, rest);
    var after := if rest == [] then [] else rest[2..];
    assert rest != [] ==> TextPiece(rest) == Piece("", after);
    assert rest == [] ==> CommandScript(after) == Finish == ScriptOf(rest);
    assert rest != [] ==> ScriptOf(rest) == CommandScript(after);
  }

  lemma {:induction false} BranchesAreRead(bs: seq<Branch>, first: bool, rest: string)
    requires AreBranches(bs, first) && Ahead(rest, '<', '?')
    ensures ScriptOf(PrintBranches(bs, first) + rest) == Push(BranchSteps(bs, first), ScriptOf(rest))
    decreases bs, 1
  {
    if bs == [] {
      assert "" + rest == rest;
    } else {
      var b, tail := bs[0], PrintBranches(bs[1..], false);
      BranchesAreRead(bs[1..], false, rest);
      BranchesBeginWithTag(bs[1..], rest);
      TemplateIsRead(b.body, tail + rest);
      BranchIsRead(b, first, tail + rest);
      var head := PrintCond(b.cond, first) + PrintParts(b.body);
      Assoc(head, tail, rest);
      JoinScripts(ScriptOf(head + (tail + rest)), ScriptOf(tail + rest), ScriptOf(rest),
                  [CondStep(b.cond, first)] + AllSteps(b.body), BranchSteps(bs[1..], false));
    }
  }

  lemma BranchIsRead(b: Branch, first: bool, tail: string)
    requires IsCond(b.cond, first) && ScriptOf(PrintParts(b.body) + tail) == Push(AllSteps(b.body), ScriptOf(tail))
    ensures ScriptOf(PrintCond(b.cond, first) + PrintParts(b.body) + tail)
         == Push([CondStep(b.cond, first)] + AllSteps(b.body), ScriptOf(tail))
  {
    CondIsRead(b.cond, first, PrintParts(b.body) + tail);
    HeadIsRead(PrintCond(b.cond, first), PrintParts(b.body), CondStep(b.cond, first), AllSteps(b.body), tail);
  }

  lemma BranchesBeginWithTag(bs: seq<Branch>, rest: string)
    requires Ahead(rest, '<', '?')
    ensures Ahead(PrintBranches(bs, false) + rest, '<', '?')
  {
    if bs != [] {
      assert PrintCond(bs[0].cond, false)[..2] == "<?";
      assert PrintBranches(bs, false)[..2] == "<?";
    } else {
      assert "" + rest == rest;
    }
  }

  lemma CondIsRead(cond: Cond, first: bool, rest: string)
    requires IsCond(cond, first)
    ensures ScriptOf(PrintCond(cond, first) + rest) == Then(CondStep(cond, first), ScriptOf(rest))
  {
    match cond {
      case Truth(q) => QueryTagIsRead(if first then KIf else KElsif, q, CondStep(cond, first), rest);
      case Exists(q) => QueryTagIsRead(KIfExist, q, CondStep(cond, first), rest);
      case Otherwise => BareTagIsRead(KElse, AddBranch(Otherwise), rest);
    }
  }
}
