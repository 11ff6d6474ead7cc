# Starfall: a verified model

A Dafny model of the parts of Starfall where something can go subtly wrong, with proofs of what they
keep. The modules follow the program:

- `JsonValue`, `JsonLexer`, `JsonParser`, `JsonHandler`, `JsonPrinter`, `JsonTrees`, `JsonWeight`,
  `JsonRoundTrip`: the JSON library. Characters are read one by one, the mutually recursive parser sends
  callbacks, and the handler builds shared nodes with a stack and a pending key. Strings follow section 7
  of RFC 8259 and numbers section 6. `JsonSpelling`, `JsonNumber`, `JsonTokens`, `JsonGrammar` and
  `JsonLayout` write its texts out without the reader and the printer, and prove both against that.
- `TemplateSyntax`, `TemplatePrint`, `TemplateBuild`, `TemplateParse`, `TemplateParser`,
  `TemplateQuery`, `TemplateRender`, `TemplateEngine`, `TemplateCache`: the template engine, from
  characters to the part stack, to rendering the parts with loop variables bound in the data object, to
  the cache. `TemplateForms` says in which forms a command can be written, `TemplateMeaning` what each
  part prints for each kind of value.
- `SyncServer`, `SyncClient`, `SyncProtocol`: entity synchronisation as a state machine.
- `Wire`, `CodecServer`, `CodecClient`, `CodecAgreement`, `Framing`: the binary packets, whose codec is
  written once in C++ and once in UnityScript; `WireLayout` says which byte stands where.
- `DynamicVar`: the second, lenient JSON of `Dynamic::Var`, with its exact grammar in `DynamicForms`.
- `Paging`: the web console with its "more" and "new" buttons.
- `Palette`, `Equipment`, `ListObject`: the appearance editor, the inventory, and lists inside script
  objects.

Code that changes state is modelled by classes and methods with loops, each proved against a function
or a step of a machine; what the source promises is proved about those. Heap structures that the
source builds with shared pointers (JSON nodes, template parts) are heap objects here, with a ghost
picture of them in which a pointer is a number.

Modelling choices. Characters of C++ strings stand for bytes. A C++ exception is `None`, `Throw`,
`Broken`, `Failed` or `false`; nothing is promised about objects left behind by one. Assertions of the
debug build are absent. The tokenizer passes over white space and tries the token kinds in their order.
The handler interface records the callbacks, which are then given to the default handler: the parser
reads nothing back from it. Of the C++ library's integer parser one thing is assumed, in the JSON parser
and in queries alike: a number beyond the limits of the type gives that limit (`JsonValue.Saturated`).
Frames, deliveries and a click with its reply are atomic steps.

Where the code and its documentation differ, the model follows the code:

- the `<% value %>` form is meant to print the value alone but always adds `%>`
  (`JsonRoundTrip.UnquotedAddsClosingMark`);
- object keys are printed without escapes, so that only trees with plain keys are read back
  (`JsonRoundTrip.RoundTrip`, `JsonRoundTrip.KeyIsReadIff`);
- a lookup can miss a change, exactly when the file was written no later than the clock of the cached
  parse (`TemplateCache.LookupIsReparseIff`);
- a loop variable that is already bound is lost after the loop (`TemplateRender.LoopTakesVariable`);
- conflicting items can both be equipped (`Equipment.ConflictIff`, `Equipment.ConflictHappens`);
- of equal parts only the first choice counts when an appearance is exported
  (`Palette.ExportIsChosenIff`, `Palette.SecondChoiceIsLost`);
- siblings with one name can be visited out of order (`ListObject.InOrderIff`, `ListObject.OutOfOrder`);
- "new" can show a row twice (`Paging.OpenOnceIff`, `Paging.NewMayRepeat`).

## Model

| member | source | states |
|---|---|---|
| `JsonRoundTrip.RoundTrip` | `Common/Source/Starfall/Stringifier.cpp:50-133` | For every tree of sorted maps with arbitrary keys, 32- and 64-bit integers, floats as any number text with a fraction or an exponent, booleans, nulls and arbitrary strings, and every indent but 1: reading the printed characters gives the tree (up to the holder of its integers) if and only if no key has a quotation mark, backslash or control character, and no string value has the form `<%...%>` or a NUL byte. |
| `JsonRoundTrip.IndentationIsInvisible` | `Common/Source/Starfall/Object.cpp:117-156` | For every tree of `RoundTrip` with plain keys, its strings faithful or not, and any two indents other than 1: the two texts read as the same tree, or are both refused; and where no string makes the text faulty, they have the same token sequence. |
| `JsonWeight.TextIsHeavy` | `Common/Source/Starfall/Parser.cpp:119-209` | For every text that is accepted, lenient cases and duplicate keys included: not counting blanks and line ends, the text has at least the weight of the tree that is read from it, in which every character that only an escape can give counts as that escape. |
| `JsonWeight.ContainerIsWeighed` | `Common/Source/Starfall/Array.cpp:112-151` | The printed text of a tree, at any indent, has exactly the weight of the tree if its keys are plain and its strings faithful, and less if not. |
| `JsonWeight.ReadBackIsKept` | `Common/Source/Starfall/Stringifier.cpp:50-133` | So a tree that comes back has only plain keys and faithful strings, however the marks in its keys and strings may pair up when they are read. |
| `JsonRoundTrip.NormalIsItself` | `Common/Source/Starfall/Parser.cpp:575-597` | The tree comes back literally, holders included, if and only if `int` holds exactly the integers strictly between the limits of `int`. |
| `JsonRoundTrip.IntMaxChangesHolder` | `Common/Source/Starfall/Parser.cpp:575-597` | The largest `int` comes back as an `Int64`: a concrete tree that is not literally its own round trip. |
| `JsonRoundTrip.UnquotedAddsClosingMark` | `Common/Source/Starfall/Stringifier.cpp:62-82` | The `<% value %>` form always leaves `%>` in the output, for every value; the value alone is never printed. |
| `JsonRoundTrip.KeyIsReadIff` | `Common/Source/Starfall/Object.cpp:117-156` | Keys are printed without escapes: a key is read back as itself, whatever follows it, if and only if it has no quotation mark, backslash or control character. |
| `JsonRoundTrip.LexContainer` | `Common/Source/Starfall/Array.cpp:112-151` | The tokens of a printed container, at any indent and whatever follows, are the tokens of its tree; or, when some string is not faithful, a fault. |
| `JsonRoundTrip.ReadTree` | `Common/Source/Starfall/Parser.cpp:565-650` | Reading the tokens of any tree gives the tree back, minus the values that print as a lone `>`, and leaves what follows. |
| `JsonRoundTrip.FaultIsRejected` | `Common/Source/Starfall/Parser.cpp:455-485` | No token stream that holds a fault is a document. |
| `JsonRoundTrip.StringBodyOfText` | `Common/Source/Starfall/Parser.cpp:119-209` | The escapes written for any text without NUL are read back as that text, up to the closing quote. |
| `JsonRoundTrip.NulIsRefused` | `Common/Source/Starfall/Parser.cpp:119-209` | A text with a NUL byte is printed with it, and the string token throws on it. |
| `JsonRoundTrip.UnquotedIsFault` | `Common/Source/Starfall/Stringifier.cpp:62-82` | What a `<%...%>` string prints makes the token stream faulty, for every such string but `<%>`, whatever follows. |
| `JsonRoundTrip.LexString` | `Common/Source/Starfall/Stringifier.cpp:62-82` | What any string value prints is lexed as that string if it is faithful; `<%>` as one invalid token `>`; every other one as a fault. |
| `JsonRoundTrip.PrintAndLoad` | `Common/Source/Starfall/Array.cpp:112-151` | Printing with the stream methods, parsing with the parser class and feeding the handler class gives heap nodes that hold the same tree, if and only if every key is plain and every string is faithful. |
| `JsonParser.DocumentBuilds` | `Common/Source/Starfall/DefaultHandler.cpp:58-152` | For every token sequence the parser accepts, lenient cases included: it accepts exactly what the recursive reading accepts, the handler never looks at an empty stack, its stack ends empty, and the nodes it built are the tree of the recursive reading. |
| `JsonParser.HeightIsNesting` | `Common/Source/Starfall/DefaultHandler.cpp:58-152` | At every event of every run the stack is as high as the events before it are nested. |
| `JsonParser.ValueBuilds` | `Common/Source/Starfall/Parser.cpp:565-650` | From any sound store, the events of a value attach exactly its tree to the open container and change nothing else that can be reached. |
| `JsonParser.ReadValueIsSorted` | `Common/Source/Starfall/Parser.cpp:565-650` | Whatever is read has its objects sorted by key, duplicates merged. |
| `JsonParser.IntegerIsTested` | `Common/Source/Starfall/Parser.cpp:575-597` | The test on the saturated value: a literal strictly between the limits of `int` is held as an `int`, any other that fits as an `Int64`, and the rest throw. |
| `JsonParser.Parser.Parse` | `Common/Source/Starfall/Parser.cpp:455-485` | The parser class sends exactly the events of the grammar, and throws exactly where the grammar rejects. |
| `JsonParser.Parser.ReadObject` | `Common/Source/Starfall/Parser.cpp:488-504` | The callbacks of an object: start, its rows, end; the tokens left. |
| `JsonParser.Parser.ReadRow` | `Common/Source/Starfall/Parser.cpp:507-562` | One call of `readRow`: its callbacks, whether it asks for another row, whether it throws, for a first and a later call. |
| `JsonParser.Parser.ReadElements` | `Common/Source/Starfall/Parser.cpp:672-698` | One call of `readElements`: its callbacks, and whether it asks for another element. |
| `JsonParser.Parser.ReadArray` | `Common/Source/Starfall/Parser.cpp:653-669` | The callbacks of an array. |
| `JsonParser.Parser.ReadValue` | `Common/Source/Starfall/Parser.cpp:565-650` | The callbacks of a value, for every kind of token. |
| `JsonParser.Parser.NextToken` | `Common/Source/Starfall/Parser.cpp:444-452` | The next token of the text and the text after it; every token takes at least one character. |
| `JsonParser.Load` | `Common/Source/Starfall/Parser.cpp:455-485` | For every text: accepted exactly when the recursive reading accepts it, and the handler then holds that tree. |
| `JsonHandler.Handler.SetValue` | `Common/Source/Starfall/DefaultHandler.cpp:136-152` | The container on top takes the value and nothing else changes; an object uses up the pending key. |
| `JsonHandler.Handler.StartContainer` | `Common/Source/Starfall/DefaultHandler.cpp:58-122` | A new node, attached to the open container or made the result, and pushed. |
| `JsonHandler.Handler.Handle` | `Common/Source/Starfall/DefaultHandler.cpp:58-152` | Each callback does to the nodes what one step does to their picture. |
| `JsonHandler.Handler.HandleAll` | `Common/Source/Starfall/DefaultHandler.cpp:58-152` | Any run of callbacks does to the nodes what the run does to their picture. |
| `JsonHandler.FieldTreesOfInsert` | `Common/Source/Starfall/DefaultHandler.cpp:136-152` | Setting a field of a node sets that field of the tree read off it. |
| `JsonHandler.TreeFrame` | `Common/Source/Starfall/DefaultHandler.cpp:136-152` | The tree read off a node depends only on that node and later ones. |
| `JsonHandler.KeyIsUsedUp` | `Common/Source/Starfall/DefaultHandler.cpp:136-152` | A value uses up the pending key in an object and not in an array. |
| `JsonLexer.FinishString` | `Common/Source/Starfall/Parser.cpp:119-209` | The string token: text, escapes, and each way to throw. |
| `JsonLexer.ReadUnicodeEscape` | `Common/Source/Starfall/Parser.cpp:166-201` | A `\u` escape, with surrogate pairs and each way to throw. |
| `JsonLexer.DecodeUnicode` | `Common/Source/Starfall/Parser.cpp:218-243` | Four hexadecimal digits. |
| `JsonLexer.TryStartNumber` | `Common/Source/Starfall/Parser.cpp:302-346` | What begins a number token, with a leading zero, a sign, or neither. |
| `JsonLexer.FinishNumber` | `Common/Source/Starfall/Parser.cpp:349-416` | The rest of a number, its fraction and its exponent. |
| `JsonLexer.FinishKeyword` | `Common/Source/Starfall/Parser.cpp:273-282` | A keyword takes all letters. |
| `JsonLexer.ReadToken` | `Common/Source/Starfall/Parser.cpp:444-452` | White space is passed over and the token kinds are tried in their order. |
| `JsonSpelling.SpelledIsRead` | `Common/Source/Starfall/Parser.cpp:119-209` | Every spelling of a string is read as its characters up to the closing mark: raw characters, the eight short escapes, `\u` with four hexadecimal digits in either case as the low byte of the code, and surrogate pairs as the low byte of their code point. |
| `JsonSpelling.ReadIsSpelled` | `Common/Source/Starfall/Parser.cpp:119-209` | And nothing else is: whatever the string token takes is spelled in these ways, so that all other texts throw. |
| `JsonNumber.NumberIsRead` | `Common/Source/Starfall/Parser.cpp:302-416` | Every number with an optional sign, a whole part and any of the fractions and exponents that the loop takes is one token with its whole text. |
| `JsonNumber.NumberIsWritten` | `Common/Source/Starfall/Parser.cpp:302-416` | And nothing else is: every number token has this form and ends before what cannot belong to a number. |
| `JsonTokens.BlankIsPassedOver` | `Common/Source/Starfall/Parser.cpp:444-452` | The six blanks are passed over before a token. |
| `JsonTokens.SeparatorIsToken` | `Common/Source/Starfall/Parser.cpp:66-84` | Each separator is a token of its own. |
| `JsonTokens.ApostropheThrows` | `Common/Source/Starfall/Parser.cpp:79-82` | An apostrophe throws. |
| `JsonTokens.StringIsToken` | `Common/Source/Starfall/Parser.cpp:119-209` | A quotation mark begins a string token with the characters that are spelled. |
| `JsonTokens.OtherStringThrows` | `Common/Source/Starfall/Parser.cpp:119-209` | A quotation mark with no spelled text up to a closing mark throws. |
| `JsonTokens.WordIsToken` | `Common/Source/Starfall/Parser.cpp:263-282` | A keyword is all letters in a row. |
| `JsonTokens.NumberOrThrow` | `Common/Source/Starfall/Parser.cpp:302-416` | What begins like a number is a number token or throws; a digit after a leading zero throws. |
| `JsonTokens.OtherIsInvalid` | `Common/Source/Starfall/Parser.cpp:444-452` | Any other character is an invalid token, a minus sign with no digit after it included. |
| `JsonTokens.CharIsPrinted` | `Common/Source/Starfall/Stringifier.cpp:84-126` | What is printed for each character of a quoted string, by a table: the seven short escapes, `\u` and four digits for other control characters, and all else as it is. |
| `JsonTokens.TextIsPrinted` | `Common/Source/Starfall/Stringifier.cpp:84-126` | The characters are printed one after the other. |
| `JsonGrammar.DocumentIsRead` | `Common/Source/Starfall/Parser.cpp:455-698` | The lenient grammar, written out: containers with or without commas, with ignored tokens and duplicate keys, are read as the tree that is stated. |
| `JsonGrammar.DocumentIsWritten` | `Common/Source/Starfall/Parser.cpp:455-698` | And nothing else is a document. |
| `JsonLayout.TreeIsLaidOut` | `Common/Source/Starfall/Object.cpp:117-156` | The lines of a tree printed with an indent of at least two: which text stands on which line and how far in. |
| `JsonLayout.TreeIsCompact` | `Common/Source/Starfall/Array.cpp:112-151` | The characters of a tree printed with indent 0. |
| `JsonPrinter.Stringify` | `Common/Source/Starfall/Stringifier.cpp:50-133` | What is appended for any value. |
| `JsonPrinter.WriteString` | `Common/Source/Starfall/Stringifier.cpp:62-126` | What is appended for a string, quoted or not. |
| `JsonPrinter.StringifyObject` | `Common/Source/Starfall/Object.cpp:117-156` | What is appended for an object at an indent. |
| `JsonPrinter.StringifyArray` | `Common/Source/Starfall/Array.cpp:112-151` | What is appended for an array at an indent. |
| `JsonValue.InsertKeepsSorted` | `Common/Include/Poco/JSON/Object.h:184-187` | Setting a key keeps the map sorted, adds at most that key and drops none. |
| `JsonValue.GetAfterInsert` | `Common/Include/Poco/JSON/Object.h:184-187` | Setting a key gives it the value; every other key keeps its own. |
| `JsonValue.IntTextIsCanonical` | `Common/Source/Starfall/Stringifier.cpp:127-132` | The text of an integer is a JSON integer and reads back as that integer. |
| `JsonValue.SaturatedIsNearest` | `Common/Source/Starfall/Parser.cpp:575-597` | Of the 32-bit numbers the parser gives the one nearest to the literal. |
| `TemplateParse.ParseUndoesPrint` | `Common/Source/Starfall/Template.cpp:405-601` | For every template tree (texts, echo, include, nested for, if or ifexist with elsif and else branches): parsing its printed characters gives the same tree and an empty part stack. |
| `TemplateParse.ParsedIsPrintable` | `Common/Source/Starfall/Template.cpp:405-601` | For every text that the parser accepts, with blocks left open or not: its tree can be printed, and printing and parsing give that tree back. |
| `TemplateParse.ReachedStands` | `Common/Source/Starfall/Template.cpp:443-556` | In every reachable state the stack has an even height and alternates containers and their open blocks, the current part is the open loop or the last branch of the open if, and the steps taken can be read off the tree. |
| `TemplateParse.ClosedIffSteps` | `Common/Source/Starfall/Template.cpp:461-556` | A sequence of texts and commands is accepted with every block closed, and builds a tree, if and only if it is the sequence of that tree. |
| `TemplateParse.UnclosedAsClosed` | `Common/Source/Starfall/Template.cpp:412-426` | A parse that ends inside blocks has built the tree of the text with the missing end commands. |
| `TemplateParse.PrintIsInjective` | `Common/Source/Starfall/Template.cpp:405-601` | Two templates with the same text are the same. |
| `TemplateParse.ScriptIsOk` | `Common/Source/Starfall/Template.cpp:604-717` | Whatever is read has non-empty queries, names and file names of the shapes that can be written, and never two texts in a row. |
| `TemplateBuild.StepStands` | `Common/Source/Starfall/Template.cpp:431-571` | Every step keeps the relation between the parts on the heap and the open tree they mean, and throws exactly when its block is not the innermost open one. |
| `TemplateBuild.StackIsEven` | `Common/Source/Starfall/Template.cpp:461-556` | The stack has two entries for each open block, and the current part is never the if block itself. |
| `TemplateBuild.StackKept` | `Common/Source/Starfall/Template.cpp:412-418` | What is done to the current part leaves all open blocks as they are. |
| `TemplateBuild.StepKeepsTidy` | `Common/Source/Starfall/Template.cpp:253-291` | Only if blocks have conditions, one for each branch, after every step. |
| `TemplateBuild.AddedToLogic` | `Common/Source/Starfall/Template.cpp:262-266` | A part that is added to an if block directly becomes an else branch. |
| `TemplateParser.Template.Parse` | `Common/Source/Starfall/Template.cpp:405-601` | The parse loop over the stream: it throws exactly when the steps of the text do, and otherwise leaves the parts that they build. |
| `TemplateParser.Template.Handle` | `Common/Source/Starfall/Template.cpp:431-571` | One text or command: the new parts, stack and current part, or the exception. |
| `TemplateParser.Template.HandleBranch` | `Common/Source/Starfall/Template.cpp:461-500` | `else` and `elsif` on the parts and the stack, and the exception without an open if block on top. |
| `TemplateParser.Template.HandleClose` | `Common/Source/Starfall/Template.cpp:501-534` | `endfor` and `endif` on the parts and the stack, and the exception without the matching block on top. |
| `TemplateParser.Template.ParseCommand` | `Common/Source/Starfall/Template.cpp:423-599` | One command with its arguments and its closing mark. |
| `TemplateParser.MultiPart.AddPart` | `Common/Source/Starfall/Template.cpp:117-120` | A part is appended; an if block takes it as an else branch. |
| `TemplatePrint.TemplateIsRead` | `Common/Source/Starfall/Template.cpp:405-601` | Parsing the text of a template, before any other text, takes the steps of its tree one by one. |
| `TemplatePrint.ContentIsRead` | `Common/Source/Starfall/Template.cpp:604-623` | A text without `<?` is read whole. |
| `TemplatePrint.QueryIsRead` | `Common/Source/Starfall/Template.cpp:672-691` | A query without white space and `?>` is read whole, with the space after it. |
| `TemplateSyntax.ReadText` | `Common/Source/Starfall/Template.cpp:604-623` | A text up to `<?`. |
| `TemplateSyntax.ReadTemplateCommand` | `Common/Source/Starfall/Template.cpp:626-656` | The word of a command, with `=` for echo and `?>` left in place. |
| `TemplateSyntax.ReadWord` | `Common/Source/Starfall/Template.cpp:659-669` | A word up to white space. |
| `TemplateSyntax.ReadQuery` | `Common/Source/Starfall/Template.cpp:672-691` | A query up to white space or `?>`. |
| `TemplateSyntax.ReadWhiteSpace` | `Common/Source/Starfall/Template.cpp:694-701` | White space is passed over. |
| `TextStream.SpacesAre` | `Common/Source/Starfall/Template.cpp:694-701` | White space is these six characters. |
| `TemplateSyntax.ReadString` | `Common/Source/Starfall/Template.cpp:704-717` | A quoted file name. |
| `TemplateSyntax.ReadArguments` | `Common/Source/Starfall/Template.cpp:431-575` | The arguments of each command, and when they are missing. |
| `TemplateSyntax.ReadClosing` | `Common/Source/Starfall/Template.cpp:577-599` | The closing mark, and the line end that all commands but echo take with it. |
| `TemplateSyntax.ReadCommand` | `Common/Source/Starfall/Template.cpp:423-599` | One command is one step of the text; an empty word ends the parse. |
| `TemplateForms.FormIsRead` | `Common/Source/Starfall/Template.cpp:423-601` | Every way to write a command, with any blanks or none before the closing mark, `elif` for `elsif`, and each line end or none after it, is its step, and the text goes on after it. |
| `TemplateForms.CommandIsReadInText` | `Common/Source/Starfall/Template.cpp:412-426` | The same in the text of a template: the text before it, then the command. |
| `TemplateForms.EqualsIsEcho` | `Common/Source/Starfall/Template.cpp:644-648` | `<?=query?>`, with or without blanks, is an echo of the query, and takes no line end. |
| `TemplateForms.ReadIsForm` | `Common/Source/Starfall/Template.cpp:423-601` | And nothing else is a step: whatever is read as one has one of these forms. |
| `TemplateForms.LastTextIsRead` | `Common/Source/Starfall/Template.cpp:604-623` | A text without a command after it is the last. |
| `TemplateForms.EmptyCommandEnds` | `Common/Source/Starfall/Template.cpp:423-430` | A command without a word ends the template, whatever follows it. |
| `TemplateForms.EndIsEmptyCommand` | `Common/Source/Starfall/Template.cpp:423-430` | Nothing else does; whatever is neither a form nor empty is refused. |
| `TemplateQuery.FindFollowsPath` | `Common/Source/Starfall/Query.cpp:86-144` | A path of names and indexes whose steps all exist leads to its value, for every value. |
| `TemplateQuery.FindValue` | `Common/Source/Starfall/Query.cpp:86-144` | The three loops of `find`: tokens, matches and indexes, for every value and path. |
| `TemplateQuery.ReadIndexes` | `Common/Source/Starfall/Query.cpp:94-116` | The name and the numbers in brackets of one token. |
| `TemplateMeaning.FindIsReach` | `Common/Source/Starfall/Query.cpp:86-144` | Whatever the data, found or not: the text of a path leads where its names and indexes lead, one hop at a time. |
| `TemplateMeaning.LookupIsReach` | `Common/Source/Starfall/Query.cpp:86-144` | If all steps of a path exist, it leads to the value at their end. |
| `TemplateMeaning.LookupFails` | `Common/Source/Starfall/Query.cpp:86-144` | And the only other case is a step that does not exist: not an object, no such key, not an array or no such index. |
| `TemplateRender.RenderRefines` | `Common/Source/Starfall/Template.cpp:297-316` | With loop variables that are no keys of the data and differ in nested loops: rendering with in-place binding prints what evaluation in an extended environment prints, and leaves the data as they were. |
| `TemplateRender.PartsLeave` | `Common/Source/Starfall/Template.cpp:297-316` | With no condition on names: rendering leaves every key of the data but the variables of the loops that ran, which are gone. |
| `TemplateRender.DataUnchangedIff` | `Common/Source/Starfall/Template.cpp:297-316` | The data are unchanged if and only if no loop that ran has a key of them as its variable. |
| `TemplateRender.LoopTakesVariable` | `Common/Source/Starfall/Template.cpp:305-314` | A loop over nothing, with a variable that is already bound, takes it away: what follows prints nothing where its meaning is the old value. |
| `TemplateRender.FirstTrueBranch` | `Common/Source/Starfall/Template.cpp:268-279` | Exactly the first branch whose condition holds is rendered, and none if there is none. |
| `TemplateMeaning.EchoPrints` | `Common/Source/Starfall/Template.cpp:146-155` | What an echo of a path prints for each kind of value that the path leads to. |
| `TemplateMeaning.TextPrints` | `Common/Source/Starfall/Template.cpp:86-100` | A text prints itself and leaves the data. |
| `TemplateMeaning.IfChooses` | `Common/Source/Starfall/Template.cpp:173-199` | `if` with `else`, by the value that the path leads to: which values choose which body. |
| `TemplateMeaning.IfExistChooses` | `Common/Source/Starfall/Template.cpp:217-223` | `ifexist` with `else`: the second body exactly if the path leads to nothing. |
| `TemplateMeaning.LoopMeans` | `Common/Source/Starfall/Template.cpp:303-313` | A loop over a path that leads to an array means its body once for each item, from the first to the last, each with the variable bound to its item; over anything else it means nothing. |
| `TemplateMeaning.LoopDoes` | `Common/Source/Starfall/Template.cpp:303-313` | The same for rendering in place: each round on the data that the round before left, and the variable removed at the end. |
| `TemplateMeaning.RenderConcat` | `Common/Source/Starfall/Template.cpp:122-128` | Parts in a row print in a row. |
| `TemplateEngine.ParseAndRender` | `Common/Source/Starfall/Template.cpp:405-426` | For every text and data: parsing with the class and rendering the parts that the parse left on the heap prints exactly what the tree of the text does and leaves the data as that tree does; it fails exactly if the text has no tree. |
| `TemplateEngine.PrintAndRender` | `Common/Source/Starfall/Template.cpp:405-601` | For every template tree: parsing its text with the class and rendering the parts prints what the template means, and leaves the data as they were, if loop variables are no keys of the data and differ where loops nest. |
| `TemplateEngine.RenderTemplate` | `Common/Source/Starfall/Template.cpp:720-723` | Rendering the root part of a parsed template is rendering its tree. |
| `TemplateEngine.RenderMulti` | `Common/Source/Starfall/Template.cpp:122-128` | The parts on the heap one after the other, on a mutable data object and an output stream. |
| `TemplateEngine.RenderSimple` | `Common/Source/Starfall/Template.cpp:86-155` | A text as it is; an echo as the text of what its query finds. |
| `TemplateEngine.RenderLogic` | `Common/Source/Starfall/Template.cpp:268-279` | Exactly the part of the first branch that applies is rendered, on the heap. |
| `TemplateEngine.BranchTaken` | `Common/Source/Starfall/Template.cpp:268-279` | The number of the first condition that applies is the number of the branch that is rendered. |
| `TemplateEngine.RenderLoopNode` | `Common/Source/Starfall/Template.cpp:297-316` | The loop over the array, binding its variable in the data object and removing it at the end. |
| `TemplateEngine.RenderItems` | `Common/Source/Starfall/Template.cpp:305-312` | The body once for each item, each time on the object that the round before left. |
| `TemplateEngine.ParsesIff` | `Common/Source/Starfall/Template.cpp:405-426` | The parser accepts a text exactly if the text has a tree, and then it has only one. |
| `TemplateRender.Apply` | `Common/Source/Starfall/Template.cpp:173-241` | The conditions of if, ifexist and else. |
| `TemplateCache.LookupIsReparseIff` | `Common/Source/Starfall/TemplateCache.cpp:66-144` | After every run of writes, deletions and lookups on any clock: a lookup gives exactly what parsing the file as it is now gives, errors included, if and only if the last action on the file was not a write with a time up to the parse time of a cached template that differs from the new content. |
| `TemplateCache.LookupIsReparse` | `Common/Source/Starfall/TemplateCache.cpp:66-144` | So on a clock that moves between actions every lookup is a fresh parse. |
| `TemplateCache.SameTickIsStale` | `Common/Source/Starfall/TemplateCache.cpp:115-118` | And on a clock that stands still a write right after a lookup is not seen. |
| `TemplateCache.CacheIsParsed` | `Common/Source/Starfall/TemplateCache.cpp:88-139` | On any clock the cache holds only templates that parsed without an exception, from texts their files have had. |
| `TemplateCache.Cache.GetTemplate` | `Common/Source/Starfall/TemplateCache.cpp:66-144` | The lookup with its reload rule. |
| `SyncServer.Player.ObjectsData` | `Server/Source/Starfall/Receive.cpp:133-170` | The nested loops over keys and ids: the exact create, destroy and transform lists, the echoed state, and empty queues afterwards. |
| `SyncServer.Player.CompareIds` | `Server/Source/Starfall/Receive.cpp:147-158` | The inner loop: the entity state, and what it queues. |
| `SyncServer.Player.CreateEntity` | `Common/Source/Starfall/Player.cpp:61-73` | An entity is queued exactly if it exists and is in range. |
| `SyncServer.Player.TransformEntity` | `Common/Source/Starfall/Player.cpp:52-59` | An entity is queued exactly if it exists. |
| `SyncServer.CreatesAre` | `Server/Source/Starfall/Receive.cpp:145-164` | The creates are, each once, the keys in range that the client lacks, and none at all if any of its ids is stale. |
| `SyncServer.DestroyCount` | `Server/Source/Starfall/Receive.cpp:149-152` | Each stale id is queued once per key for each of its occurrences, and no other id is. |
| `SyncServer.TransformCount` | `Server/Source/Starfall/Receive.cpp:154-157` | The ids that both sides have are transformed, as often as the client has them. |
| `SyncServer.EmptyReplyIff` | `Server/Source/Starfall/Receive.cpp:133-170` | A reply is empty if and only if no id is stale and nothing in range is missing. |
| `SyncServer.ReplyIsInOrder` | `Server/Source/Starfall/Receive.cpp:133-170` | The whole reply in its order: the state comes back, the missing keys in range come in the order of the keys unless an id is stale, and the stale ids come in the order of the ids once for each key. |
| `SyncServer.TransformsInOrder` | `Server/Source/Starfall/Receive.cpp:154-157` | The transforms in their order: key by key, each as often as the client has it. |
| `SyncServer.NearOnAxes` | `Common/Source/Starfall/Player.cpp:61-73` | What is away along one axis is near exactly if it is within the clip distance; and whatever is near is within it along every axis. |
| `SyncServer.NearIff` | `Common/Source/Starfall/Player.cpp:61-73` | Near means there, and a distance of at most the clip distance in space. |
| `SyncProtocol.Converges` | `Server/Source/Starfall/Receive.cpp:133-170` | On every schedule of frames, answers and arrivals, while the entities stay as they are: from the second answer on the client settles on the ids it had that the server knows, and those in range; and these are the ids in its list whenever nothing is under way to it and its queues are drained. |
| `SyncProtocol.ConvergesInRange` | `Server/Source/Starfall/Receive.cpp:133-170` | The same in space: those in range are the entities within the clip distance of the request of the place of the own entity. |
| `SyncProtocol.ReconcileTwice` | `Server/Source/Starfall/Receive.cpp:147-160` | Two answers reach the target, a third changes nothing, and one is enough if and only if no id is stale or nothing in range is missing. |
| `SyncProtocol.TargetIsReached` | `Client/Assets/Scenes/WorldScene/WorldScript.js:654-797` | After any legal run since the login, with entities joining and leaving in it: eight more steps on a scene that stays as it is leave nothing under way and the client with exactly the ids it had that the server knows, and those in range. |
| `SyncProtocol.TwoRoundsAreAnswered` | `Client/Assets/Scenes/WorldScene/WorldScript.js:654-797` | Progress: from every reachable state and for every scene, arrival, due frame, answer and frame, twice, give two answers, drained queues and a flag that is up. |
| `SyncProtocol.RoundIsAnswered` | `Client/Assets/Scenes/WorldScene/WorldScript.js:654-672` | Each such round has exactly one answer. |
| `SyncProtocol.RequestIsMade` | `Client/Assets/Scenes/WorldScene/WorldScript.js:654-672` | Whatever is under way, after an arrival and a due frame a request is under way. |
| `SyncProtocol.AnswerInOrder` | `Server/Source/Starfall/Receive.cpp:133-170` | The whole answer to a request, in its order, with the mode of each entity. |
| `SyncProtocol.AlwaysSound` | `Client/Assets/Scenes/WorldScene/WorldScript.js:654-672` | Over every run, with entities joining and leaving between any two steps: the flag, the requests and the replies under way are one in all, no two objects have one session id, and the own entity is in the list. |
| `SyncProtocol.OwnIsNeverRemoved` | `Client/Assets/Scenes/WorldScene/WorldScript.js:778-781` | The client's own entity is never removed, whatever the server's keys are. |
| `SyncProtocol.StepKeeps` | `Client/Assets/Scenes/WorldScene/WorldScript.js:788-797` | Every frame, answer and arrival keeps the invariant. |
| `SyncProtocol.RunSettles` | `Client/Assets/Scenes/WorldScene/WorldScript.js:733-797` | What the client will show once everything has arrived changes only with an answer, by one reconciliation each. |
| `SyncClient.DestroyAllIs` | `Client/Assets/Scenes/WorldScene/WorldScript.js:769-786` | Without twins in the list, draining the destroy queue removes its ids and nothing else, but for the own entity. |
| `SyncClient.CreateAllIs` | `Client/Assets/Scenes/WorldScene/WorldScript.js:733-767` | New ids are added, and the list stays without twins. |
| `SyncClient.TwinSurvives` | `Client/Assets/Scenes/WorldScene/WorldScript.js:776-783` | Of two neighbours with one id the removing loop passes over the second. |
| `SyncClient.FrameSends` | `Client/Assets/Scenes/WorldScene/WorldScript.js:654-672` | What a frame sends: with the timer due, the flag up and the own entity there, one request with state 1, the distance and the ids of the whole list after draining, and the flag is lowered; otherwise nothing. |
| `SyncClient.DestroyedInOrder` | `Client/Assets/Scenes/WorldScene/WorldScript.js:769-786` | Destroying takes exactly the entities of the queue out of the list but never the own one, and the others stay as they are in their order. |
| `SyncClient.OneIsCreated` | `Client/Assets/Scenes/WorldScene/WorldScript.js:733-767` | What one create makes, by its mode and by whether there is an own entity. |
| `SyncClient.LastIsCreatedFirst` | `Client/Assets/Scenes/WorldScene/WorldScript.js:733-767` | The create queue is drained from its end. |
| `SyncClient.ReplyIsTaken` | `Client/Assets/Standard Assets/Network.js:514-577` | A reply sets the flag and joins the queues at their ends; the list waits for the next frame. |
| `SyncClient.World.UpdateDestroyEntities` | `Client/Assets/Scenes/WorldScene/WorldScript.js:769-786` | The drain of the destroy queue, from its end. |
| `SyncClient.World.RemoveEntity` | `Client/Assets/Scenes/WorldScene/WorldScript.js:776-783` | The loop that removes from the list it runs over. |
| `SyncClient.World.UpdateCreateEntities` | `Client/Assets/Scenes/WorldScene/WorldScript.js:733-767` | The drain of the create queue; the first entity of mode 2 is the own one. |
| `SyncClient.World.UpdateSession` | `Client/Assets/Scenes/WorldScene/WorldScript.js:654-672` | A request with the ids of all objects, exactly if the flag is up, which it lowers. |
| `SyncClient.World.Update` | `Client/Assets/Scenes/WorldScene/WorldScript.js:788-797` | A frame: destroys, creates, then perhaps a request. |
| `SyncClient.World.ObjectsReply` | `Client/Assets/Standard Assets/Network.js:571-577` | A reply raises the flag and fills both queues. |
| `CodecAgreement.LoginToClient` | `Common/Include/Starfall/BufferImpl.h:163-169` | The client reads the login that the server wrote, every byte of it, with its strings in ASCII; they are unchanged if and only if they are ASCII. |
| `CodecAgreement.LoginToServer` | `Client/Assets/Standard Assets/Network.js:420-428` | The server reads the login that the client wrote, every byte of it. |
| `CodecAgreement.CreatesToClient` | `Common/Include/Starfall/BufferImpl.h:191-202` | The client reads the create list that the server wrote, and leaves what follows. |
| `CodecAgreement.DestroysToClient` | `Common/Include/Starfall/BufferImpl.h:183-188` | The client reads the destroy list that the server wrote, and leaves what follows. |
| `CodecAgreement.TransformsToClient` | `Common/Include/Starfall/BufferImpl.h:217-223` | The client reads the transform list that the server wrote, paths within entities, every byte. |
| `CodecAgreement.UpdateToClient` | `Common/Include/Starfall/BufferImpl.h:242-246` | The client reads the objects update that the server wrote: the state, both lists and every byte. |
| `CodecAgreement.PathToServer` | `Client/Assets/Standard Assets/Network.js:443-458` | The server reads the path that the client wrote, every byte. |
| `CodecAgreement.ObjectsToServer` | `Client/Assets/Standard Assets/Network.js:465-475` | The server reads the objects packet that the client wrote, every byte. |
| `WireLayout.NumberLayout` | `Common/Source/Starfall/BufferBase.cpp:109-115` | The byte of each place of a number, by its value. |
| `WireLayout.StringLayout` | `Common/Source/Starfall/BufferBase.cpp:117-120` | Where the count and each character of a string stand. |
| `WireLayout.LoginLayout` | `Common/Include/Starfall/BufferImpl.h:162-169` | At which offsets the five fields of a login stand. |
| `WireLayout.CreateLayout` | `Common/Include/Starfall/BufferImpl.h:190-202` | At which offsets the fields of a create struct stand, position before orientation. |
| `WireLayout.NodeLayout` | `Common/Include/Starfall/BufferImpl.h:216-223` | At which offsets the action and the seven numbers of a path node stand. |
| `WireLayout.TransformLayout` | `Common/Include/Starfall/BufferImpl.h:216-223` | At which offsets the id, the count and the nodes of a transform stand. |
| `WireLayout.ObjectsLayout` | `Client/Assets/Standard Assets/Network.js:465-475` | At which offsets the state, the distance, the count and the ids of an objects packet stand. |
| `WireLayout.UpdateLayout` | `Common/Include/Starfall/BufferImpl.h:241-246` | The state, the creates and then the destroys of an update. |
| `WireLayout.ManyLayout` | `Common/Include/Starfall/BufferImpl.h:182-188` | A list is its count and its elements one after the other. |
| `WireLayout.ClientAtEnd` | `Client/Assets/Standard Assets/Network.js:298-351` | What the client reads when bytes are missing. |
| `WireLayout.ServerAtEnd` | `Common/Source/Starfall/BufferBase.cpp:61-94` | What the server reads when three of four bytes, or all but one of a string, are there. |
| `WireLayout.OtherIsQuestionMark` | `Client/Assets/Standard Assets/Network.js:264-276` | A character that is not ASCII becomes a question mark, in both directions. |
| `CodecClient.AsciiIff` | `Client/Assets/Standard Assets/Network.js:264-276` | A string goes through the client unchanged if and only if it is ASCII. |
| `CodecClient.Buffer.WriteUInt32` | `Client/Assets/Standard Assets/Network.js:257-262` | Four bytes, big-endian. |
| `CodecClient.Buffer.WriteString` | `Client/Assets/Standard Assets/Network.js:264-276` | The count and the ASCII bytes. |
| `CodecClient.Buffer.WriteFloat` | `Client/Assets/Standard Assets/Network.js:278-296` | The bits, big-endian on either kind of machine. |
| `CodecClient.Buffer.ReadUInt32` | `Client/Assets/Standard Assets/Network.js:298-314` | Four bytes, or zero if fewer are left. |
| `CodecClient.Buffer.ReadString` | `Client/Assets/Standard Assets/Network.js:325-334` | The count and as many characters. |
| `CodecClient.Buffer.ReadFloat` | `Client/Assets/Standard Assets/Network.js:336-351` | The bits, on either kind of machine. |
| `CodecClient.Buffer.LoginData` | `Client/Assets/Standard Assets/Network.js:420-428` | The body of a login. |
| `CodecClient.Buffer.TransformData` | `Client/Assets/Standard Assets/Network.js:443-458` | The body of a path. |
| `CodecClient.Buffer.ObjectsData` | `Client/Assets/Standard Assets/Network.js:465-475` | The body of an objects packet. |
| `CodecClient.Buffer.LoginReply` | `Client/Assets/Standard Assets/Network.js:494-500` | The fields of a login, in their order. |
| `CodecClient.Buffer.CreateEntity` | `Client/Assets/Standard Assets/Network.js:514-534` | The loop over a create list. |
| `CodecClient.Buffer.TransformEntities` | `Client/Assets/Standard Assets/Network.js:536-558` | The loop over a transform list. |
| `CodecClient.Buffer.DestroyEntity` | `Client/Assets/Standard Assets/Network.js:560-569` | The loop over a destroy list. |
| `CodecClient.Buffer.ObjectsReply` | `Client/Assets/Standard Assets/Network.js:571-577` | The state, then the creates, then the destroys. |
| `CodecServer.Buffer.WriteUInt32` | `Common/Source/Starfall/BufferBase.cpp:109-115` | Four bytes, big-endian. |
| `CodecServer.Buffer.WriteString` | `Common/Source/Starfall/BufferBase.cpp:117-120` | The count and the bytes. |
| `CodecServer.Buffer.ReadUInt32` | `Common/Source/Starfall/BufferBase.cpp:76-94` | Four bytes; where the check at the end misses a short buffer nothing is promised. |
| `CodecServer.Buffer.ReadString` | `Common/Source/Starfall/BufferBase.cpp:61-74` | The count and as many bytes; where the check misses a short buffer nothing is promised. |
| `CodecServer.Buffer.ReadLoginStruct` | `Common/Include/Starfall/BufferImpl.h:25-33` | The fields of a login, in their order. |
| `CodecServer.Buffer.ReadTransforms` | `Common/Include/Starfall/BufferImpl.h:86-104` | The loop over a path. |
| `CodecServer.Buffer.ReadObjectsStruct` | `Common/Include/Starfall/BufferImpl.h:138-143` | The fields of an objects packet. |
| `CodecServer.Buffer.WriteLoginStruct` | `Common/Include/Starfall/BufferImpl.h:162-169` | The bytes of a login. |
| `CodecServer.Buffer.WriteCreateEntities` | `Common/Include/Starfall/BufferImpl.h:190-202` | The bytes of a create list. |
| `CodecServer.Buffer.WriteDestroyEntities` | `Common/Include/Starfall/BufferImpl.h:182-188` | The bytes of a destroy list. |
| `CodecServer.Buffer.WriteTransformEntities` | `Common/Include/Starfall/BufferImpl.h:216-223` | The bytes of a transform list. |
| `CodecServer.Buffer.WriteObjectsUpdate` | `Common/Include/Starfall/BufferImpl.h:241-246` | The bytes of an objects update. |
| `Framing.ClientEnqueue` | `Client/Assets/Standard Assets/Network.js:361-415` | Writing the head with a zero size, then the body, then patching the size into the head gives the same frame that the server writes. |
| `Framing.PatchBodySize` | `Client/Assets/Standard Assets/Network.js:396-408` | The four bytes that are pushed and popped end up at the place of the size, and nothing else changes. |
| `Framing.ServerEnqueue` | `Server/Source/Starfall/Send.cpp:21-39` | A head of 16 bytes with the operation code and the size of the body, then the body. |
| `Framing.ClientSplits` | `Client/Assets/Standard Assets/Network.js:626-659` | Splitting any concatenation of frames gives back the sequence of operation codes and bodies. |
| `Framing.ServerSplits` | `Server/Source/Starfall/LoginServer.cpp:83-119` | The same for the server and frames with a body. |
| `WireLayout.FrameLayout` | `Server/Source/Starfall/Send.cpp:21-39` | At which offsets the two marks, the operation code, the size and the body of a frame stand. |
| `WireLayout.ServerTakes` | `Server/Source/Starfall/LoginServer.cpp:83-119` | What the server takes from any stream, byte by byte: a whole head with a positive size, and a body that is filled up with zeros; everything else is refused. |
| `WireLayout.ClientTakes` | `Client/Assets/Standard Assets/Network.js:626-659` | What the client takes from any stream with a whole head, byte by byte: as much of the body as there is. |
| `WireLayout.ClientTakesShort` | `Client/Assets/Standard Assets/Network.js:626-659` | A head that is cut short is taken for a packet without a body. |
| `Framing.ReceivePacket` | `Client/Assets/Standard Assets/Network.js:626-659` | One frame is taken from the stream. |
| `Framing.ReceivePackets` | `Client/Assets/Standard Assets/Network.js:604-609` | The receive thread takes all frames of the stream, in order. |
| `Framing.OnSocketReadable` | `Server/Source/Starfall/LoginServer.cpp:83-119` | One frame is taken from the stream, or refused. |
| `DynamicVar.RoundTrip` | `Common/Source/Starfall/Var.cpp:341-469` | Reading a printed value gives the same shape, each leaf as its text, if and only if no string and no key has a quotation mark; and then no read is outside the text. |
| `DynamicVar.ElementIsRead` | `Common/Source/Starfall/Var.cpp:409-417` | An element is read back with the comma or the space after it, and the parser comes to the next element, although a leaf without quotes takes its delimiter. |
| `DynamicVar.ParseVarQuoteless` | `Common/Source/Starfall/Var.cpp:424-462` | Nothing that the parser reads has a quotation mark, for every text. |
| `DynamicVar.ShapeIsStable` | `Common/Source/Starfall/Var.cpp:341-469` | Printing and reading a second time changes nothing more. |
| `DynamicVar.PrintAndParse` | `Common/Source/Starfall/Var.cpp:472-477` | The same with the methods. |
| `DynamicForms.FormIsRead` | `Common/Source/Starfall/Var.cpp:348-462` | The lenient grammar, written out: strings with marks, or without and up to an end, which is taken; elements with blanks and a comma or none; of equal keys the first value. Each form is read as its value, up to the text after it. |
| `DynamicForms.ReadIsForm` | `Common/Source/Starfall/Var.cpp:348-462` | And nothing else is read before other text. |
| `DynamicForms.LastIsRead` | `Common/Source/Starfall/Var.cpp:424-462` | Blanks alone are the empty string, and a text without marks and without an end is read to its end, one position past which the parser then stands. |
| `DynamicForms.StopsAre` | `Common/Source/Starfall/Var.cpp:424-462` | A text without marks ends at a space, a comma or a closing bracket. |
| `DynamicForms.ReadToEnd` | `Common/Source/Starfall/Var.cpp:424-462` | Only such a text is read past its end. |
| `DynamicForms.LoneMarkThrows` | `Common/Source/Starfall/Var.cpp:424-462` | A mark without its partner throws, and so does one in a text that begins without. |
| `DynamicForms.ArrayFails` | `Common/Source/Starfall/Var.cpp:401-421` | After any elements an array fails as the next one does; it throws at the end of the text, and reads outside the text after an element that took the end. |
| `DynamicForms.ObjectFails` | `Common/Source/Starfall/Var.cpp:372-398` | The same for an object that ends, or whose next key has no partner for its mark or takes the end of the text. |
| `DynamicForms.FieldFails` | `Common/Source/Starfall/Var.cpp:372-398` | After a key an object throws without a colon, and after the colon it fails as the value does. |
| `DynamicForms.ValueIsPrinted` | `Common/Source/Starfall/VarHolder.cpp:64-74` | What every kind of value prints, with the commas and blanks of its elements. |
| `DynamicVar.ParseAt` | `Common/Source/Starfall/Var.cpp:348-369` | Every kind of value, for every text and position: the value and the position after it, the exception, or a read outside the text. |
| `DynamicVar.ParseObject` | `Common/Source/Starfall/Var.cpp:372-398` | The loop over fields; the first value of a key stays. |
| `DynamicVar.ParseArray` | `Common/Source/Starfall/Var.cpp:401-421` | The loop over elements. |
| `DynamicVar.ParseStringAt` | `Common/Source/Starfall/Var.cpp:424-462` | A string with or without quotes, and the two exceptions. |
| `DynamicVar.SkipWhiteSpace` | `Common/Source/Starfall/Var.cpp:465-469` | White space is passed over. |
| `DynamicVar.AppendJSONString` | `Common/Source/Starfall/VarHolder.cpp:64-74` | What is appended for any value. |
| `DynamicVar.ConvertStruct` | `Common/Include/Poco/Dynamic/Struct.h:289-311` | The text of a struct. |
| `DynamicVar.ConvertVector` | `Common/Include/Poco/Dynamic/VarHolder.h:2656-2678` | The text of a vector. |
| `Paging.MoreIsExact` | `Server/Plugins/Web/app/app.js:573-637` | Over every run, with rows added at any time: the rows from the first page's maximum down to the last one shown are shown exactly once and in descending order, and the button is hidden exactly after row 1. |
| `Paging.MoreFinishes` | `Server/Plugins/Web/app/app.js:598-636` | With enough clicks everything down to row 1 is shown. |
| `Paging.MoreShowsNext` | `Server/Source/Starfall/LoginServer.cpp:310-318` | Each click shows the next ten rows, or the rest, however many rows were added since the last. |
| `Paging.FirstPage` | `Server/Plugins/Web/app/app.js:28-33` | The first page begins at the maximum. |
| `Paging.NewHasNoGap` | `Server/Plugins/Web/app/app.js:404-482` | Over every run all rows from the first page's top row up to `db.max` are shown while the button is hidden, and all up to the next upper bound while it is shown. |
| `Paging.NewClickShows` | `Server/Source/Starfall/LoginServer.cpp:311-315` | A click shows exactly the rows above its upper bound, so that all rows of the server are shown. |
| `Paging.OpenOnceIff` | `Server/Plugins/Web/app/app.js:404-482` | For every run from the first request on, with rows added at any time: no row is shown twice on the whole page if and only if no click on "new" finds a page that begins above its upper bound. |
| `Paging.PageOnceIff` | `Server/Plugins/Web/app/app.js:404-482` | The same from every state that can be reached. |
| `Paging.NewsOnceIff` | `Server/Plugins/Web/app/app.js:404-482` | The same for the rows that "new" has put on top. |
| `Paging.StepKeepsPage` | `Server/Plugins/Web/app/app.js:404-482` | Every action keeps: the rows on top are exactly those above the first page up to the highest one shown, which the server has, and the next "new" asks from there or from below. |
| `Paging.NewRepeatsIff` | `Server/Plugins/Web/app/app.js:433-452` | In every reachable state a click shows a row a second time if and only if the page begins above its upper bound. |
| `Paging.NewMayRepeat` | `Server/Plugins/Web/app/app.js:433-474` | A concrete run that shows a row twice. |
| `Paging.PollsAreKept` | `Server/Plugins/Web/app/app.js:404-482` | Over every run from the first request on: `db.max` is the greatest maximum that any poll has brought, the button is shown if and only if some poll since the last click brought a greater maximum than all before it, and `db.upper` is the greatest before the first such poll. |
| `Paging.HighestIs` | `Server/Plugins/Web/app/app.js:469-474` | The greatest maximum of a run: no poll brought a greater one, and it is the first maximum or some poll brought it. |
| `Paging.NoRowsNoPolls` | `Server/Plugins/Web/app/app.js:469-474` | If there were no rows at first, polls never show the button. |
| `Paging.ConsoleServes` | `Server/Source/Starfall/LoginServer.cpp:294-331` | Which rows each request gets, one by one: the first page from its offset, "more" from where its bound was the maximum, "new" what is above its bound, and all rows when the bound is above them and the subtraction wraps around. |
| `Paging.MoreAsksAgain` | `Server/Plugins/Web/app/app.js:598-636` | After a reply without rows, "more" gets the first page. |
| `Paging.TryConsole` | `Common/Source/Starfall/Database.cpp:70-109` | The loop that tracks the least id: the rows, the next offset and the upper bound, or failure. |
| `Paging.ServeConsole` | `Server/Source/Starfall/LoginServer.cpp:294-331` | The offset and the number of rows of the three requests. |
| `Paging.Portal.ClickMore` | `Server/Plugins/Web/app/app.js:598-636` | The click on "more", with its queue. |
| `Paging.Portal.UpdateMore` | `Server/Plugins/Web/app/app.js:603-610` | Whether the button stays. |
| `Paging.Portal.DonePoll` | `Server/Plugins/Web/app/app.js:469-474` | The next upper bound is the old maximum. |
| `Paging.Portal.ClickNew` | `Server/Plugins/Web/app/app.js:416-443` | The click on "new". |
| `Palette.ExportIsChosenIff` | `Server/Plugins/Web/app/components.appearance.js:139-200` | For every model and every choice of switches and colours: the export consists, in order, of the parts whose own component is on, each material with a number that the exported style gives the colour of its own component, if and only if components of equal parts are switched and coloured alike. |
| `Palette.DifferentPartsAreChosen` | `Server/Plugins/Web/app/components.appearance.js:139-200` | In particular if no two parts are equal; and the exported style is numbered 0 to n-1. |
| `Palette.SecondChoiceIsLost` | `Server/Plugins/Web/app/components.appearance.js:149-187` | Two equal parts, the first on: both are exported in the colour of the first, be the second on in another colour or off. |
| `Palette.ExportKeepsColors` | `Server/Plugins/Web/app/components.appearance.js:139-200` | With no condition on equal parts: the exported style is numbered 0 to n-1 in its order, and each exported part is shown in the colours of the first component that is on and was made for an equal part. |
| `Palette.SlotsAreFlat` | `Server/Plugins/Web/app/components.appearance.js:144-197` | Going through slots and meshes exports the same parts with the same style as going through all parts in order. |
| `Palette.SlotsAreKept` | `Server/Plugins/Web/app/components.appearance.js:189-195` | The export has the names and the order of slots, meshes, parts and materials, without the parts that are not exported and the meshes and slots that become empty. |
| `Palette.StyleGrowsInOrder` | `Server/Plugins/Web/app/components.appearance.js:154-181` | A part adds to the style exactly the colours that the style did not have, in the order of the controls. |
| `Palette.MakeComponents` | `Server/Plugins/Web/app/components.appearance.js:84-133` | One component for each part, in order, off, with the controls of its materials. |
| `Palette.MadeIsModel` | `Server/Plugins/Web/app/components.appearance.js:103-127` | The components of the constructor have one control for each material, if numbers and names differ as in the shipped data. |
| `Palette.NewControlsShowStyle` | `Server/Plugins/Web/app/components.appearance.js:103-127` | Each control of a new component is set to the colour that the default style gives its material. |
| `Palette.UneditedKeepsColors` | `Server/Plugins/Web/app/components.appearance.js:103-200` | Parts that are switched on and left alone are exported in the colours of the default style. |
| `Palette.NothingIsChosenAtFirst` | `Server/Plugins/Web/app/components.appearance.js:103-127` | Every new component is off, so that nothing is exported before the first click. |
| `Palette.EditedIsModel` | `Server/Plugins/Web/app/components.appearance.js:29-37` | Switching and moving sliders keeps that. |
| `Palette.PartIsShown` | `Server/Plugins/Web/app/components.appearance.js:150-187` | The same for one part added to any style so far, which is only extended. |
| `Palette.LookupIsUnique` | `Server/Plugins/Web/app/components.appearance.js:167-181` | No number is given twice, so a number is one colour. |
| `Palette.ControlsAreOneEach` | `Server/Plugins/Web/app/components.appearance.js:105-127` | With different numbers in the style, and a number of the style in each material, each material has one control. |
| `Palette.Exporter.Data` | `Server/Plugins/Web/app/components.appearance.js:139-200` | The whole export, slot by slot: its style and groups, and when it is what was chosen. |
| `Palette.Exporter.AddMeshes` | `Server/Plugins/Web/app/components.appearance.js:147-192` | The meshes of a slot; one without parts is left out. |
| `Palette.Exporter.AddParts` | `Server/Plugins/Web/app/components.appearance.js:149-188` | The parts of a mesh, each matched with the first component that is on and equal. |
| `Palette.Exporter.AddPart` | `Server/Plugins/Web/app/components.appearance.js:153-187` | One part: the filter, then the map, then the style. |
| `Palette.Exporter.Filter` | `Server/Plugins/Web/app/components.appearance.js:154-166` | Colours that the style has are painted with their number and left out. |
| `Palette.Exporter.NumberColors` | `Server/Plugins/Web/app/components.appearance.js:167-181` | New colours take the next numbers. |
| `Palette.MakeControls` | `Server/Plugins/Web/app/components.appearance.js:105-127` | The loops of the constructor over materials and colours. |
| `Equipment.EquippedIff` | `Server/Plugins/Script/Entity/inventory.js:47-58` | After a pass over items of which none is equipped, an item is equipped if and only if it is apparel and is the first apparel item to name one of its slots, or names a slot that the table neither has nor inherits; a known slot is filled if and only if an apparel item names it. |
| `Equipment.ConflictIff` | `Server/Plugins/Script/Entity/inventory.js:47-50` | The promise that conflicting items do not equip holds if and only if no item has both a slot that it gets and a known one that an earlier item has claimed. |
| `Equipment.ConflictHappens` | `Server/Plugins/Script/Entity/inventory.js:47-50` | Items for `head`, and for `head` and `feet`: both are equipped. |
| `Equipment.FoundIs` | `Server/Plugins/Script/Entity/inventory.js:52-58` | The same from any initial states, half-way through the pass. |
| `Equipment.OneNameEquips` | `Server/Plugins/Script/Entity/inventory.js:22-46` | An item with one name: equipped if the name is a key of the table or is neither a key nor inherited, and never under `__proto__`. |
| `Equipment.Inventory.FindEquipment` | `Server/Plugins/Script/Entity/inventory.js:52-58` | The pass over the items. |
| `Equipment.Inventory.EquipItem` | `Server/Plugins/Script/Entity/inventory.js:36-46` | An item is equipped if one of its slots is not taken, asking anew for each slot. |
| `Equipment.Inventory.Equipped` | `Server/Plugins/Script/Entity/inventory.js:22-34` | For each known slot, whether an equipped item names it. |
| `ListObject.InOrderIff` | `Server/Plugins/Script/main.js:16-40` | For every element: its object keeps the order of children with one name if and only if only the name of the last child is given to several (attribute names aside), that name is no attribute, and, if it is repeated, neither is the name of the first child. |
| `ListObject.InOrderBelowIff` | `Server/Plugins/Script/main.js:16-40` | The same at every level of the document. |
| `ListObject.DocumentInOrderIff` | `Server/Plugins/Script/main.js:16-41` | For a whole document, whose root loses its attributes. |
| `ListObject.OutOfOrder` | `Server/Plugins/Script/main.js:16-40` | Children `b`, `b` and `c`: the second `b` is visited before the first. |
| `ListObject.AttributeIsVisited` | `Server/Plugins/Script/main.js:27-36` | An only child with the name of an attribute is lost, and the text of the attribute is visited in its place. |
| `ListObject.VisitsOf` | `Server/Plugins/Common/mixins.js:5-22` | Which values are visited of one name, for every element: the children in order, or with the first one last, without a child that the move overwrites, or with the text of an attribute first. |
| `ListObject.AttributesStay` | `Server/Plugins/Script/main.js:16-41` | An element keeps its attributes, but for one with the name of its last child; the root of a document has none. |
| `ListObject.ElementAscends` | `Server/Plugins/Script/main.js:24-36` | The index keys of every object made from an element ascend strictly, so that the order of the model is the order of enumeration, although the last step sets index 0. |
| `ListObject.ListAscends` | `Server/Plugins/Common/mixins.js:23-36` | The same for the object that a list is turned into. |
| `ListObject.ListIsVisited` | `Server/Plugins/Common/mixins.js:23-36` | Visiting what a list was turned into visits the list, for every length; in a list of one the value must be an object, and that is exactly the condition. |
| `ListObject.VisitEach` | `Server/Plugins/Common/mixins.js:5-22` | The loop over index keys and named keys. |
| `ListObject.Xml2Json` | `Server/Plugins/Script/main.js:16-41` | The conversion of a document begins with an empty object. |
| `ListObject.Convert` | `Server/Plugins/Script/main.js:16-40` | The recursion over the document, with what moves to index 0 at the end. |

## Left out

- JsonRoundTrip.RoundTrip: a float is the text that the C++ library prints for it, any number text with a fraction or an exponent; that this text and the value are the same number, and that a whole value may be printed without either, is not modelled. Nor is indent 1, where an unsigned number wraps around and a signed counter overflows.
- JsonRoundTrip.IndentationIsInvisible: requires plain keys, because a key with a quotation mark or a backslash can make the indentation part of a string.
- TemplateEngine.ParseAndRender: does not cover `include`, which is parsed but, because it reads files while it renders, not rendered.
- TemplateRender.Apply: takes a float to be zero exactly if its mantissa has only zeros.
- TemplateCache.Cache.GetTemplate: parses with the function that the parser class is proved to compute, not with parser objects in the cache, and does not model path resolution.
- SyncServer.Player.ObjectsData: the queues hold session ids; names, modes, positions and paths of the queued structs are copies.
- SyncProtocol.AlwaysSound: a reply and a frame are each one step, because the client raises the flag before it has queued the entities of the reply; one login for each connection.
- CodecServer.Buffer.ReadUInt32: reading past the end of a short buffer is undefined, and nothing is promised there; the same for the other readers.
- CodecClient.AsciiIff: a character above U+FFFF is one `char` here and two in a UnityScript string, so that the counts written for such a name differ.
- CodecClient.Buffer.WriteString: the write position `wpos` is not modelled, since no reader uses it.
- Framing.OnSocketReadable: every receive call gets the full count as far as the stream goes; a frame without a body, for which the source takes the address of the first byte of an empty buffer, is refused.
- Paging.MoreIsExact: rows are never deleted, and row numbers fit an `int`.
- Palette.ExportIsChosenIff: one style is named default; material names differ within a part, and there is one control for each material, for which `MadeIsModel` gives a condition. How a list is written as an object is `ListObject.ListIsVisited`.
- Equipment.EquippedIff: all items have equip states, as those that `load` makes do, and no script adds to what plain objects inherit.
- ListObject.InOrderIff: no name begins with a digit, which XML rules out, and none is `hasOwnProperty` or `__proto__`; other inherited names do no harm, because only own keys are asked for.
- A parse with no handler, and the tree that is left when a parse throws.
- Sockets, HTTP, SQLite, files, V8 contexts, locks and logging; all rendering, physics and user interface.
- The C++ reader of create lists and the receive table of the native client, which have no matching writer.
- Console messages other than by row number; login checks; movement along paths.
- The helpers `objectToArray` and `deepClone`, and the forms of the web portal.
