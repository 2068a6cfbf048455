# Nucleus: the nulang front end and its containers

This project models the core of Nucleus and proves properties of it.

* **The nulang front end** (`nucleus/lang`): the lexer object with its one-character
  peek and five-token queue, the precedence-climbing parser that builds a tree in a
  flat arena of linked nodes, the symbol resolver that walks this arena with a stack of
  names which it cuts back in place, and the archetype resolver that walks it again.
* **The containers of the virtual machine** (`nucleus/vm`): the slotmap whose free
  list lies inside the free objects, the lists that share one array of links, the list
  that uses removed objects again, the archetype registry with its FNV-1a hashes, and
  the fixed-point arithmetic that literals go through.

The imperative parts are classes and loops in the form of the source. Each is proved
against a pure function, and the properties are proved of that function:

| imperative | pure specification | what is proved of it |
|---|---|---|
| `Lexing.Lexer` | `Scanning.ScanToken`, `Lexing.Outs` | `Characters`, `Texts`, `Spans`, `Gaps` |
| `Parsing.Parser` over `Arena.Ast` | `Reading`, `Layout` | `Grouping`, `Canonical`, `Sound`, `Closing`, `Mending`, `Printing`, `Opening`, `Supported`, `Refusals`, `Sentences`, `Ungrouping`, `Shapes`, `Grammar` |
| `Resolving.SymbolResolver` | `Scopes.ResolveModule` | `Visibility`, `Scopes`, `Limits`, `Stopping` |
| `Archetypes.ArchetypeResolver` | `Archetypes.Known`, `Archetypes.Picks` | `Naming`, `Archetypes` |
| `Compiling.Compiler` | `Compiling.Compile` | `Compiling`, `Programs`, `Hazards` |
| `Slotmap.Slotmap`, `Slotlist.Slotlist`, `Lists.List` | chains and lists as sequences | the same modules |
| `Registry.TableManager`, `Strings.Hash` | `Registry.FindIn`, `Strings.Fnv` | the same modules |

Some of these modules name no table or function of the specification and say instead, in
the characters, tokens and node types themselves, what it has to be: `Characters` which
text is which token, `Grouping` which operator takes which operand, `Sentences` and
`Ungrouping` that the nodes in the arena say the text that was read, `Visibility` which
modules resolve and what a reference refers to, `Naming` which programs name an archetype
that is not there, and `Refusals` and `Supported` which error a refused program gets.

## What the code does not do as one would expect

These are facts of the code. Each is part of the model, and where a property fails
because of it the exact condition is proved.

* A closing parenthesis may be missing after `insert(x` and `singleton(x`: the result
  of that check is dropped, and whatever stands there is consumed. An accepted module
  is the spelling of a program if and only if no such parenthesis is missing
  (`Closing.AcceptedIffSpelled`, with the input of `Closing.UnclosedAccepted`). A stream
  is accepted if and only if putting a parenthesis in place of each item consumed there
  gives the spelling of a program that the arena has room for (`Mending.AcceptedIff`);
  the arena then holds that program (`Mending.MendedArena`).
* The comparison with the keyword `and` has its arguments swapped. It holds of any
  non-empty prefix of `and` that ends the text, and of nothing else. Spelled tokens come
  back exactly when their `and`s fit this (`Texts.TextRoundTrip`); `x and y` does not
  (`Texts.AndLost`).
* `-` is no binary operator: no subtraction node is ever built (`Printing.StripPlain`), and
  a minus after an expression is refused as a token that begins no statement
  (`Refusals.MinusRefused`).
* Comparisons and the logical operators bind tighter than the arithmetic ones, and group
  to the right (`Grouping.ThreeOperands`).
* `import` and `from` at the head of a module make the C parser loop for ever; `export`,
  `for`, `break` and `continue` as statements consume nothing and go on with an
  uninitialised node, or, at module level after a first statement, with the stale node
  of that one, which is then linked to itself. The model answers `UNDEFINED`, which is not an error code of the
  source. It does so if and only if the stream begins with one of these two, or, with
  dropped items as above, it spells an open program (finished statements, and around
  its end loops, branches and functions still to be closed) for which the arena has
  room and goes on with one of those four (`Supported.SourceUndefinedIff`; inputs in
  `Supported.ImportUndefined` and `Supported.BreakUndefined`).
* The resolver's stack has 1024 places and no bounds check; places are free again at the
  end of a scope. The model answers `UNDEFINED` where a name is pushed on a full stack. For
  every module, whatever else is wrong with it, this happens if and only if it has more
  functions than the stack has places, all named differently up to the first without
  one, or its functions fit and the first node in preorder with which anything is wrong
  declares a new name where the names in sight fill the stack
  (`Stopping.ModuleOverflowIff`; the input of `Limits.ManyOverflow` has one function
  more). It cannot happen in an arena of at most 1024 nodes, such as the default one
  (`Hazards.SmallArena`). `Hazards.CompileUndefinedIff` puts this and the previous point
  together for whole compilations.
* The registry keeps thirty bytes of a name, but the compiler looks for the hash of the
  whole: an archetype is found by the name it was just registered under if and only if
  cutting it leaves its hash (`Registry.RegisteredIff`), and of two names that differ in
  one byte beyond the thirtieth at least one is lost (`Registry.LongNameLost`).
* After a leading minus `nu_fparse` applies the logical not in place of the bitwise one:
  it gives 2 for zero and 1 for everything else (`FixedPoint.Fparse`). The lexer never
  passes it a minus.
* A field lookup answers 0 both for field 0 and for no field; 0 always means none if and
  only if the archetype does not own field 0 (`Registry.ZeroMeansNone`).
* Removing a list object twice, as `tests/list.c` does, ties the chain of removed objects
  into a ring; `Lists.List.Remove` keeps the list valid if and only if the object was
  live. The same holds of a slot (`Slotmap.GiveBackIff`).
* `[` is lexed as RBRACKET and `]` as LBRACKET; `str` is the type `int`.

## Model

| member | source | states |
|---|---|---|
| FixedPoint.FmulFloor | nucleus/vm/math.h:184-188 | the unsigned 64-bit product of two signed values, shifted, is the floor of their product over 2^16, cut to 32 bits, for all signs |
| FixedPoint.WrapIff | nucleus/vm/math.h:184-203 | a conversion to 32 bits gives the one value of their range that is the same modulo 2^32 |
| FixedPoint.ItofScales | nucleus/vm/math.h:194-198 | an integer of 16 bits times 2^16, and that modulo 2^32 for any other |
| FixedPoint.FtoiFloor | nucleus/vm/math.h:199-203 | the greatest integer not above the value, for negative values too |
| FixedPoint.FdivTowardsZero | nucleus/vm/math.h:189-193 | a quotient that fits is rounded towards zero, for all signs |
| FixedPoint.DivMul | nucleus/vm/math.h:184-193 | whenever the quotient fits 32 bits, dividing and multiplying back misses the dividend by less than the size of the divisor over 2^16, plus 1, and by nothing when the division is exact |
| FixedPoint.ItofFtoi | nucleus/vm/math.h:194-203 | an integer survives the conversion and back if and only if it fits 16 bits |
| FixedPoint.Iparse | nucleus/vm/math.h:286-320 | the value of the digits in 32 bits; refused exactly when a character is neither a digit nor a leading minus |
| FixedPoint.DecimalPlaces | nucleus/vm/math.h:286-320 | each digit counts from `0` and ten times the one behind it |
| FixedPoint.FixedBits | nucleus/vm/math.h:265-278 | binary long division: the OR-ed bits are the sum of integer part and floor of the fraction times 2^16 |
| FixedPoint.Fparse | nucleus/vm/math.h:222-285 | a numeral with at most six fraction digits gives its value times 2^16 rounded down and cut to 32 bits; after a minus it gives 2 for zero and 1 for all else; longer fractions and other characters are refused |
| FixedPoint.NumeralValue | nucleus/vm/math.h:265-284 | the result is the exact truncation: it is below the value times 2^16 by less than one |
| FixedPoint.NumeralExact | nucleus/vm/math.h:265-284 | with an integer part below 2^15 nothing overflows: 32 bits hold the truncated value |
| FixedPoint.BitClear | nucleus/vm/math.h:269-278 | every bit that is OR-ed in was clear, so OR is addition |
| Operators.BinopTokens | nucleus/lang/ast.h:315-365 | every operator of the table but SUB comes back from its token, and SUB is not binary |
| Operators.FindBuiltin | nucleus/lang/builtin.h:43-71 | a builtin is found exactly under its own primitive and name |
| Scanning.LocCounts | nucleus/lang/lexer.h:49-78 | reported line, column and index are those of counting newlines, modulo their widths |
| Scanning.NewlineMoves | nucleus/lang/lexer.h:135-149 | the comparison of line numbers that ends a comment sees exactly the newlines |
| Scanning.IdentEnd | nucleus/lang/lexer.h:281-290 | a word ends at the first character that belongs to no word |
| Scanning.QuoteEnd | nucleus/lang/lexer.h:177-192 | a string ends at the first quote |
| Scanning.NumberEnd | nucleus/lang/lexer.h:210-238 | a legal number holds digits and dots only and is followed by neither a letter nor a dot |
| Scanning.NumberShape | nucleus/lang/lexer.h:197-268 | a legal number is digits, or digits with exactly one dot, so parsing its text succeeds |
| Scanning.ScanToken | nucleus/lang/lexer.h:484-618 | every call consumes at least one character or is at the end |
| Lexing.Lexer.constructor | nucleus/lang/lexer.h:31-47 | a new lexer is about to deliver everything its text holds |
| Lexing.Lexer.SourceNext | nucleus/lang/lexer.h:49-78 | delivers the next character, newlines as spaces, with the location counted so far |
| Lexing.Lexer.NextChar | nucleus/lang/lexer.h:80-96 | delivers the character at the abstract position, whether it was peeked or not |
| Lexing.Lexer.PeekChar | nucleus/lang/lexer.h:97-116 | shows the character at the abstract position and leaves the position |
| Lexing.Lexer.ConsumeComment | nucleus/lang/lexer.h:135-149 | stops after the newline that ends the comment |
| Lexing.Lexer.ConsumeSpaces | nucleus/lang/lexer.h:150-163 | stops at the first character that is no space or newline |
| Lexing.Lexer.ConsumeString | nucleus/lang/lexer.h:165-196 | delivers the text between the quotes, or the error of an unterminated string |
| Lexing.Lexer.ConsumeNumber | nucleus/lang/lexer.h:197-268 | the slice captured behind the peek is the number's text, and the value is that of its digits |
| Lexing.Lexer.ConsumeIdentifier | nucleus/lang/lexer.h:269-482 | the slice captured behind the peek is the maximal word, classified by the keyword chain; which characters a word has is `Characters.NameScans` |
| Lexing.Lexer.ConsumeMinus | nucleus/lang/lexer.h:496-516 | one minus is a token, two are a comment that scanning goes on behind |
| Lexing.Lexer.ConsumeOperator | nucleus/lang/lexer.h:544-594 | an operator with `=` behind it is one token, `!` alone an error |
| Lexing.Lexer.ParseToken | nucleus/lang/lexer.h:484-618 | the stateful lexer delivers what scanning by position finds, with its place, and stands where that ends |
| Lexing.Lexer.Next | nucleus/lang/lexer.h:620-638 | delivers the first of what is to come, with its place, and leaves the rest, whatever was peeked |
| Lexing.Lexer.Peek | nucleus/lang/lexer.h:640-657 | any lookahead below five shows that token, the end for ever past the end, and changes nothing that is to come; an error on the way is delivered and drops its item |
| Lexing.OutsItems | nucleus/lang/lexer.h:484-618 | what the parser sees is the stream of tokens without their places |
| Spans.ScanFound | nucleus/lang/lexer.h:484-618 | each token is the text at its reported start, up to where the lexer stopped; words and numbers are maximal |
| Spans.TokensSpan | nucleus/lang/lexer.h:165-300 | the same for every token of every text below 2^32 characters |
| Spans.TokensOrdered | nucleus/lang/lexer.h:484-638 | tokens do not overlap and their starts strictly increase |
| Spans.DeliversScans | nucleus/lang/lexer.h:620-657 | what the lexer object delivers is this sequence, item by item |
| Gaps.ScanCrosses | nucleus/lang/lexer.h:484-618 | one call crosses blanks, comments and characters that start no token, and finds the token or the error that begins right after them |
| Gaps.TextCovered | nucleus/lang/lexer.h:484-618 | nothing of a text is lost: it is tokens, what the lexer refuses, and such gaps, one after the other |
| Characters.NameScans | nucleus/lang/token.h:6-9 | a word of lower-case letters, digits and underscores that starts with no digit and is none of the words of the language is exactly one name, with its place, unless it starts `and` and ends the text |
| Characters.AndScans | nucleus/lang/lexer.h:308-311 | `a`, `an` and `and` are the keyword where they end the text |
| Characters.HeadWordsScan | nucleus/lang/lexer.h:294-347 | each of twelve keywords, by its letters, is its token |
| Characters.BodyWordsScan | nucleus/lang/lexer.h:348-395 | and so are twelve others |
| Characters.ValueWordsScan | nucleus/lang/lexer.h:401-474 | and the words for literals and types; `str` is the type of integers |
| Characters.SignsScan | nucleus/lang/lexer.h:493-543 | each sign of one character is its token, where it stands |
| Characters.ComparisonsScan | nucleus/lang/lexer.h:544-594 | each sign that may have `=` behind it, with and without; a token of two characters stops at the next column and no index |
| Characters.IntegersScan | nucleus/lang/lexer.h:197-268 | digits are an integer up to the last of them, or are refused when a letter or underscore follows |
| Characters.FractionsScan | nucleus/lang/lexer.h:197-268 | digits with one dot are their value times 2^16, rounded down; when they are refused, and with which error |
| Characters.StringsScan | nucleus/lang/lexer.h:165-196 | a string goes up to the next quote, or is refused if there is none |
| Characters.SkipsOne | nucleus/lang/lexer.h:595-618 | blanks, newlines and characters that start no token are passed over one by one |
| Characters.SkipsComment | nucleus/lang/lexer.h:496-508 | two minuses and the rest of their line are passed over |
| Characters.UnderscoreIsLetter | nucleus/lang/token.h:6-9 | the text `a_b` is one name |
| Texts.SpellScans | nucleus/lang/lexer.h:269-618 | the spelling of any token, standing alone, is lexed as that token, up to the `and` confusion |
| Texts.MillionthsBack | nucleus/vm/math.h:265-278 | six fraction digits are enough to spell every fixed-point value so that it comes back |
| Texts.TextItems | nucleus/lang/lexer.h:269-618 | lexing spelled tokens delivers each of them, with AND and the prefixes of `and` exchanged by position |
| Texts.TextRoundTrip | nucleus/lang/lexer.h:269-618 | lexing the spelling of any token sequence gives it back and then the end, if and only if its `and`s fit |
| Texts.AndLost | nucleus/lang/lexer.h:308-311 | an input on which the round trip fails |
| Reading.ReadExpr | nucleus/lang/parser.h:464-523 | a successful expression consumes at least one token |
| Reading.ReadStmt | nucleus/lang/parser.h:808-875 | a successful statement consumes at least one token |
| Reading.ReadBlock | nucleus/lang/parser.h:573-586 | a statement list stops only at its stop token |
| Grouping.ThreeOperands | nucleus/lang/ast.h:392-430 | of two operators in a row, by their tokens, the second goes to the right operand of the first if and only if the first is an addition and the second none, or the first multiplies or divides and the second compares or is logical, or both are such |
| Grouping.TwoOperands | nucleus/lang/ast.h:332-391 | each operator token gives its own operator, a minus before an operand negates it and `not` inverts it |
| Grouping.PrefixFirst | nucleus/lang/parser.h:437-456 | a prefix goes to the operand next to it, before any operator |
| Grouping.ParensFirst | nucleus/lang/parser.h:426-436 | parentheses hold an operation together on either side of another |
| Grouping.CallFirst | nucleus/lang/parser.h:362-420 | members come before a call and a call before a prefix |
| Grouping.CanonIff | nucleus/lang/parser.h:464-523 | which trees may stand alone and which as right operand of which operator, without precedences |
| Canonical.CanonLower | nucleus/lang/parser.h:464-523 | an expression that may stand where operators bind at least so tight may stand where they bind less |
| Canonical.ExprClimbs | nucleus/lang/parser.h:464-523 | the climbing loop, fed the spelling of a canonical tree, builds that tree |
| Canonical.ExprReads | nucleus/lang/parser.h:421-523 | reading the spelling of a canonical expression gives it back and stops where nothing extends it |
| Canonical.PlaceReads | nucleus/lang/parser.h:163-269 | reading the spelling of a name and its member chain gives it back |
| Canonical.StmtReads | nucleus/lang/parser.h:524-875 | reading the spelling of a canonical statement gives it back |
| Canonical.BlockReads | nucleus/lang/parser.h:564-588 | statements need no separators: a spelled list is read back, statement by statement |
| Canonical.ModuleReads | nucleus/lang/parser.h:876-920 | reading the spelling of a canonical program gives it back and takes exactly its nodes |
| Sound.ClimbSound | nucleus/lang/parser.h:475-520 | the climbing loop only builds trees that obey precedence and associativity, and stops where no operator extends them |
| Sound.ExprSound | nucleus/lang/parser.h:421-523 | what was consumed spells the tree; operands and spine obey the tables; the node count is exact |
| Sound.StmtSound | nucleus/lang/parser.h:524-875 | the same for statements: the tree has the children its kind demands and spells what was consumed |
| Sound.ExprExact | nucleus/lang/parser.h:464-523 | the parser returns a tree if and only if the tree is canonical, spells the consumed tokens, cannot be extended and fits the arena |
| Sound.ModuleExact | nucleus/lang/parser.h:876-920 | a module is accepted with a given tree if and only if it is that canonical tree's spelling and fits the arena |
| Sound.ModuleSound | nucleus/lang/parser.h:876-920 | every accepted module is canonical and uses as many nodes as its tree has |
| Sound.ModuleUnique | nucleus/lang/parser.h:464-523 | no two canonical programs spell the same tokens |
| Closing.AcceptedIffSpelled | nucleus/lang/parser.h:359-360 | an accepted module is the spelling of a program if and only if every `insert(x` and `singleton(x` got its `)` |
| Closing.UnclosedAccepted | nucleus/lang/parser.h:359-360 | an input that is accepted and is no program's spelling |
| Closing.BlockKeeps | nucleus/lang/parser.h:564-588 | reading well-closed tokens finds every `)` |
| Closing.BlockSpells | nucleus/lang/parser.h:564-588 | the spelling of a program with every `)` is well closed |
| Mending.ModuleMirrors | nucleus/lang/parser.h:330-361 | a stream and the same with `)` in place of what is dropped are read alike: the same error or the same tree but for parentheses, the same rest and nodes, in this arena or, until it is full, in a smaller one |
| Mending.MendedArena | nucleus/lang/parser.h:330-361 | an accepted stream and its mended form leave the same arena |
| Mending.MendCloses | nucleus/lang/parser.h:359-360 | the mended stream misses no `)`, and is the stream itself exactly if that misses none |
| Mending.AcceptedIff | nucleus/lang/parser.h:876-920 | a stream is accepted if and only if its mended form is the spelling of a program that the arena has room for |
| Mending.TooSmallIff | nucleus/lang/ast.h:213-228 | a program is refused for want of nodes if and only if the arena has fewer left than the program takes |
| Sentences.ModuleSays | nucleus/lang/ast.h:8-176 | read back node type by node type, the tree that the parser leaves says the program without its grouping parentheses |
| Ungrouping.ArenaSays | nucleus/lang/parser.h:362-920 | the nodes in the arena say the stream that was read without the parentheses that only group |
| Ungrouping.AcceptedSays | nucleus/lang/parser.h:362-920 | the same of every accepted stream, with its missing `)` |
| Printing.DressCanon | nucleus/lang/ast.h:392-430 | adding parentheses where the tables need them makes any plain expression canonical and changes nothing else |
| Printing.DressMinimal | nucleus/lang/ast.h:392-430 | no canonical spelling of a tree has fewer parentheses |
| Printing.RoundTrip | nucleus/lang/parser.h:808-920 | printing any program with minimal parentheses and no separators and parsing it gives exactly that program |
| Printing.StripPlain | nucleus/lang/ast.h:315-331 | accepted trees, stripped to what the arena keeps of them, are printable; none holds a subtraction node |
| Opening.OpenRuns | nucleus/lang/parser.h:808-875 | a stream that spells an open program is read up to its end, however deeply nested, and what is wrong with the statement that begins there is what is wrong with the whole |
| Supported.UndefinedIff | nucleus/lang/parser.h:808-920 | the parser is undefined on a stream if and only if it begins with an import or its mended form spells an open program that fits the arena and goes on with an unimplemented statement |
| Supported.ClosedUndefinedIff | nucleus/lang/parser.h:808-920 | the same of the stream itself where no `)` is missing |
| Supported.SourceUndefinedIff | nucleus/lang/parser.h:808-920 | the same for every source text |
| Supported.NonStatementIff | nucleus/lang/parser.h:808-920 | the parser answers that a token is no statement if and only if the stream begins with no import and its mended form spells an open program that fits the arena and then has a token that does not go on with it, does not end its innermost body and begins no statement |
| Supported.SourceNonStatementIff | nucleus/lang/parser.h:808-920 | the same for every source text |
| Supported.ImportUndefined | nucleus/lang/parser.h:889-901 | inputs on which the parser loops for ever |
| Supported.BreakUndefined | nucleus/lang/parser.h:824-868 | inputs on which it goes on with an uninitialised node |
| Supported.ModuleDefined | nucleus/lang/parser.h:809-920 | in particular, without the unimplemented statements and a head import no loop of the parser runs for ever and no uninitialised node is used |
| Supported.SourceDefined | nucleus/lang/parser.h:809-920 | the same for every source text |
| Refusals.NoStatement | nucleus/lang/parser.h:808-875 | the error at each token where a statement should begin |
| Refusals.NoExpression | nucleus/lang/parser.h:362-463 | the error at each token where an expression should begin |
| Refusals.NoType | nucleus/lang/parser.h:73-103 | the error at each token where a type should stand |
| Refusals.NameAlone | nucleus/lang/parser.h:833-867 | a name with its members and neither `=` nor `(` is refused as a name in place of a statement |
| Refusals.NoMember | nucleus/lang/parser.h:190-213 | a type has no members but the builtins of `vec2` |
| Refusals.NoMemberOfBuiltin | nucleus/lang/parser.h:190-213 | and those have none |
| Refusals.LetMissing | nucleus/lang/parser.h:524-550 | a let without its name or its `=` is refused |
| Refusals.FunctionMissing | nucleus/lang/parser.h:697-730 | and so is a function without its name or its parenthesis |
| Refusals.ParenMissing | nucleus/lang/parser.h:426-436 | and an expression whose parenthesis is not closed |
| Refusals.DoMissing | nucleus/lang/parser.h:661-696 | and a loop without its `do` |
| Refusals.ThenMissing | nucleus/lang/parser.h:589-640 | and a condition without its `then` |
| Refusals.ModuleRefused | nucleus/lang/parser.h:876-920 | what is wrong with the first statement that goes wrong, however deep it stands, is what is wrong with the program |
| Refusals.EndMissing | nucleus/lang/parser.h:564-588 | a program that ends inside a body is refused as having no statement there |
| Refusals.EndTooMany | nucleus/lang/parser.h:564-588 | and so is an `end`, `else` or `elif` that no open body can take |
| Refusals.MinusRefused | nucleus/lang/ast.h:315-331 | and a subtraction, at any depth of any program |
| Arena.AllocForest | nucleus/lang/ast.h:213-228 | a new node keeps the forest |
| Arena.AttachForest | nucleus/lang/ast.h:230-253 | attaching a whole tree under a node of another keeps the forest: parents, child order, roots and depths agree, so there is no cycle |
| Arena.AttachNext | nucleus/lang/ast.h:241-253 | only the old last child's sibling link changes |
| Arena.ShapeGrow | nucleus/lang/ast.h:230-253 | a represented tree grows by exactly one last child |
| Arena.Init | nucleus/lang/ast.h:180-202 | a new arena holds the module node alone, or there is an error and none if its nodes cannot be allocated |
| Arena.Ast.Clear | nucleus/lang/ast.h:203-212 | a cleared arena holds the module node alone |
| Arena.Ast.AddNode | nucleus/lang/ast.h:213-228 | the next id and an unlinked node, or out of node exactly when the arena is full |
| Arena.Ast.AppendChild | nucleus/lang/ast.h:230-253 | the four link writes attach the child's tree as last child and keep every other link right |
| Arena.Ast.FirstChild | nucleus/lang/ast.h:432-452 | the stored link is the first of the node's children |
| Arena.Ast.Sibling | nucleus/lang/ast.h:453-473 | the stored link is the child after this one |
| Arena.Ast.IterChilds | nucleus/lang/ast.h:496-510 | iteration visits the children in order and then ends |
| Layout.ExprIds | nucleus/lang/parser.h:421-523 | an expression's nodes are the ids from its first on, each once |
| Layout.StmtIds | nucleus/lang/parser.h:524-875 | a statement's nodes are the ids from its first on, each once |
| Layout.ModuleIds | nucleus/lang/parser.h:876-920 | a parsed module uses every id of the arena exactly once |
| Shapes.ModuleShaped | nucleus/lang/parser.h:464-920 | every node of an accepted module has the children of its type: an if conditions and bodies by turns and at most one body more, a function its arguments and then its body, a call its callee first, and so on |
| Grammar.ParsedIff | nucleus/lang/parser.h:464-920 | a tree is what some accepted stream leaves in the arena if and only if it is a module of that shape whose ids follow the order of allocation |
| Growing.Adopt | nucleus/lang/ast.h:230-253 | appending one whole tree to another leaves one tree and disturbs none before them |
| Growing.NodeOverTwo | nucleus/lang/parser.h:506-513 | a new node over two trees is their tree, and older nodes stay as they were |
| Growing.GrowBody | nucleus/lang/parser.h:583-585 | a statement appended to the body of an unfinished construct grows just that body |
| Parsing.Parser.Accept | nucleus/lang/parser.h:55-72 | consumes the token if and only if it is the expected one |
| Parsing.Parser.ExpectToken | nucleus/lang/parser.h:38-54 | consumes one token and reports any other than the expected one |
| Parsing.Parser.ParseVarType | nucleus/lang/parser.h:73-103 | refines the reading of a type, with its error codes |
| Parsing.Parser.TryParseVarType | nucleus/lang/parser.h:104-125 | a type is read exactly if a colon stands there |
| Parsing.Parser.ParseLink | nucleus/lang/parser.h:171-219 | one member link: a node over a symbol or member, a builtin function in place of a constructor, an error on anything else |
| Parsing.Parser.ParseMemberChain | nucleus/lang/parser.h:163-232 | the whole chain, its nodes linked below each other |
| Parsing.Parser.TryParseMemberChain | nucleus/lang/parser.h:233-251 | the chain if a dot stands there |
| Parsing.Parser.ParseSymbol | nucleus/lang/parser.h:252-269 | a symbol node without a target |
| Parsing.Parser.ParseCall | nucleus/lang/parser.h:270-309 | the call node holds its callee and then its arguments in order |
| Parsing.Parser.TryParseCall | nucleus/lang/parser.h:310-329 | a call if a parenthesis stands there |
| Parsing.Parser.ParseInsertOrSingleton | nucleus/lang/parser.h:330-361 | the node of the archetype; the last check is without effect |
| Parsing.Parser.ParseAtom | nucleus/lang/parser.h:362-420 | refines the reading of an atom and builds its layout |
| Parsing.Parser.ParsePrimary | nucleus/lang/parser.h:421-463 | refines the reading of a primary and builds its layout; what the nodes say is `Ungrouping.AcceptedSays` |
| Parsing.Parser.ParseExpr | nucleus/lang/parser.h:464-523 | the loop reads exactly what the recursive specification reads; the arena then holds that tree and is otherwise unchanged; it always ends; how operators group is `Grouping.ThreeOperands` and `Grouping.CanonIff` |
| Parsing.Parser.ParseOperation | nucleus/lang/parser.h:481-514 | one operator and its right operand become the new left operand |
| Parsing.Parser.ParseVarDecl | nucleus/lang/parser.h:524-550 | refines the reading of a let and builds its layout |
| Parsing.Parser.AddCompound | nucleus/lang/parser.h:551-563 | an empty body becomes the last child |
| Parsing.Parser.ParseBody | nucleus/lang/parser.h:564-588 | the body holds its statements in order and nothing else changed |
| Parsing.Parser.ParseIfStmt | nucleus/lang/parser.h:589-640 | the if node holds condition and body of each branch and then the else body |
| Parsing.Parser.ParseAssignStmt | nucleus/lang/parser.h:641-660 | the assignment holds its target and then its value |
| Parsing.Parser.ParseWhileStmt | nucleus/lang/parser.h:661-696 | the loop holds its condition and then its body |
| Parsing.Parser.ParseFunDecl | nucleus/lang/parser.h:697-790 | the function holds its arguments in order and then its body |
| Parsing.Parser.ParseReturnStmt | nucleus/lang/parser.h:791-807 | the return holds its value |
| Parsing.Parser.ParseStmt | nucleus/lang/parser.h:808-875 | refines the reading of a statement, error for error, and builds its layout |
| Parsing.Parser.ParseModule | nucleus/lang/parser.h:876-920 | from a cleared arena: the same errors as the reading, or the arena holds exactly the program's layout; after an error it is still a forest |
| Compiling.WholeArena | nucleus/lang/ast.h:203-253 | after a successful parse every allocated node hangs from node 0, which alone has no parent, and each is reached once |
| Compiling.ModuleNoRepeats | nucleus/lang/parser.h:876-920 | no id occurs twice in the parsed tree, and every allocated one occurs |
| Compiling.NodeOf | nucleus/lang/ast.h:213-253 | a tree lies in the array node by node: each at its id, with its payload and its first and last child |
| Compiling.ChildOf | nucleus/lang/ast.h:230-253 | and each child with its parent and the child after it |
| Scopes.ResolveSees | nucleus/lang/analyzer/symbol.h:52-103 | resolution succeeds if and only if every declaration is new where it stands and every reference sees one; it records what each sees and leaves the stack with what outlives the tree |
| Scopes.InSightIff | nucleus/lang/analyzer/symbol.h:61-103 | a declaration is in sight of a node if and only if it is a variable or argument that comes before it in preorder and every block and function around it holds the node |
| Scopes.ExportsAre | nucleus/lang/analyzer/symbol.h:91-98 | what outlives a tree is what no scope of the tree encloses |
| Scopes.ScopeSafety | nucleus/lang/analyzer/symbol.h:17-136 | every resolved reference points to a function of the module, or to an earlier variable or argument of its name, every block and function around which holds it |
| Visibility.ResolveLeaves | nucleus/lang/analyzer/symbol.h:52-103 | after a compound or a function declaration the stack is as before; after any other node it has the node's own declaration, if it is a variable or argument, and what its children leave |
| Visibility.KidsLeave | nucleus/lang/ast.h:517-533 | each child finds what the ones before it left |
| Visibility.LeavesIff | nucleus/lang/analyzer/symbol.h:91-98 | what a tree adds to the stack are its variables and arguments that no block or function of it holds |
| Visibility.BeforeIff | nucleus/lang/ast.h:496-533 | the order of the walk: a node before those below it and those to the right of its way down |
| Visibility.ResolvesIff | nucleus/lang/analyzer/symbol.h:104-136 | a module resolves if and only if its functions have different names, no variable or argument has a name that already means something there, and every reference has one that does |
| Visibility.RefusedIff | nucleus/lang/analyzer/symbol.h:17-136 | exactly when a module is refused with an unresolved symbol and exactly when with one defined twice, by the first node with which something is wrong; there is no other error |
| Visibility.RefersIff | nucleus/lang/analyzer/symbol.h:76-84 | a reference refers to a node if and only if that is a function of the module or a variable or argument in its sight, of its name |
| Visibility.ArgumentGone | nucleus/lang/analyzer/symbol.h:91-98 | the name of an argument may be declared again after its function |
| Limits.ModuleIff | nucleus/lang/analyzer/symbol.h:104-136 | a module resolves if and only if its functions have different names and fit the stack, every declaration is new and has room where it stands, and every reference sees a declaration; the references are then the ones they see |
| Limits.FunctionWins | nucleus/lang/analyzer/symbol.h:117-128 | a reference with the name of a function of the module refers to that function, wherever it stands |
| Stopping.StuckIff | nucleus/lang/analyzer/symbol.h:52-103 | from any stack, a tree is refused with an error if and only if that is what is wrong with the first node in preorder with which something is wrong |
| Stopping.DeclareStuckIff | nucleus/lang/analyzer/symbol.h:117-128 | the functions are refused with an error if and only if that is what is wrong with the first that cannot be declared |
| Stopping.ModuleStuckIff | nucleus/lang/analyzer/symbol.h:104-136 | the same of a module: first its functions, then its nodes |
| Stopping.ModuleOverflowIff | nucleus/lang/analyzer/symbol.h:10-51 | for every module, with symbol errors or without, exactly when it overflows the stack |
| Limits.FullOrSame | nucleus/lang/analyzer/symbol.h:36-51 | a stack of any size gives the result of an unlimited one or overflows |
| Limits.OverflowIff | nucleus/lang/analyzer/symbol.h:10-49 | in particular, a module that resolves without a limit overflows the stack if and only if it has too many functions or a declaration stands where the names in sight fill the stack; otherwise the limit makes no difference |
| Limits.ManyOverflow | nucleus/lang/analyzer/symbol.h:10-49 | for every size of the stack, a module that resolves without a limit and overflows it |
| Limits.ResolveKeeps | nucleus/lang/analyzer/symbol.h:52-103 | the stack only grows at its top and its names stay pairwise distinct |
| Limits.FewNodesFit | nucleus/lang/analyzer/symbol.h:10-12 | a module with no more nodes than the stack has places resolves as if the stack had no limit |
| Resolving.FillShape | nucleus/lang/analyzer/symbol.h:79-83 | writing the references into the arena gives the tree with its references filled in |
| Resolving.FillAt | nucleus/lang/analyzer/symbol.h:79-83 | filling in references changes the targets of those references and nothing else of the tree |
| Resolving.SymbolResolver.FindSymbol | nucleus/lang/analyzer/symbol.h:17-35 | the search from the top of the stack finds the innermost binding |
| Resolving.SymbolResolver.DefineSymbol | nucleus/lang/analyzer/symbol.h:36-51 | pushes a new name; a name already there is an error and changes nothing; a new name on a full stack is undefined |
| Resolving.SymbolResolver.Enter | nucleus/lang/analyzer/symbol.h:60-87 | what a node does before its children, to stack and arena |
| Resolving.SymbolResolver.ResolveReference | nucleus/lang/analyzer/symbol.h:76-84 | writes the declaration the name sees into the node, and nothing else |
| Resolving.SymbolResolver.ResolveScoped | nucleus/lang/analyzer/symbol.h:52-103 | the walk over the linked arena refines the environment semantics: same errors, same references, stack cut back on leaving a scope, every other part of the arena unchanged; which nodes are scopes is `Visibility.ResolveLeaves` |
| Resolving.SymbolResolver.ResolveChilds | nucleus/lang/ast.h:517-533 | the children are visited in order, each once |
| Resolving.SymbolResolver.DeclareAll | nucleus/lang/analyzer/symbol.h:117-128 | the functions of the module, and no others, are declared before anything is resolved |
| Resolving.SymbolResolver.Run | nucleus/lang/analyzer/symbol.h:104-136 | refines the resolution of a module |
| Resolving.ResolveSymbols | nucleus/lang/analyzer/symbol.h:104-136 | the arena then holds the tree with every reference filled in, or the same error is returned |
| Archetypes.KnownIff | nucleus/lang/analyzer/archetype.h:41-94 | archetype resolution accepts a tree if and only if every archetype that a node names is found |
| Archetypes.PicksRight | nucleus/lang/analyzer/archetype.h:41-94 | every node that names an archetype gets the one found under the hash of that name |
| Naming.ArchetypesIff | nucleus/lang/analyzer/archetype.h:29-94 | a program whose names resolve is refused for want of an archetype if and only if no registered one has the hash of one of the names in its types, its insertions and its singletons |
| Naming.PicksByType | nucleus/lang/analyzer/archetype.h:50-86 | the nodes that get an archetype are the variables, arguments and functions with the type of one, the insertions and the singletons, each the one of its name |
| Naming.UnknownResult | nucleus/lang/analyzer/archetype.h:65-70 | a function whose result has an unknown archetype is refused |
| Archetypes.ArchetypeResolver.ResolveNode | nucleus/lang/analyzer/archetype.h:50-86 | looks up the archetype that the node names, if it names one; which nodes do is `Naming.PicksByType` |
| Archetypes.ArchetypeResolver.ResolveArchetype | nucleus/lang/analyzer/archetype.h:41-94 | the walk over the linked arena refines these: an error exactly if a name is unknown, and else all that the nodes get |
| Archetypes.ResolveArchetypes | nucleus/lang/analyzer/archetype.h:96-110 | the same from the root |
| Compiling.Compiler.CompileText | nucleus/lang/compiler.h:83-118 | lexer, parser and both resolvers together compute the pure compilation of the text with the archetypes registered so far, whatever the arena held before |
| Compiling.Compiler.Check | nucleus/lang/analyzer.h:46-66 | symbols and then archetypes, with the error of the first that fails |
| Compiling.ModuleFits | nucleus/lang/compiler.h:51-59 | a program in an arena no larger than the stack resolves as if the stack had no limit |
| Compiling.CompiledScopes | nucleus/lang/compiler.h:90-118 | scope safety for every compiled program |
| Compiling.CompiledArchetypes | nucleus/lang/analyzer/archetype.h:13-27 | in a compiled program every variable, argument and function with the type of an archetype, every insertion and every singleton has the newest registered one whose stored name has the hash of that name |
| Hazards.CompileUndefinedIff | nucleus/lang/compiler.h:90-118 | for every text and arena, exactly when a compilation loops for ever, uses a node it did not make or writes past its stack of names |
| Hazards.SmallArena | nucleus/lang/compiler.h:51-59 | in an arena with no more nodes than the stack has places, as the default one, names never overflow the stack |
| Stripping.LayoutStrips | nucleus/lang/parser.h:428-436 | parentheses leave no trace in the arena, nor does a missing one |
| Programs.CompilesBack | nucleus/lang/compiler.h:90-118 | any program, printed, spelled as text and compiled, is in the arena as it was, with the references its scopes and the archetypes the registry determine, or their errors |
| Programs.CompiledSays | nucleus/lang/compiler.h:90-118 | after a compilation the nodes in the arena say the text, with its missing parentheses and without those that only group |
| Slotmap.GiveBackIff | nucleus/vm/slotmap.h:112-124 | giving a slot back keeps the free chain acyclic if and only if it was not free |
| Slotmap.FreeLinks | nucleus/vm/slotmap.h:60-88 | the first two bytes of a free object are the next free slot, or one more than the last slot |
| Slotmap.ChainUnique | nucleus/vm/slotmap.h:43-48 | links and head determine the free chain |
| Slotmap.OthersSame | nucleus/vm/slotmap.h:97-98 | bytes of one object overlap no other object and no other link |
| Slotmap.Slotmap.RemoveAll | nucleus/vm/slotmap.h:112-124 | slots put back in a row head the free chain in reverse order; no other live object changes |
| Slotmap.Slotmap.AddAll | nucleus/vm/slotmap.h:100-111 | taking slots in a row hands out the front of the chain |
| Slotmap.Slotmap.Recycle | tests/slotmap.c:79-92 | distinct live slots that are put back come back in the reverse order, and then the same slots are free and live as before |
| Slotmap.FreeCount | nucleus/vm/slotmap.h:100-111 | free and live slots together are all slots; the chain ends exactly when all are live |
| Slotmap.Slotmap.constructor | nucleus/vm/slotmap.h:60-88 | all slots are free, in ascending order |
| Slotmap.Slotmap.Get | nucleus/vm/slotmap.h:89-99 | the place of the object in the block, the object size times one less than the slot, or none for slot 0 |
| Slotmap.Slotmap.Add | nucleus/vm/slotmap.h:100-111 | hands out the head of the chain, which was not live, and changes no byte |
| Slotmap.Slotmap.Remove | nucleus/vm/slotmap.h:112-124 | the slot becomes the head of the chain; no live object changes, and of its own only the link |
| Slotmap.Slotmap.Write | nucleus/vm/slotmap.h:89-99 | a client's write through a live slot disturbs no other object and no link |
| Slotlist.PushFamily | nucleus/vm/slotmap.h:150-173 | prepending to one list keeps all lists in the shared array |
| Slotlist.BridgeFamily | nucleus/vm/slotmap.h:174-197 | bridging one slot takes it out of its list and keeps all others |
| Slotlist.LinksOf | nucleus/vm/slotmap.h:125-173 | the stored links of a slot are its neighbours in its list, or 0 |
| Slotlist.Slotlist.constructor | nucleus/vm/slotmap.h:132-149 | any number of empty lists |
| Slotlist.Slotlist.AddFirst | nucleus/vm/slotmap.h:150-173 | the slot is prepended to one list; nothing happens for the null slot |
| Slotlist.Slotlist.Remove | nucleus/vm/slotmap.h:174-197 | exactly this slot leaves exactly this list, its own links stay behind without effect |
| Slotlist.Slotlist.Next | nucleus/vm/slotmap.h:198-206 | following the links enumerates the list |
| Lists.List.constructor | nucleus/vm/list.h:47-54 | an empty list with nothing to use again |
| Lists.List.Append | nucleus/vm/list.h:56-98 | the object is appended; a removed one is used again, the last first, and only without one is a new one allocated; failure changes nothing |
| Lists.List.Remove | nucleus/vm/list.h:100-129 | the list stays valid, without exactly this object, if and only if the object was live; removing it twice makes the removed ones a ring and leaves the live ones alone |
| Lists.List.Unlink | nucleus/vm/list.h:107-122 | both link directions bridge the object |
| Lists.List.Release | nucleus/vm/list.h:124-128 | the object becomes the first to be used again |
| Lists.List.First | nucleus/vm/list.h:130-138 | the first live object |
| Lists.List.Next | nucleus/vm/list.h:140-153 | following the links enumerates the live objects in the order of appending |
| Lists.RingEndless | nucleus/vm/list.h:100-129 | no chain that starts in a ring ends |
| Lists.LinksOf | nucleus/vm/list.h:26-32 | the stored links of an object are its neighbours; the list knows both ends and the first removed object |
| Lists.AccountRemove | nucleus/vm/list.h:18-24 | live and removed objects stay disjoint and together all that were allocated |
| Strings.TimesPrimeBack | nucleus/vm/string.h:34-35 | the prime has an inverse modulo 2^32 |
| Strings.StepBijection | nucleus/vm/string.h:161-166 | for each byte, a step of the hash is a bijection of the 32-bit states |
| Strings.Hash | nucleus/vm/string.h:157-169 | the loop computes the fold of the steps |
| Strings.OneByteShows | nucleus/vm/string.h:157-169 | strings of one length that differ in exactly one byte have different hashes |
| Strings.XorBit | nucleus/vm/string.h:164 | a bit of the low ones is set exactly if it is set in one of the numbers; the others stay |
| Strings.FnvSteps | nucleus/vm/string.h:157-169 | the hash of nothing, and of one byte more, with both constants |
| Strings.FnvVector | nucleus/vm/string.h:157-169 | the published hash of the byte `a` |
| Strings.StrNLen | nucleus/vm/string.h:93-102 | the length, up to the maximum |
| Strings.IdentSetStr | nucleus/vm/string.h:74-80 | the ident holds the name, cut to thirty bytes, then zeros, and its length in the last of its 32 bytes |
| Strings.IdentUid | nucleus/vm/string.h:88-92 | the hash of what the ident holds |
| Registry.Registering | nucleus/vm/table.h:212-235 | a new archetype tiles on: all slices before it stay as they were |
| Registry.SlicesDisjoint | nucleus/vm/table.h:212-229 | no field belongs to two archetypes |
| Registry.FieldOwned | nucleus/vm/table.h:212-229 | every field belongs to one archetype |
| Registry.EntryOf | nucleus/vm/table.h:212-237 | where the name and the fields of an archetype lie in the two arrays, and where its link leads |
| Registry.EntrySizes | nucleus/vm/table.h:148-173 | each field adds the bytes of its type to the entry |
| Registry.StoredAt | nucleus/vm/table.h:213-221 | a field is stored with its type and archetype, under the first thirty bytes of its name |
| Registry.FindInNewest | nucleus/vm/table.h:240-254 | the search finds the newest archetype with that hash, or none has it |
| Registry.FoundIff | nucleus/vm/table.h:240-254 | an archetype is found by its own name if and only if no later name has its hash |
| Registry.RegisteredIff | nucleus/vm/table.h:187-237 | a new archetype is found by the hash of the full name it was registered under if and only if keeping thirty bytes of it leaves the hash; shorter names always are |
| Registry.LongNameLost | nucleus/vm/table.h:187-237 | of two names that differ in one byte beyond the thirtieth at least one is not found again |
| Registry.NotShadowed | nucleus/vm/table.h:240-254 | in particular if every later name differs from it in exactly one byte or in its hash |
| Registry.FindAtFirst | nucleus/vm/table.h:255-272 | the search finds the first such field of the archetype, or it has none |
| Registry.ZeroMeansNone | nucleus/vm/table.h:255-272 | the answer 0 always means that there is none if and only if the archetype does not own field 0 |
| Registry.Init | nucleus/vm/table.h:349-395 | an empty registry, or none if one of the four allocations fails |
| Registry.TableManager.constructor | nucleus/vm/table.h:375-395 | no archetypes, and all chunks free in ascending order |
| Registry.TableManager.Create | nucleus/vm/table.h:186-239 | appends the archetype and keeps all before it, or, exactly when an array is too short, changes nothing; an entry is as long as its fields together, and a chunk of 4096 bytes has as many as fit with six bytes more each |
| Registry.TableManager.Find | nucleus/vm/table.h:240-254 | following the links from the newest archetype is the search over all of them |
| Registry.TableManager.FindField | nucleus/vm/table.h:255-272 | searches exactly the archetype's own slice |

## Left out

- Error spans, token data in error messages and the spans of arena nodes: only error codes are modelled. The spans of tokens are part of the lexer.
- Source texts hold no zero character, as C strings do not.
- Spans.TokensSpan: for texts below 2^32 characters, because the reported index wraps there; `Scanning.LocCounts` says what it is beyond.
- Texts.TextRoundTrip: integers from 2^31 on are not spelled, because `nu_iparse` overflows a signed integer there, which C leaves undefined; `FixedPoint.Iparse` models it as wrapping around.
- Compiling.Compiler.CompileText: the printing of the tree between parsing and resolution is output.
- Archetypes.ArchetypeResolver.ResolveArchetype: the archetypes that nodes get are kept in a map beside the arena, not in the nodes; a type that is the primitive ENTITY, which the lexer never makes, names no archetype.
- Parsing.Parser.ParseBody: models the three statement loops of `if`, `while` and `function` bodies, which differ only in their stop tokens; the long C functions are split into several methods, and tail recursion of the member chain is kept as recursion.
- Parsing.Parser.ParseFunDecl: `exported` is always false, as at its only call.
- Resolving.SymbolResolver.ResolveChilds: the callback of `nulang__ast_foreach_childs` is a direct call.
- Lists.List.Append: nodes are objects with two links; the address arithmetic between an object and its header (`nucleus/vm/list.h:34-45`, `nucleus/vm/list.h:73-75`) is not modelled, and whether an allocation succeeds is a parameter.
- Slotmap.Slotmap.constructor: 16-bit links are stored low byte first; capacities above the documented maximum of 65534 are not modelled.
- Registry.TableManager.Create: names are kept as values cut to thirty bytes; the buffer itself is `Strings.IdentSetStr`. Chunk storage (`nucleus/vm/table.h:289-347`) is unfinished in the source and is not part of this model.
- `nu_ident_set`, ident padding, `nu_memset`, `nu_memcpy`, entity and field bit packing, and the unfinished functions of `nucleus/vm/math.h`.
- `nucleus/lang/analyzer/type.h`, which is not built, the interpreter, the renderer, cartridges, resources, properties and the allocator.
