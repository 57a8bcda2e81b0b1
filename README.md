# rust-c in Dafny

A model of rust-c, a small C compiler written in Rust that emits AT&T x86-64
assembly, together with `test.h`, the header-only growable array its sample
program uses.  The model covers the deterministic core of the compiler: the
lexer and its token table, the macro preprocessor, both generations of the
parser (the type-checking parser of `src/parser.rs` and `src/ast`, and the
newer syntax-only parser of `src/parser/ast`), the scope builder that
resolves and types the newer parser's tree, the data types of both, the
register model and the bookkeeping of the code generator.

Every operation is stated over values and proved against a contract; where
the source updates an object in place (the list header, the register
counters, the generator's output, the lexer cursor, the preprocessor's
macro list, the scope builder's frames) a class with those fields and
`modifies` clauses carries the same steps, proved against the value
functions.

Modules (one file each):

- `Util` (`util.dfy`): `Option`/`Result` and the decimal text Rust's `{}`
  formatting writes for numbers.
- `DynList` (`dynlist.dfy`): the `test.h` list.  The header lives in a class
  and the slots in an array; the allocator's addresses are integers supplied
  by the caller.
- `Register` (`register.dfy`): the register enumeration, its AT&T names at
  each operand width, and the two global counters (register index and width)
  as one `Registers` object.
- `Generator` (`generator.dfy`): what the generator emits.  Each `emit` is
  one `Line` record and `Render` gives its exact text.  Nested expression and
  statement code is passed in as already-emitted lines.
- `Tokens` (`tokens.dfy`): the token kinds and the ordered pattern table of
  `src/lexer/tokens.rs`.
- `Lexer` (`lexer.dfy`): `Lexer::new` as a scan of the whole input into
  token views ending in one EOF (first matching pattern wins, whitespace and
  newlines tracked for line and column), and the `Lexer` class as a cursor
  over them (`next`, `peek`, `expect`, `consume_line`, `reset`, errors).
- `LexerExamples` (`lexer_examples.dfy`): the table's first-match choice on
  particular inputs.
- `Preprocessor` (`preprocessor.dfy`): `#define` with and without
  parameters, `#include` from a map of file contents, macro replacement with
  argument substitution, the repeated passes until nothing expands, and the
  last pass that drops directive lines; the `Preprocessor` class runs the
  same steps on a `Lexer` object.
- `AstTypes` (`ast_types.dfy`): the type-checking parser's data types and
  their sizes, conversion and operand rules.
- `TypedAst` (`typed_ast.dfy`): that parser's nodes and the type each
  expression and assignment has.
- `ParserScope` (`parser_scope.dfy`): the scope that parser keeps: frames
  of variables, structs, typedefs and functions, and a stack-size counter.
- `TypedParser` (`typed_parser.dfy`): the type-checking parser, a function
  per `parse` method threading the cursor, scope, assignee and label
  counter.
- `TypedParserProperties` (`typed_parser_properties.dfy`): what that
  parser promises for every token sequence.
- `Syntax`, `SyntaxParser` (`syntax.dfy`, `syntax_parser.dfy`): the newer
  parser's tree and the parser, as functions over a cursor position.
- `SyntaxForms` (`syntax_forms.dfy`): what each of that parser's literal,
  type, loop, conditional and function parsers builds, for every token
  sequence: lists in source order, one pointer per `*`, the `else` of the
  innermost `if`, the filled-in parts of a `for`, prototypes and bodies.
- `SyntaxProperties`, `SyntaxExamples` (`syntax_properties.dfy`,
  `syntax_examples.dfy`): its properties for every input, and on particular
  token sequences.
- `ResolvedTypes` (`resolved_types.dfy`): the scope builder's types and
  resolved tree.
- `Scopes` (`scope.dfy`): the scope builder's frame stacks and bookkeeping,
  as values (`Frames`, `Builder`) and as the classes `Scope` and
  `ScopeBuilder` that update them in place.
- `Resolver`, `ResolverProperties` (`resolver.dfy`,
  `resolver_properties.dfy`): the scope builder's visitors, and what they
  promise.

## Model

| member | source | states |
|---|---|---|
| DynList.CastFindsHeader | test.h:12-14 | the handle is the block address plus two longs, and the cast goes back to the block |
| DynList.NextCapacityCases | test.h:20-32 | a fresh list takes capacity 128 without growing; a full list doubles; otherwise capacity stays; there is always room for the pushed element |
| DynList.AsWrittenUnderAllocates | test.h:26 | for elements wider than one byte, the realloc request as written is smaller than the doubled list and even than the old list plus one element |
| DynList.GrowRequestCovers | test.h:26 | the corrected request covers the header and every slot of the doubled list |
| DynList.PointListGrowth | test.h:26 | for `Point` the request as written is 272 bytes where 2064 are needed |
| DynList.List.Create | test.h:12 | a fresh list has a zeroed header, no elements and room for 128 slots |
| DynList.List.Len | test.h:16 | reads the header's length, which is the number of pushed elements |
| DynList.List.Cap | test.h:17 | reads the header's capacity, never below the number of elements |
| DynList.List.Free | test.h:18 | releases the header address, not the handle |
| DynList.List.Push | test.h:20-32 | appends the element, bumps the length, applies the capacity rule, and moves the block exactly when the list was full; a full push requests the corrected size of the Findings row on `test.h:26`, not the source's `sizeof(DynList) + capacity * 2` bytes |
| DynList.PointScenario | code.c:8-17 | ten pushes on a fresh list give length 10, capacity 128 and the element `{5, 165}` at index 5 |
| DynList.IntegerScenario | test.h:20-32 | 200 pushes on a fresh list grow it exactly once, to 256 slots, and keep every element; past the 128th push this holds for the corrected request size, since the source's request of 272 bytes does not hold the header and 129 ints |
| Register.IndexRoundTrip | src/generator/register.rs:27-45 | `get_index` and `index` are inverse on the 14 general registers; every index from 14 up is the stack slot |
| Register.ParameterRegister | src/generator/register.rs:84-94 | argument k travels in the k-th System V integer argument register |
| Register.AsAddress | src/generator/register.rs:121-126 | an address at offset 0 whose register index leads back to `r` itself when `r` is a general register, and to the stack slot otherwise |
| Register.WithOffset | src/generator/register.rs:128-136 | the same address register with the new displacement; only addresses qualify |
| Register.OffsetReplaces | src/generator/register.rs:128-136 | a new displacement replaces the old one: setting the old one again gives the original address, and two settings in a row equal the last alone |
| Register.AddressText | src/generator/register.rs:121-167 | an address made from a general register with displacement `k` prints as `k(%name)` with its 64-bit name, at every operand width |
| Register.LegacyNames | src/generator/register.rs:139-157 | the rax..rdi names at widths 1, 2, 4 and 8 |
| Register.NumberedNames | src/generator/register.rs:168-173 | r8..r15 take the suffix b, w or d at widths 1, 2 and 4, and none otherwise |
| Register.MemoryOperandsIgnoreWidth | src/generator/register.rs:158-167 | stack slots, immediates and addresses print the same at every width |
| Register.MemoryOperandNames | src/generator/register.rs:158-167 | a stack slot prints as `-16(%rbp)`, an immediate as `$-3`, an address through r10 as `4(%r10)` |
| Register.Registers.constructor | src/generator/register.rs:4-48 | the index starts at R10 and the width at 8 |
| Register.Registers.Push | src/generator/register.rs:53-61 | hands out the current register and advances; index 14 is out of registers |
| Register.Registers.Pop | src/generator/register.rs:63-67 | hands out the current register and steps back |
| Register.Registers.Current | src/generator/register.rs:69-72 | the register at the index |
| Register.Registers.SetSize | src/generator/register.rs:74-78 | stores the width and returns the previous one |
| Register.Registers.GetSize | src/generator/register.rs:80-82 | the width |
| Register.Registers.Display | src/generator/register.rs:139-176 | the text of a register at the current width; an address prints at width 8 and leaves the width as it was |
| Register.PushThenPop | src/generator/register.rs:53-67 | a push then a pop restore the index; the pop hands out the register after the pushed one |
| Generator.InstructionRendering | src/generator.rs:58-64 | the exact text of two-operand and one-operand instructions |
| Generator.ControlRendering | src/generator.rs:90-100 | the exact text of a jump, a label and the function prologue |
| Generator.LabelRendering | src/generator.rs:127-129 | a label whose name starts with `_` renders unlike any instruction, and unlike any other label |
| Generator.FrameBytes | src/generator.rs:116-121 | the reserved frame is a multiple of 16 above the frame size, at most 16 more |
| Generator.ClauseNamesNeverRepeat | src/generator.rs:150-156 | different counter values give different else and end labels, and an else label is never an end label |
| Generator.LabelNamesDistinct | src/generator.rs:158-164 | a loop's head, end and continue labels differ, and each kind differs between loops |
| Generator.Chunk | src/generator.rs:170-205 | the next chunk is 1, 2, 4 or 8 bytes, no more than remain, 8 whenever 8 remain, and more than half of what remains below 8 |
| Generator.ChunksCoverCopy | src/generator.rs:166-207 | the chunks add up to the byte count, never grow, and are powers of two up to 8 |
| Generator.LastChunkIsLowestBit | src/generator.rs:166-207 | the width a copy leaves behind is the lowest set bit of the byte count, capped at 8 |
| Generator.CopyReadsConsecutively | src/generator.rs:166-207 | each chunk is read at the offset where the previous chunks end |
| Generator.RestoreReversesSave | src/generator.rs:807-823 | the registers popped after a call are the ones pushed before it, reversed, one per register from R10 to the current one |
| Generator.ForDefinesJumpTargets | src/generator.rs:568-590 | a `for` places both labels its `continue` and `break` jump to |
| Generator.WhileLacksContinueTarget | src/generator.rs:592-606 | a `while` never writes the label its `continue` jumps to |
| Generator.WhileCorrectedDefinesJumpTargets | src/generator.rs:592-606 | the corrected `while` places both jump targets and adds only the continue label |
| Generator.Generator.Emit | src/generator.rs:54-56 | appends one line to the output |
| Generator.Generator.EmitIns | src/generator.rs:58-60 | appends a two-operand instruction at the current width |
| Generator.Generator.EmitSins | src/generator.rs:62-64 | appends a one-operand instruction at the current width |
| Generator.Generator.Mov | src/generator.rs:66-68 | appends `mov ` |
| Generator.Generator.Add | src/generator.rs:70-72 | appends `add ` |
| Generator.Generator.Sub | src/generator.rs:74-76 | appends `sub ` |
| Generator.Generator.Mul | src/generator.rs:78-80 | appends `imul` |
| Generator.Generator.Cmp | src/generator.rs:82-84 | appends `cmp ` |
| Generator.Generator.Lea | src/generator.rs:111-114 | sets the width to 8, then appends `lea ` |
| Generator.Generator.GenCmp | src/generator.rs:102-109 | compare, clear, then the set instruction at width 1; the width is put back |
| Generator.Generator.GenerateClauseNames | src/generator.rs:150-156 | the names for the counter's value; the counter moves on by one |
| Generator.Generator.MovBytes | src/generator.rs:166-207 | emits the chunked copy, leaves the register index alone and the width at the last chunk's size |
| Generator.Generator.EmitContinue | src/generator.rs:289-292 | a jump to the loop's `_expression` label |
| Generator.Generator.EmitBreak | src/generator.rs:293-296 | a jump to the loop's `_labelend` label |
| Generator.Generator.EmitWhile | src/generator.rs:592-606 | the `while` skeleton around the given code |
| Generator.Generator.EmitFor | src/generator.rs:568-590 | the `for` skeleton around the given code |
| Generator.Generator.EmitIf | src/generator.rs:545-566 | the `if` skeleton around the given code and the clause counter's next value |
| Generator.Generator.EmitCall | src/generator.rs:798-828 | arguments into the ABI registers, the saves, the call, the restores in reverse order, then the result from RAX; the register index ends where it began |
| Generator.Generator.SaveRegisters | src/generator.rs:807-814 | pushes every register from the current one down to R10 |
| Generator.Generator.RestoreRegisters | src/generator.rs:817-823 | pops every register from R10 back up to the one current before the call |
| Tokens.FromFollowsDeclaration | src/lexer/tokens.rs:22-44 | `Token::from(i)` is the i-th declared kind for i up to 15, and ERR from 16 on |
| Tokens.FromInjective | src/lexer/tokens.rs:22-44 | `from` gives each of the first sixteen kinds to exactly one index |
| Tokens.RunEndIsLongest | src/lexer/tokens.rs:54-55 | the match of `[0-9]+` or `\w+` at an offset is the longest run of that class |
| Tokens.MatchEndCases | src/lexer/tokens.rs:46-62 | a literal pattern matches where its text occurs and ends after it; a repetition matches on a character of its class and takes the whole run |
| Tokens.RulesNeverEof | src/lexer.rs:40-44 | the table pairs pattern i with `Token::from(i)`; with fifteen patterns it never produces EOF or ERR |
| Lexer.TrimStartKeepsInside | src/lexer.rs:68 | trimming the start removes only white space, up to a character that is not white space |
| Lexer.TrimEndKeepsInside | src/lexer.rs:68 | trimming the end removes only white space, back to a character that is not white space |
| Lexer.SkipSpaceSkipsSpace | src/lexer.rs:86-88 | the white-space loop passes only ASCII white space and stops before anything else or at the end |
| Lexer.FirstMatchIsFirst | src/lexer.rs:93-101 | the pattern search finds a rule exactly when one matches non-empty text starting at the offset, and then the first such rule |
| Lexer.FirstMatchIsLeast | src/lexer.rs:93-101 | the rule chosen has the least index among all rules that match there |
| Lexer.NextTokenPanics | src/lexer.rs:85-108 | `next_token` panics exactly when text other than white space is left and no rule matches where it begins |
| Lexer.NextTokenEof | src/lexer.rs:89-91 | with a table that never produces EOF, EOF comes exactly when only white space is left, and leaves the offset at the end |
| Lexer.AdvanceAppend | src/lexer.rs:58-64 | counting positions through two texts in turn is counting through their concatenation |
| Lexer.AdvanceCountsLines | src/lexer.rs:58-64 | the line number rises by one per newline |
| Lexer.AdvanceCountsColumns | src/lexer.rs:58-64 | on a text without a newline the column rises by its length |
| Lexer.AdvanceRestartsColumn | src/lexer.rs:58-64 | after a newline the column is the number of bytes that follow the last newline |
| Lexer.ScanEndsWithOneEof | src/lexer.rs:53-77 | the token vector holds exactly one EOF, its last view |
| Lexer.ScanDescribes | src/lexer.rs:53-77 | each view records the kind `next_token` gives from where the previous token ended, the trimmed text of its slice, the position after its bytes and the offset where its slice began |
| Lexer.Tokenize | src/lexer.rs:39-83 | the loop builds exactly the scanned views, and panics exactly when the scan does |
| Lexer.CountBytes | src/lexer.rs:58-64 | the byte loop ends at the position that counting the text gives |
| Lexer.NextTokenAt | src/lexer.rs:85-108 | the loop and the pattern search give what `next_token` specifies, the panic included |
| Lexer.ErrorAt | src/lexer.rs:30-37 | the error carries the message, line and column of the token at the index, and indexing past the end panics |
| Lexer.ViewAt | src/lexer.rs:127-132 | the view at the index, or the last view at the end |
| Lexer.ExpectAt | src/lexer.rs:134-143 | one token is consumed; on a match the result is its text |
| Lexer.ExpectAtCases | src/lexer.rs:134-143 | `expect` succeeds exactly when the consumed token has the expected kind; otherwise the error points at the token after it, which panics when the consumed one was last |
| Lexer.ExpectAllAt | src/lexer.rs:145-156 | on success the cursor has moved past every expected token |
| Lexer.ExpectAllMatches | src/lexer.rs:145-156 | `expect_tokens` succeeds exactly when the next tokens are the expected ones, and then gives the text of the last |
| Lexer.ExpectAllLands | src/lexer.rs:145-156 | a successful `expect_tokens` ends past all the expected tokens |
| Lexer.ConsumeLineEnd | src/lexer.rs:180-192 | `consume_line` moves forward and stops within the vector |
| Lexer.ConsumeLineStops | src/lexer.rs:180-192 | `consume_line` stops at the first later token that is EOF or starts a new line; a line ending in an escaped newline goes on to the next line |
| Lexer.NewLexer | src/lexer.rs:39-83 | a cursor at index 0 over the scanned views, or none where tokenising panics |
| Lexer.Lexer.Error | src/lexer.rs:30-37 | the error at the cursor's token, a panic at the end of the vector |
| Lexer.Lexer.Next | src/lexer.rs:110-118 | EOF without moving once past the end; otherwise the token at the cursor, and the cursor moves by one |
| Lexer.Lexer.Current | src/lexer.rs:120-125 | the token at the cursor, or the last one at the end; it is EOF exactly from the last view on |
| Lexer.Lexer.CurrentView | src/lexer.rs:127-132 | the view at the cursor, or the last one at the end |
| Lexer.Lexer.Expect | src/lexer.rs:134-143 | the cursor moves by one and the result is what `expect` specifies |
| Lexer.Lexer.ExpectTokens | src/lexer.rs:145-156 | the result and the cursor are what `expect_tokens` specifies |
| Lexer.Lexer.LastString | src/lexer.rs:158-164 | the text of the token before the cursor; an escaped newline gives back backslash and newline |
| Lexer.Lexer.Peek | src/lexer.rs:166-169 | the kind of the token at the cursor, EOF exactly at the last view |
| Lexer.Lexer.PeekStr | src/lexer.rs:171-174 | the text of the token at the cursor |
| Lexer.Lexer.Reset | src/lexer.rs:176-178 | the cursor goes back to 0 |
| Lexer.Lexer.ConsumeLine | src/lexer.rs:180-192 | the cursor ends where `consume_line` specifies |
| Lexer.Lexer.CurrentIndex | src/lexer.rs:194-196 | the offset where the cursor's token began |
| Lexer.Lexer.CurrentLine | src/lexer.rs:198-200 | the line of the cursor's token |
| LexerExamples.PicksRule | src/lexer.rs:93-101 | where no white space stands, `next_token` takes rule k when it matches and no earlier rule does |
| LexerExamples.IntegerLexesAsIntFirst | src/lexer/tokens.rs:46-62 | keywords come before `\w+`, so `integer` starts with INT |
| LexerExamples.IntegerLexesEgerAsIdent | src/lexer/tokens.rs:46-62 | and goes on with IDENT `eger` |
| LexerExamples.DigitsLexBeforeWords | src/lexer/tokens.rs:55-56 | `123abc` starts with INTLITERAL `123` |
| LexerExamples.WordsLexAfterDigits | src/lexer/tokens.rs:55-56 | and goes on with IDENT `abc` |
| LexerExamples.ReturnWithoutSpaceIsIdent | src/lexer/tokens.rs:54 | the RETURN pattern includes a space, so `return;` starts with IDENT `return` |
| LexerExamples.ReturnWithSpaceIsReturn | src/lexer/tokens.rs:54 | with the space, `return x` starts with RETURN |
| LexerExamples.ReturnTextIsTrimmed | src/lexer.rs:68 | the text RETURN keeps is `return`, with the matched space trimmed off |
| Util.NatToString | src/generator.rs:150-164 | the decimal text of a natural is a non-empty run of digits, one digit exactly below 10 |
| Util.IntToString | src/generator/register.rs:158-167 | the decimal text of an integer is non-empty and starts with `-` exactly for negative values |
| Util.DigitsValueOfNatToString | src/ast/expression.rs:99-103 | reading back the decimal text of a natural gives the natural |
| Util.NatToStringInjective | src/generator.rs:150-164 | distinct naturals have distinct decimal texts, so numbered labels never clash |
| Tokens.RunEnd | src/lexer/tokens.rs:55-56 | a run of a character class starting at an offset ends within the text, at or after it |
| Tokens.MatchEnd | src/lexer.rs:93-101 | a non-empty match that starts at the offset ends after it, within the text |
| Tokens.Rules | src/lexer.rs:40-44 | the table has one rule per pattern, pattern i producing `Token::from(i)` |
| Lexer.TrimStart | src/ast/expression.rs:101 | trimming leading white space never lengthens a text |
| Lexer.TrimEnd | src/lexer.rs:68 | trimming trailing white space never lengthens a text |
| Lexer.SkipSpace | src/lexer.rs:86-88 | the white-space skip stops within the text, at or after where it began |
| Lexer.FirstMatch | src/lexer.rs:93-101 | the chosen rule's match is non-empty and ends within the text |
| Lexer.NextToken | src/lexer.rs:85-108 | `next_token` never moves back, stays within the text, and moves forward for every kind but EOF |
| Lexer.ShiftPosition | src/lexer.rs:58-64 | counting lines and columns over a text in two parts is counting over the first, then on over the second |
| Lexer.ConsumeLineLoop | src/lexer.rs:182-191 | the loop of `consume_line` stops within the vector and, before its end, moves forward |
| Preprocessor.ParametersAt | src/preprocessor.rs:104-115 | the parameter loop moves forward and stops within the vector |
| Preprocessor.DefineBody | src/preprocessor.rs:121-139 | the body of a definition ends within the vector, at or after where it began |
| Preprocessor.DefineTail | src/preprocessor.rs:98-139 | the rest of a definition after its name ends within the vector |
| Preprocessor.DefineAt | src/preprocessor.rs:90-140 | `parse_define` moves forward and stops within the vector |
| Preprocessor.ParseMacroAt | src/preprocessor.rs:142-166 | `parse_macro` moves forward and stops within the vector |
| Preprocessor.ArgumentEnd | src/preprocessor.rs:189-206 | the argument scan stops on a token of the vector, at or after where it began |
| Preprocessor.ArgumentsAt | src/preprocessor.rs:185-216 | the argument loop stops on a token of the vector, at or after where it began |
| Preprocessor.ExpandMacroAt | src/preprocessor.rs:168-249 | `expand_macros` never moves back and stays within the vector |
| Preprocessor.MoreFuelSameViews | src/preprocessor.rs:67-71 | once the passes over a scanned text have settled, more passes change nothing |
| Preprocessor.ReplaceEscapesHead | src/preprocessor.rs:85 | the replaced text starts with the original's first character, or with the space of a replaced escape |
| DynList.List.Grow | test.h:25-29 | a full push moves the slots to a fresh block of twice the capacity at the new address, keeping every element, and requests the bytes the corrected size gives |
| Generator.PrologueRendering | src/generator.rs:90-100 | the prologue of a 20-byte frame reserves 32 bytes, character for character |
| Generator.SingleRendering | src/generator.rs:62-64 | `sete` at width 1 on R10 renders as `\tsete\t%r10b\n` |
| Generator.WhileLinesAfter | src/generator.rs:592-606 | emitting the `while` skeleton line by line in the visitor's order appends the skeleton |
| Generator.ForLinesAfter | src/generator.rs:568-590 | emitting the `for` skeleton line by line in the visitor's order appends the skeleton |
| AstTypes.FirstNamedNames | src/ast/data_type.rs:76-78 | the field found by name carries that name |
| ResolvedTypes.FirstFieldIsFirst | src/scope_builder/ast/data_type.rs:45-50 | a field is found exactly when one has the name, and it is the first such field |
| Preprocessor.FindIsFirst | src/preprocessor.rs:170 | the macro lookup finds nothing exactly when no macro has the name, and otherwise the first one that has it |
| Preprocessor.EarlierDefinitionWins | src/preprocessor.rs:142-148 | defining a name again does not change what it expands to: the first definition wins |
| Preprocessor.NewDefinitionIsFound | src/preprocessor.rs:142-148 | a name not yet defined expands to the next macro defined for it |
| Preprocessor.ParamIndexIsFirst | src/preprocessor.rs:226-229 | the parameter lookup finds nothing exactly when the name is not a parameter, and otherwise the first parameter with the name |
| Preprocessor.Slice | src/preprocessor.rs:125 | taking a slice of the input panics exactly when the bounds fall outside the text |
| Preprocessor.ArgumentEndIsFirstClose | src/preprocessor.rs:186-206 | an argument ends at the first `)` or `,` at parenthesis depth 0; reaching EOF first panics |
| Preprocessor.SubstituteIsPasted | src/preprocessor.rs:220-240 | the replacement loop pastes, in order, the argument of each parameter name and the text of every other token, and panics exactly when a parameter has no argument |
| Preprocessor.ParametersAlternate | src/preprocessor.rs:100-119 | a parameter list alternates names and commas up to `)`; the names are the texts at every second token, in order |
| Preprocessor.ParametersEcho | src/preprocessor.rs:102-117 | the echoed parameter list is the names joined by commas |
| Preprocessor.ParametersStep | src/preprocessor.rs:104-115 | one round of the parameter loop takes a name, then stops at `)` or goes on after `,` |
| Preprocessor.DefineRecords | src/preprocessor.rs:90-140 | every accepted definition records the macro the tokens spell: the name, the parameters exactly when `(` follows, and the echoed definition line |
| Preprocessor.LiteralDefineRecords | src/preprocessor.rs:121-139 | without `(` the macro is a literal one |
| Preprocessor.FunctionDefineRecords | src/preprocessor.rs:100-134 | with a parameter list the macro is function-like, with those parameters |
| Preprocessor.ParameterList | src/preprocessor.rs:100-119 | a whole parameter list puts the names at every second token and echoes them in parentheses |
| Preprocessor.DefineSteps | src/preprocessor.rs:90-119 | `define`, then a name, then a parameter list exactly when `(` follows |
| Preprocessor.DefineBodyRecords | src/preprocessor.rs:121-139 | the replacement is the input from the current token to the start of the next line, echoed with a newline |
| Preprocessor.ExpandMacroCases | src/preprocessor.rs:168-249 | with no macro of the name, a space and the name are copied; a literal macro pastes its replacement; any expansion sets the flag and the macro list stays the same |
| Preprocessor.DirectiveKeeps | src/preprocessor.rs:142-166 | a directive appends at most one macro and keeps the expansion flag |
| Preprocessor.PassKeepsDefinitions | src/preprocessor.rs:52-65 | a pass reads to the end of the vector; definitions are appended in order and the flag, once set, stays set |
| Preprocessor.MoreFuelSameExpansion | src/preprocessor.rs:67-71 | once the passes have settled, more passes change nothing |
| Preprocessor.ExpansionRepeats | src/preprocessor.rs:67-71 | a pass that expanded something is followed by a pass over its output |
| Preprocessor.SkipDirectives | src/preprocessor.rs:77-79 | skipping stops at a token that does not start a directive line |
| Preprocessor.FinalPassSkipsDirective | src/preprocessor.rs:76-83 | the final loop drops a directive line and goes on as if it were not there |
| Preprocessor.FinalPassKeepsToken | src/preprocessor.rs:80-82 | a token outside directives is kept, with one space after it |
| Preprocessor.FinalPassAgrees | src/preprocessor.rs:76-83 | whenever the final loop as written does not panic, it gives what the corrected loop gives |
| Preprocessor.TrailingDirectivePanics | src/preprocessor.rs:76-83 | when the skipped directive lines run up to EOF, the loop as written takes the EOF and then reads past the vector |
| Preprocessor.DefinitionAloneMakesFinalPassPanic | src/preprocessor.rs:76-83 | on a text that is only `#define A 1` the loop as written panics, and the corrected one gives the empty text |
| Preprocessor.ReplaceEscapesLeavesNone | src/preprocessor.rs:85 | no escaped newline is left after the replacement |
| Preprocessor.ReplaceEscapesKeepsPlain | src/preprocessor.rs:85 | a text without escaped newlines is left as it is |
| Preprocessor.NewPreprocessor | src/preprocessor.rs:40-47 | a preprocessor over the content's tokens with no macros and nothing expanded, or none where lexing panics |
| Preprocessor.JoinTokens | src/preprocessor.rs:73-87 | the last step gives the final output: the token texts joined by spaces, directive lines dropped, escaped newlines turned into spaces; it follows the corrected final loop of the Findings (a text whose directive lines run to its end gives the text before them, where the source panics) |
| Preprocessor.SkipDirectiveLines | src/preprocessor.rs:77-79 | the cursor ends where skipping the directive lines ends |
| Preprocessor.Preprocessor.ParseDefine | src/preprocessor.rs:90-140 | the result and the cursor are those of the definition function |
| Preprocessor.Preprocessor.ParseBody | src/preprocessor.rs:121-139 | the result and the cursor are those of the body function |
| Preprocessor.Preprocessor.ParseParameters | src/preprocessor.rs:100-119 | the result and the cursor are those of the parameter function |
| Preprocessor.Preprocessor.ParseMacro | src/preprocessor.rs:142-166 | the object and the output reach the state the directive function gives |
| Preprocessor.Preprocessor.ParseArguments | src/preprocessor.rs:184-218 | the result and the cursor are those of the argument function |
| Preprocessor.Preprocessor.ExpandMacros | src/preprocessor.rs:168-249 | the object and the output reach the state the expansion function gives |
| Preprocessor.Preprocessor.Substitute | src/preprocessor.rs:220-240 | the output is that of the replacement function |
| Preprocessor.Preprocessor.Expand | src/preprocessor.rs:49-88 | the output is the expansion the pass functions give, within the fuel bound; its last step is the corrected final loop of the Findings |
| AstTypes.NewVariable | src/ast/statement.rs:127 | a variable at base `b` records `b` plus its type's size as its offset |
| AstTypes.NewStruct | src/ast/data_type.rs:60-66 | the struct keeps its name and fields in order, and caches their summed size |
| AstTypes.NewStructSize | src/ast/data_type.rs:60-66 | appending a field to the list grows the cached size by that field's size |
| AstTypes.FieldsSizeAppend | src/ast/data_type.rs:63 | the summed size of two field lists in turn is the sum of their summed sizes |
| AstTypes.SizeTable | src/ast/data_type.rs:23-32 | INT 4, CHAR 1, LONG 8, a pointer 8, VOID 0, and a struct its cached size |
| AstTypes.CanConvertReflexive | src/ast/data_type.rs:34-45 | every type converts to itself |
| AstTypes.CanConvertStructs | src/ast/data_type.rs:34-45 | where a struct is involved, conversion holds exactly between equal types |
| AstTypes.CanConvertPointers | src/ast/data_type.rs:37-42 | a pointer converts to a pointer with the same base, to any pointer when it is `void*`, and to INT, and to nothing else |
| AstTypes.CanConvertFromPrimitive | src/ast/data_type.rs:43 | a primitive converts to every primitive and every pointer |
| AstTypes.CanConvertAsymmetric | src/ast/data_type.rs:34-45 | conversion is not symmetric: LONG converts to `int*`, but `int*` does not convert to LONG |
| AstTypes.CanOperateCases | src/ast/data_type.rs:47-56 | two operand types may meet exactly when neither is VOID or a struct |
| AstTypes.FirstNamedIsFirst | src/ast/data_type.rs:76-78 | the field lookup finds a field exactly when one has the name, and then the first such field |
| AstTypes.GetFindsFirst | src/ast/data_type.rs:76-78 | `get` on a struct gives the first field with the name, or none when no field has it |
| ResolvedTypes.NewStruct | src/scope_builder/ast/data_type.rs:39-43 | the struct keeps the field list as given |
| ResolvedTypes.SizeTable | src/scope_builder/ast/data_type.rs:18-28 | INT 4, CHAR 1, LONG 8, a pointer 8, VOID and the empty struct 0, a struct the sum of its field sizes |
| ResolvedTypes.FieldsSizePrefix | src/scope_builder/ast/data_type.rs:24 | the size of the first n fields depends on those fields only |
| ResolvedTypes.NewStructSize | src/scope_builder/ast/data_type.rs:24 | a struct grows by the size of each field appended to it |
| ResolvedTypes.IsNumberCases | src/scope_builder/ast/data_type.rs:30-35 | `is_number` holds exactly for INT, LONG and CHAR, and a number has a positive size |
| ResolvedTypes.FieldIsFirst | src/scope_builder/ast/data_type.rs:45-50 | `field` finds a type exactly when a field has the name, and then gives the type of the first such field |
| ResolvedTypes.TypeOfTable | src/scope_builder/ast/resolved_expression.rs:60-76 | literals and `sizeof` have fixed types, every other kind the type recorded in it |
| Syntax.LevelOf | src/parser/ast/expression.rs:353-360 | the level of an operator token is the index of the precedence row that holds it |
| Syntax.LevelsHoldOperators | src/parser/ast/expression.rs:353-360 | the six precedence rows, from `||` down to `*` `/` `%`, hold exactly the binary operator tokens, each in one row |
| SyntaxParser.Fail | src/parser/ast/expression.rs:75 | the `?` operator passes the error on and keeps the cursor where it failed |
| SyntaxParser.Expect | src/parser/ast/statement.rs:42 | `expect` succeeds exactly when the token at the cursor has the kind, and then moves past it |
| SyntaxParser.UnaryOpOf | src/parser/ast/expression.rs:213-223 | the five unary tokens make a negation, a logical not, an address-of, a dereference or a complement, never a cast |
| SyntaxParser.ParseExpression | src/parser/ast/expression.rs:352-372 | a parsed expression consumes at least one token and stays within the views |
| SyntaxParser.ParseBinary | src/parser/ast/expression.rs:259-270 | a parsed level consumes at least one token |
| SyntaxParser.BinaryLoop | src/parser/ast/expression.rs:272-349 | the operator loop never moves the cursor back |
| SyntaxParser.ParseFactor | src/parser/ast/expression.rs:230-257 | a parsed factor consumes at least one token |
| SyntaxParser.ParseUnary | src/parser/ast/expression.rs:210-228 | a unary operation consumes at least one token |
| SyntaxParser.ParsePostfix | src/parser/ast/expression.rs:194-208 | a postfix expression consumes at least one token |
| SyntaxParser.PostfixLoop | src/parser/ast/expression.rs:196-206 | the suffix loop never moves the cursor back |
| SyntaxParser.IndexingLoop | src/parser/ast/expression.rs:148-162 | the `[e]` loop never moves back, and moves on when a `[` stands at the cursor |
| SyntaxParser.FieldLoop | src/parser/ast/expression.rs:164-177 | the `.name` loop never moves back, and moves on when a `.` stands at the cursor |
| SyntaxParser.ArrowLoop | src/parser/ast/expression.rs:179-192 | the `->name` loop never moves back, and moves on when a `->` stands at the cursor |
| SyntaxParser.ParseLiteral | src/parser/ast/expression.rs:80-146 | an operand consumes at least one token |
| SyntaxParser.ParseAssignment | src/parser/ast/assignment.rs:30-88 | an assignment consumes at least its `=` |
| SyntaxParser.ParseArray | src/parser/ast/array_expression.rs:18-37 | an array literal consumes at least one token; its forms are proved in SyntaxForms.ArrayForms and SyntaxForms.ElementsInOrder |
| SyntaxParser.ArrayLoop | src/parser/ast/array_expression.rs:26-32 | the element loop never moves back |
| SyntaxParser.ParseStructExpression | src/parser/ast/struct_expression.rs:13-28 | a struct literal consumes at least its closing `}`; its fields are proved in SyntaxForms.LiteralFieldsInOrder |
| SyntaxParser.ParseFunctionCall | src/parser/ast/function_call.rs:14-32 | a call consumes at least its `(`; its name and arguments are proved in SyntaxForms.CallForms and SyntaxForms.ArgumentsInOrder |
| SyntaxParser.ArgumentLoop | src/parser/ast/function_call.rs:20-25 | the argument loop never moves back |
| SyntaxParser.ParseTypeExpression | src/parser/ast/type_expression.rs:21-64 | a type expression consumes at least its first token; its base and pointer levels are proved in SyntaxForms.TypeExpressionForms |
| SyntaxParser.ParseTypeof | src/parser/ast/type_expression.rs:49-54 | `typeof ( e )` consumes its tokens |
| SyntaxParser.ParseStructType | src/parser/ast/type_expression.rs:23-47 | a struct type consumes at least its name; its name and fields are proved in SyntaxForms.StructTypeForms and SyntaxForms.FieldsInOrder |
| SyntaxParser.FieldLines | src/parser/ast/type_expression.rs:32-37 | the field loop never moves back |
| SyntaxParser.PointerLoop | src/parser/ast/type_expression.rs:58-62 | the `*` loop never moves back |
| SyntaxParser.ParseTypeDefinition | src/parser/ast/type_definition.rs:14-21 | a type definition consumes at least `typedef`; its parts are proved in SyntaxForms.TypedefForms |
| SyntaxParser.Semicolon | src/parser/ast/statement.rs:117-118 | a simple statement succeeds only with a `;` after it, which it consumes, and keeps the statement |
| SyntaxParser.ParseStatement | src/parser/ast/statement.rs:31-119 | a statement consumes at least one token |
| SyntaxParser.ParseDeclaration | src/parser/ast/statement.rs:62-102 | a declaration statement consumes at least one token |
| SyntaxParser.ParseCompound | src/parser/ast/compound_statement.rs:13-30 | a compound statement consumes at least one token |
| SyntaxParser.StatementLoop | src/parser/ast/compound_statement.rs:22-25 | the statement loop never moves back |
| SyntaxParser.ParseIf | src/parser/ast/if_statement.rs:22-41 | an `if` consumes at least its keyword; its parts are proved in SyntaxForms.IfForms and SyntaxForms.ElseBindsInnermost |
| SyntaxParser.ParseParenthesised | src/parser/ast/if_statement.rs:24-26 | a parenthesised condition consumes its tokens |
| SyntaxParser.ParseWhile | src/parser/ast/while_statement.rs:14-21 | a `while` consumes at least its keyword; its parts are proved in SyntaxForms.WhileForm |
| SyntaxParser.ParseFor | src/parser/ast/for_statement.rs:16-45 | a `for` consumes at least its keyword; its parts are proved in SyntaxForms.ForCondition, SyntaxForms.ForMissingPost and SyntaxForms.ForPresentPost |
| SyntaxParser.ParseOptional | src/parser/ast/for_statement.rs:30-34 | an expression that is there consumes at least one token |
| SyntaxParser.ParseFunction | src/parser/ast/function.rs:16-53 | a function consumes at least its return type; its parts are proved in SyntaxForms.FunctionSignature, SyntaxForms.ParametersInOrder, SyntaxForms.Prototype and SyntaxForms.Definition |
| SyntaxParser.ParameterLoop | src/parser/ast/function.rs:23-31 | the parameter loop never moves back |
| SyntaxParser.DeclarationLoop | src/parser/ast/program.rs:25-32 | the declaration loop never moves back |
| SyntaxParser.ParseProgram | src/parser/ast/program.rs:23-37 | the program parse stays within the views |
| SyntaxForms.PastComma | src/parser/ast/array_expression.rs:29-31 | one comma after an element is skipped, and nothing else |
| SyntaxForms.ArrayLoopAppends | src/parser/ast/array_expression.rs:25-32 | the element loop appends the elements it reads, in order, to those already read, and fails exactly where the loop from no elements fails |
| SyntaxForms.ArrayLoopStops | src/parser/ast/array_expression.rs:26-32 | a successful element loop stops on `}` without taking it |
| SyntaxForms.ElementsInOrder | src/parser/ast/array_expression.rs:25-32 | the element list is empty at `}`, and otherwise is the first expression followed by the elements after it and an optional comma |
| SyntaxForms.ArrayForms | src/parser/ast/array_expression.rs:18-37 | an array literal is a string literal when a string follows `{`, and otherwise the stack array of the loop's elements, succeeding exactly when the loop does and ending just after its `}` |
| SyntaxForms.ArgumentLoopAppends | src/parser/ast/function_call.rs:19-25 | the argument loop appends the arguments it reads, in order, and fails exactly where the loop from no arguments fails |
| SyntaxForms.ArgumentLoopStops | src/parser/ast/function_call.rs:20-25 | a successful argument loop stops on `)` without taking it |
| SyntaxForms.ArgumentsInOrder | src/parser/ast/function_call.rs:19-25 | the arguments are empty at `)`, and otherwise are the first expression followed by the arguments after it and an optional comma |
| SyntaxForms.CallForms | src/parser/ast/function_call.rs:14-32 | a successful call starts with `(`, is named by the token before it, carries the loop's arguments, and ends just after `)` |
| SyntaxForms.CallNamesIdentifier | src/parser/ast/expression.rs:123-126 | a successful literal that is an identifier followed by `(` is a call named by that identifier |
| SyntaxForms.LiteralFieldsAppend | src/parser/ast/struct_expression.rs:14-24 | the field loop appends the fields it reads, in order, and fails exactly where the loop from no fields fails |
| SyntaxForms.LiteralFieldsInOrder | src/parser/ast/struct_expression.rs:13-28 | a struct literal is empty at `}`; otherwise it succeeds only through `.`, a name and `=`, and its first field is that name with the expression after `=`, followed by the rest |
| SyntaxForms.LiteralFieldsStop | src/parser/ast/struct_expression.rs:21-27 | a successful struct literal ends just after a `}` |
| SyntaxForms.Stars | src/parser/ast/type_expression.rs:58-62 | the number of `*` tokens in a row from a position |
| SyntaxForms.StarsAddPointers | src/parser/ast/type_expression.rs:58-62 | the pointer loop wraps the type in one `Pointer` per `*`, and panics when the `*` run reaches the end of the tokens |
| SyntaxForms.TypeExpressionForms | src/parser/ast/type_expression.rs:21-64 | the base type follows the first token (`struct`, a name, `typeof` or a primitive), and the result is that base under one pointer level per `*` after it |
| SyntaxForms.TypeofForm | src/parser/ast/type_expression.rs:49-54 | `typeof` is followed by `(`, an expression and `)`, and gives the type of that expression |
| SyntaxForms.FieldLinesAppend | src/parser/ast/type_expression.rs:31-37 | the struct field loop appends the fields it reads, in order, and fails exactly where the loop from no fields fails |
| SyntaxForms.FieldLinesStop | src/parser/ast/type_expression.rs:32-37 | a successful struct field loop stops on `}` without taking it |
| SyntaxForms.FieldsInOrder | src/parser/ast/type_expression.rs:31-37 | the fields are empty at `}`, and otherwise are a type, a name and `;` followed by the rest |
| SyntaxForms.StructTypeForms | src/parser/ast/type_expression.rs:23-47 | a struct type is named `struct ` plus its name; without `{` it is a named struct, and with one its fields are the loop's fields and it ends after `}` |
| SyntaxForms.TypedefForms | src/parser/ast/type_definition.rs:14-21 | a type definition succeeds exactly when `typedef`, a type and a name follow in turn, and it names that type |
| SyntaxForms.TypedefStatement | src/parser/ast/statement.rs:103-118 | a type definition statement takes the `;` after the definition |
| SyntaxForms.ParenthesisedForm | src/parser/ast/while_statement.rs:15-18 | a parenthesised condition is `(`, an expression and `)` |
| SyntaxForms.WhileForm | src/parser/ast/while_statement.rs:14-21 | a `while` succeeds exactly when its condition and body parse, and holds the two |
| SyntaxForms.IfForms | src/parser/ast/if_statement.rs:22-41 | an `if` holds its condition and then-part; it has no else part exactly when `else` does not follow, an `else if` when `if` follows `else`, and an else compound otherwise |
| SyntaxForms.ElseBindsInnermost | src/parser/ast/if_statement.rs:27-34 | in `if (c) if (d) s else t` the `else` belongs to the inner `if`: the outer then-part is that single `if`, and the outer `if` gets an `else` only when the inner one already has one |
| SyntaxForms.ForCondition | src/parser/ast/for_statement.rs:16-27 | a successful `for` reads `for (`, an init statement and a condition, and a missing condition is the literal 1 |
| SyntaxForms.ForMissingPost | src/parser/ast/for_statement.rs:29-45 | with `)` where the post expression would be, the loop has no post expression and succeeds exactly when its body does |
| SyntaxForms.ForPresentPost | src/parser/ast/for_statement.rs:29-45 | otherwise a successful loop has parsed the post expression, `)` and the body, and keeps the post expression and the body |
| SyntaxForms.ParametersAppend | src/parser/ast/function.rs:21-31 | the parameter loop appends the parameters it reads, in order, and fails exactly where the loop from no parameters fails |
| SyntaxForms.ParametersStop | src/parser/ast/function.rs:23-31 | a successful parameter loop stops on `)` without taking it |
| SyntaxForms.ParametersInOrder | src/parser/ast/function.rs:21-31 | after a type and a name, `)` ends the list and anything else must be a comma before the rest |
| SyntaxForms.FunctionSignature | src/parser/ast/function.rs:16-33 | a successful function reads a return type, a name, `(`, the parameter list and `)`, and keeps the return type, name and parameters |
| SyntaxForms.Prototype | src/parser/ast/function.rs:35-43 | a `;` after the parameter list makes a prototype without statements, ending after the `;` |
| SyntaxForms.Definition | src/parser/ast/function.rs:45-52 | otherwise the body is parsed, and the function carries it |
| SyntaxProperties.OneLevel | src/parser/ast/expression.rs:353-360 | an operator of one level is on no other level |
| SyntaxProperties.OperatorCloses | src/parser/ast/expression.rs:259-275 | an operator of a level ends an operand of every tighter level |
| SyntaxProperties.NamedOperand | src/parser/ast/expression.rs:116-127 | a name with a closing token after it is a variable at every level, and nothing more |
| SyntaxProperties.Lift | src/parser/ast/expression.rs:270-272 | what a tighter level read stays as it is when no operator of this level follows |
| SyntaxProperties.LiftToExpression | src/parser/ast/expression.rs:352-372 | an expression read at some level is the whole expression when no looser operator or `=` follows |
| SyntaxProperties.RestCloses | src/parser/ast/expression.rs:272 | the token after each name of an operator chain ends the tighter level |
| SyntaxProperties.LoopFolds | src/parser/ast/expression.rs:272-349 | a level's loop reads a whole chain of its operators and folds it onto what it had, to the left |
| SyntaxProperties.LoopStep | src/parser/ast/expression.rs:272-279 | one round of a level's loop over an operator and a name |
| SyntaxProperties.LeftAssociative | src/parser/ast/expression.rs:259-350 | operators of one level are left-associative: `a-b-c` reads as `(a-b)-c` |
| SyntaxProperties.FoldNestsLeft | src/parser/ast/expression.rs:274-280 | in the fold the first operator ends up innermost |
| SyntaxProperties.WrapsTransitive | src/parser/ast/expression.rs:194-208 | wrapping an operand in suffixes twice is wrapping it once |
| SyntaxProperties.IndexingWraps | src/parser/ast/expression.rs:148-162 | each run of `[e]` wraps what came before it |
| SyntaxProperties.FieldWraps | src/parser/ast/expression.rs:164-177 | each run of `.name` wraps what came before it |
| SyntaxProperties.ArrowWraps | src/parser/ast/expression.rs:179-192 | each run of `->name` wraps what came before it |
| SyntaxProperties.SuffixesWrap | src/parser/ast/expression.rs:194-208 | suffixes chain from left to right, and the operand stays innermost |
| SyntaxProperties.CastNeedsParenthesis | src/parser/ast/expression.rs:230-257 | a cast only comes from a factor that began with `(` and read a type |
| SyntaxProperties.UnaryApplies | src/parser/ast/expression.rs:210-228 | a unary operator applies to the factor after it, with the operator its token names |
| SyntaxProperties.UnaryTable | src/parser/ast/expression.rs:213-218 | the operators the five unary tokens stand for |
| SyntaxProperties.IntValueOfDecimal | src/parser/ast/expression.rs:90-97 | the decimal text of n reads as n exactly when n fits an `i32`; past that the parser panics |
| SyntaxProperties.AssignmentTargets | src/parser/ast/assignment.rs:30-88 | after `=`, a variable, an element, a dereference and the two field accesses are written to with the value read; any other target is `UnableToAssign` at the token after `=` |
| SyntaxProperties.AssignableShapes | src/parser/ast/assignment.rs:33-87 | exactly variables, elements, dereferences and field accesses can be assigned to |
| SyntaxProperties.ArrowAssignmentLost | src/parser/ast/assignment.rs:66-81 | `.` and `->` targets build the same assignment node |
| SyntaxProperties.SimpleStatementsEndInSemicolon | src/parser/ast/statement.rs:31-119 | every statement except `if`, `for`, `while` and a block ends with a `;` it consumed |
| SyntaxProperties.DeclarationForms | src/parser/ast/statement.rs:62-96 | `T n;`, `T n[];` (a pointer to `T`) and `T n = e;` (with the assignment of `e` to `n`) |
| SyntaxProperties.DeclarationFallsBack | src/parser/ast/statement.rs:97-100 | with no name after the type, the cursor goes back to the type's start and the statement is the expression read from there |
| SyntaxProperties.ReturnWithoutValue | src/parser/ast/statement.rs:41-46 | `return;` is a return without a value, its `;` consumed |
| SyntaxProperties.EmptyCompound | src/parser/ast/compound_statement.rs:20-29 | `{}` is a compound with no statements, both braces consumed |
| SyntaxProperties.SingleStatementCompound | src/parser/ast/compound_statement.rs:14-19 | without a brace a compound is the one statement there |
| SyntaxProperties.StatementsInOrder | src/parser/ast/compound_statement.rs:22-25 | the statement loop keeps what it had and appends statements in source order |
| SyntaxProperties.DeclarationsInOrder | src/parser/ast/program.rs:25-32 | the declaration loop appends in source order and stops only at the EOF |
| SyntaxProperties.ProgramConsumesAll | src/parser/ast/program.rs:23-37 | a program over views with one EOF at the end uses every view when it parses |
| SyntaxExamples.NameStatement | src/parser/ast/statement.rs:97-100 | a name followed by `;` is an expression statement |
| SyntaxExamples.NameExpression | src/parser/ast/expression.rs:352-372 | a name before a closing token other than `=` is the whole expression |
| SyntaxExamples.SubtractionNestsLeft | src/parser/ast/expression.rs:272-349 | `a - b - c ;` is `(a - b) - c` |
| SyntaxExamples.ProductBindsTighter | src/parser/ast/expression.rs:353-360 | `a + b * c ;` is `a + (b * c)` |
| SyntaxExamples.TypeInParenthesesCasts | src/parser/ast/expression.rs:243-251 | `( int ) x` is a cast of `x` to `int` |
| SyntaxExamples.NameInParenthesesIsNoCast | src/parser/ast/expression.rs:116-134 | `( T ) x` with a name `T` is not a cast: the factor is the variable `T` and `x` is left over |
| SyntaxExamples.SuffixesChainLeftToRight | src/parser/ast/expression.rs:194-208 | `a [ i ] . f -> g` wraps from the inside out |
| SyntaxExamples.AssignName | src/parser/ast/assignment.rs:34-40 | a name, `=` and an expression make an assignment to the name |
| SyntaxExamples.AssignmentNestsRight | src/parser/ast/expression.rs:362-369 | `a = b = c ;` is `a = (b = c)` |
| SyntaxExamples.ProductStatementDeclares | src/parser/ast/statement.rs:62-96 | `a * b ;` declares `b` as a pointer to `a` |
| SyntaxExamples.ArrayDeclarationIsPointer | src/parser/ast/statement.rs:74-78 | `int x [ ] ;` declares `x` as a pointer to `int` |
| SyntaxExamples.AssignmentStatementFallsBack | src/parser/ast/statement.rs:69-100 | `x = y ;` starts as a declaration of type `x` and is read again as an assignment |
| SyntaxExamples.DanglingElse | src/parser/ast/if_statement.rs:27-35 | in `if ( a ) if ( b ) x ; else y ;` the `else` belongs to the inner `if` |
| SyntaxExamples.ForDefaults | src/parser/ast/for_statement.rs:19-35 | `for ( ; ; ) ;` has the empty init, the condition `1` and no post expression |
| SyntaxExamples.PrototypeParameters | src/parser/ast/function.rs:16-43 | `int f ( int a , int b ) ;` is a prototype with its parameters in order |
| SyntaxExamples.TrailingParameterComma | src/parser/ast/function.rs:23-31 | a comma before `)` is accepted |
| SyntaxExamples.MissingParameterComma | src/parser/ast/function.rs:27-30 | between two parameters the comma is required |
| SyntaxExamples.StructFunctionAtTopLevel | src/parser/ast/program.rs:26-31 | `struct S f ( ) ;` goes to the statement parser, which wants `;` where `(` stands |
| SyntaxExamples.StructLiteralTrailingComma | src/parser/ast/struct_expression.rs:15-26 | `{ . x = y , }` is a struct literal; the trailing comma is accepted |
| SyntaxExamples.ArrayLiterals | src/parser/ast/array_expression.rs:24-35 | `{ }` has no elements; `{ a b , }` has two, commas optional |
| SyntaxExamples.StructType | src/parser/ast/type_expression.rs:23-44 | `struct N { int a ; }` is a struct type named `struct N` with its field |
| SyntaxExamples.CharacterLiterals | src/parser/ast/expression.rs:99-115 | the character after the quote, `\n` and `\t` decoded, other escapes taken literally |
| Scopes.Below | src/scope_builder.rs:55-59 | all but the last frame; popping an empty stack leaves it empty |
| Scopes.Bind | src/scope_builder.rs:70-73 | the name is bound in the top frame only, and the frame count stays the same |
| Scopes.Innermost | src/scope_builder.rs:61-68 | the reverse walk over the frames answers with the innermost binding of the name, or none |
| Scopes.LookupInnermost | src/scope_builder.rs:61-68 | a name is found exactly when some frame binds it, and then from the topmost such frame: inner bindings shadow outer ones |
| Scopes.BindShadows | src/scope_builder.rs:70-73 | after binding, the name resolves to the new value and every other name resolves as before |
| Scopes.EmptyFrameHidesNothing | src/scope_builder.rs:49-53 | an empty frame on top changes no lookup |
| Scopes.DropFrame | src/scope_builder.rs:55-57 | dropping the top frame forgets exactly the names bound in it |
| Scopes.Frames.Push | src/scope_builder.rs:49-53 | a new empty frame on each of the three stacks |
| Scopes.Scope.constructor | src/scope_builder.rs:41-47 | one empty frame on each stack |
| Scopes.Scope.Push | src/scope_builder.rs:49-53 | the three stacks get a new frame |
| Scopes.Scope.Pop | src/scope_builder.rs:55-59 | the type and variable stacks lose their top frame, and the function stack gains one |
| Scopes.Scope.GetType | src/scope_builder.rs:61-68 | the innermost binding of the name among the types |
| Scopes.Scope.PushType | src/scope_builder.rs:70-73 | binds the type in the top frame |
| Scopes.Scope.GetVariable | src/scope_builder.rs:75-82 | the innermost binding of the name among the variables |
| Scopes.Scope.PushVariable | src/scope_builder.rs:84-87 | binds the variable in the top frame |
| Scopes.Scope.GetFunction | src/scope_builder.rs:89-96 | the innermost binding of the name among the functions |
| Scopes.Scope.PushFunction | src/scope_builder.rs:98-101 | binds the function in the top frame |
| Scopes.ScopeBuilder.constructor | src/scope_builder.rs:117-129 | a fresh scope, no loop labels, offset, frame size and counters at 0, and one saved offset 0 |
| Scopes.ScopeBuilder.Push | src/scope_builder.rs:135-138 | a new frame, saving the stack offset |
| Scopes.ScopeBuilder.Pop | src/scope_builder.rs:140-144 | the frame size keeps the deepest offset reached and the offset returns to the saved one |
| Scopes.ScopeBuilder.GetType | src/scope_builder.rs:146-148 | the type lookup of the scope |
| Scopes.ScopeBuilder.PushType | src/scope_builder.rs:150-152 | binds the type |
| Scopes.ScopeBuilder.GetVariable | src/scope_builder.rs:154-156 | the variable lookup of the scope |
| Scopes.ScopeBuilder.PushVariable | src/scope_builder.rs:158-163 | reserves the type's size and binds the variable at the new offset, which it returns |
| Scopes.ScopeBuilder.GetFunction | src/scope_builder.rs:165-167 | the function lookup of the scope |
| Scopes.ScopeBuilder.PushFunction | src/scope_builder.rs:169-171 | binds the function |
| Scopes.ScopeBuilder.NextLabelIndex | src/scope_builder.rs:173-176 | adds one to the label counter and returns the new value |
| Scopes.ScopeBuilder.GetStringLabel | src/scope_builder.rs:178-181 | adds one to the string counter and returns the new value |
| Scopes.PopAfterPush | src/scope_builder.rs:135-144 | a pop undoes its push: the frames and the offset come back, and the frame size becomes the larger of the old frame size and the offset reached |
| Scopes.PushHidesNothing | src/scope_builder.rs:135-138 | a pushed frame makes nothing visible and hides nothing |
| Scopes.PopKeepsFunctions | src/scope_builder.rs:55-59 | a pop forgets the types and variables of the top frame, but the functions bound in it stay visible |
| Scopes.PushVariableSlot | src/scope_builder.rs:158-163 | the slot ends at the new offset, the old offset plus the type's size, and the name resolves to it |
| Scopes.LabelsIncrease | src/scope_builder.rs:173-181 | label and string numbers start at 1 and every request gives a larger one |
| Resolver.BelowPrefix | src/scope_builder.rs:375-430 | popping the top label of a loop-label stack that extends `labels + [l]` leaves a prefix of `labels` |
| Resolver.ResolveType | src/scope_builder.rs:473-546 | a resolved type expression keeps the frame depth, the frames below the top, the saved offsets and the current function; offsets, frame size and label counters only grow |
| Resolver.ResolveFields | src/scope_builder.rs:530-536 | one resolved field per remaining field of the struct expression, and the builder evolves as above |
| Resolver.ResolveCheckedFields | src/scope_builder.rs:491-529 | one resolved field per remaining field of a struct definition, and the builder evolves as above |
| Resolver.ResolveExpression | src/scope_builder.rs:547-707 | a resolved expression leaves the builder evolved: no frame closed or opened, the current function kept, counters only grow |
| Resolver.ResolveUnary | src/scope_builder.rs:637-684 | a resolved prefix operator leaves the builder evolved |
| Resolver.ResolveBinary | src/scope_builder.rs:685-706 | a resolved binary operator leaves the builder evolved |
| Resolver.PtrStore | src/scope_builder.rs:734-755 | the corrected pointer store of the Findings: it holds the resolved value as its value and the resolved address as its address, with the pointer's base type (the source puts the value in both slots) |
| Resolver.FieldStore | src/scope_builder.rs:787-859 | a store into a struct field leaves the builder as it was |
| Resolver.ResolveAssignment | src/scope_builder.rs:708-860 | a resolved assignment leaves the builder evolved; a store through a pointer is built by the corrected Resolver.PtrStore |
| Resolver.ResolveStructLiteral | src/scope_builder.rs:861-895 | a resolved struct literal leaves the builder evolved |
| Resolver.ResolveLiteralFields | src/scope_builder.rs:861-895 | one store and one field per literal field resolved, and the builder evolves |
| Resolver.ResolveArray | src/scope_builder.rs:896-939 | a resolved array expression leaves the builder evolved |
| Resolver.ResolveElements | src/scope_builder.rs:896-939 | one resolved element per brace-list element, and the builder evolves |
| Resolver.ResolveCall | src/scope_builder.rs:940-983 | a resolved call leaves the builder evolved |
| Resolver.ResolveArguments | src/scope_builder.rs:940-983 | one resolved argument per declared parameter of the callee, and the builder evolves |
| Resolver.ResolveStatement | src/scope_builder.rs:258-365 | a resolved statement leaves the builder evolved |
| Resolver.ResolveReturn | src/scope_builder.rs:263-292 | a resolved `return` leaves the builder evolved |
| Resolver.ResolveDeclaration | src/scope_builder.rs:308-347 | a resolved declaration leaves the builder evolved |
| Resolver.ResolveTypeDefinition | src/scope_builder.rs:367-373 | a resolved `typedef` leaves the builder evolved |
| Resolver.ResolveWhile | src/scope_builder.rs:375-397 | a `while` loop takes the next label index, the counter afterwards is past it, and the builder evolves |
| Resolver.ResolveFor | src/scope_builder.rs:398-430 | a `for` loop takes the next label index, and afterwards the types, variables and stack offset are those it found: its header's frame is closed |
| Resolver.ResolvePost | src/scope_builder.rs:398-430 | the optional step expression leaves the builder evolved |
| Resolver.ResolveIf | src/scope_builder.rs:431-452 | a resolved `if` leaves the builder evolved |
| Resolver.ResolveCompound | src/scope_builder.rs:453-472 | a block's types, variables and stack offset are restored when it ends, and the builder evolves |
| Resolver.ResolveStatements | src/scope_builder.rs:453-472 | one resolved statement per remaining statement of the block, and the builder evolves |
| Resolver.CheckAgainstDeclaration | src/scope_builder.rs:206-227 | checking a redeclaration against the earlier one leaves the builder evolved |
| Resolver.ParametersAgree | src/scope_builder.rs:216-224 | the pairwise parameter comparison leaves the builder evolved |
| Resolver.ResolveParameters | src/scope_builder.rs:232-237 | one resolved parameter per remaining parameter, and the builder evolves |
| Resolver.ResolveBody | src/scope_builder.rs:239-248 | resolving the optional body leaves the builder evolved |
| Resolver.Enter | src/scope_builder.rs:228-230 | entering a function opens one frame of types and of variables, saves the stack offset, makes the function current and binds it under its name |
| Resolver.Leave | src/scope_builder.rs:239-248 | leaving a function closes the frame that entering opened, keeps the current function, and the frame size covers the deepest offset and frame size reached inside |
| Resolver.ResolveFunction | src/scope_builder.rs:199-256 | a resolved function leaves the saved offsets as they were and a current function set, and reports the builder's frame size under its own name; the reset of offset and frame size and the parameter slots are proved in ResolverProperties.FunctionStartsFresh and ResolverProperties.FrameCoversParameters |
| Resolver.ResolveDeclarations | src/scope_builder.rs:184-197 | resolving the program's declarations in order keeps the builder well formed |
| ResolverProperties.DeclarationRejections | src/scope_builder.rs:308-347 | a declaration is rejected when its name is bound in any frame, then when no function is active, then when its type has size 0 |
| ResolverProperties.DeclarationBindsSlot | src/scope_builder.rs:308-347 | a declaration without initialiser binds its name in the top frame to a slot that ends at the new stack offset, which grew by the type's size |
| ResolverProperties.SingleDeclarationBlock | src/scope_builder.rs:456-464 | a block made of a single declaration is rejected |
| ResolverProperties.BlockScoping | src/scope_builder.rs:453-472 | after a block every type and variable lookup answers as before it, and the stack offset is restored |
| ResolverProperties.LoopControlOutsideLoop | src/scope_builder.rs:348-361 | `break` and `continue` with no loop label left are rejected |
| ResolverProperties.LoopControlPops | src/scope_builder.rs:348-361 | `break` and `continue` take the innermost loop label and remove it |
| ResolverProperties.SecondBreakTakesEnclosingLabel | src/scope_builder.rs:348-397 | in a loop nested in another, a first `break` takes the inner label and a second one the outer label |
| ResolverProperties.BreakAfterInnerLoopFails | src/scope_builder.rs:348-397 | a `break` after an inner loop that itself breaks, in an outermost loop, is rejected, because the inner loop's end pops the outer label |
| ResolverProperties.WhileBodyFails | src/scope_builder.rs:375-397 | a loop fails with its body's error |
| ResolverProperties.OuterBodyFails | src/scope_builder.rs:375-397 | the outer body of that example fails in the loop's frame |
| ResolverProperties.WhileStatementResolves | src/scope_builder.rs:301-303 | a `while` statement resolves exactly as its loop does |
| ResolverProperties.InnerLoopTakesLastLabel | src/scope_builder.rs:348-397 | `while (1) { break; }` inside one loop leaves no loop label |
| ResolverProperties.SequentialLoopsDistinctLabels | src/scope_builder.rs:375-397 | two loops in a row get different label indices, the later one the larger |
| ResolverProperties.ReturnWithoutValue | src/scope_builder.rs:263-292 | `return;` is accepted exactly in a `void` function, and rejected outside every function |
| ResolverProperties.ReturnWithValue | src/scope_builder.rs:263-292 | `return e;` is accepted exactly when `e` resolves and its type equals the function's return type, and then returns the resolved `e`; a mismatch is `ReturnTypeIncorrect` with both types, and outside every function the `return` is rejected |
| ResolverProperties.BinaryTakesLeftType | src/scope_builder.rs:685-706 | a binary expression resolves exactly when its operand types agree or the left converts to the right, and then has the left type |
| ResolverProperties.IndexingTypes | src/scope_builder.rs:617-632 | an index expression resolves exactly when the operand is a pointer and the index a number, and has the pointer's base type |
| ResolverProperties.CallChecks | src/scope_builder.rs:940-983 | a call to an unbound name, or with the wrong argument count, is rejected |
| ResolverProperties.CallArity | src/scope_builder.rs:940-983 | a resolved call carries one argument per declared parameter |
| ResolverProperties.SelfTypedParameter | src/scope_builder.rs:940-983 | a parameter whose type is `typeof` a call to its own function makes the call resolve that type again without end |
| ResolverProperties.SelfCallOverflows | src/scope_builder.rs:940-983 | for every fuel, resolving that self call fails with `Overflow` |
| ResolverProperties.FirstElementResolvedTwice | src/scope_builder.rs:896-939 | in a two-string brace list the first element is resolved twice: three string labels are taken and the stores carry the second and third |
| ResolverProperties.PtrStoreLosesAddress | src/scope_builder.rs:734-755 | the as-written pointer store records the value in the address slot, and the corrected store keeps both |
| ResolverProperties.ForwardDeclaredStructStaysEmpty | src/scope_builder.rs:491-536 | after `struct S;`, a later definition of `S` leaves the name bound to the empty struct |
| ResolverProperties.StructDefinition | src/scope_builder.rs:491-529 | a struct defined from scratch is bound to its fields, and defining it again is rejected |
| ResolverProperties.StructFieldChecks | src/scope_builder.rs:491-529 | a new struct with a repeated field name or a field of size 0 is rejected |
| ResolverProperties.GlobalAfterFunction | src/scope_builder.rs:199-256 | the current function is never reset, so a global declaration is rejected before the first function and accepted after it |
| ResolverProperties.GlobalFirst | src/scope_builder.rs:308-347 | before any function, `int g;` is rejected as a declaration outside of a function |
| ResolverProperties.GlobalInFunction | src/scope_builder.rs:308-347 | with a function current and `g` unbound, `int g;` resolves |
| ResolverProperties.GlobalUnbound | src/scope_builder.rs:199-256 | after a prototype, `g` is bound in no frame |
| ResolverProperties.PrototypeFrame | src/scope_builder.rs:199-256 | `long f(int a, char c);` has frame size 5, and its frame is closed after it |
| ResolverProperties.ParameterRound | src/scope_builder.rs:232-237 | one round of the parameter loop puts the next parameter, under its declared name, in front of the rest of the loop, which starts from a builder whose offset is at least that parameter's size higher |
| ResolverProperties.ParametersNamed | src/scope_builder.rs:232-237 | the resolved parameters carry the declared names, in order |
| ResolverProperties.ParametersReserve | src/scope_builder.rs:232-237 | the parameter loop raises the stack offset by at least the sizes of the parameters it resolves |
| ResolverProperties.FunctionStartsFresh | src/scope_builder.rs:202-204 | every function visit resets the stack offset and frame size to 0, so its result is the same whatever offset and frame size the builder had |
| ResolverProperties.FrameCoversParameters | src/scope_builder.rs:202-255 | a resolved function has one parameter per declared one, under the declared names in order, and its frame size covers all their slots |
| ParserScope.Push | src/ast/statement_list.rs:38 | a fresh empty innermost frame above the old ones, the stack size unchanged |
| ParserScope.Pop | src/ast/statement_list.rs:45-46 | the innermost frame is dropped and the stack space stays reserved |
| ParserScope.AddStack | src/ast/struct_expression.rs:42 | the stack size grows by exactly the reserved bytes, the frames unchanged |
| ParserScope.AddVariable | src/ast/statement.rs:127-143 | adding a variable reserves exactly its type's size |
| ParserScope.AddStruct | src/ast/type_expression.rs:77-82 | adding a struct reserves no stack |
| ParserScope.AddTypedef | src/ast/type_definition.rs:23-31 | adding a typedef reserves no stack |
| ParserScope.AddFunction | src/ast/function.rs:50-51 | adding a function reserves no stack |
| ParserScope.Named | src/ast/type_expression.rs:86-93 | the struct found has the name and is in the list, and none is found exactly when no struct of the list has that name |
| ParserScope.AddsExtend | src/ast/function.rs:108-114 | every add and every stack reservation keeps the frame count and the frames below the innermost, and never shrinks the stack |
| ParserScope.PopAfterPush | src/ast/for_statement.rs:23-46 | closing a frame after work that kept to it gives back the frames from before the push; only the stack size may have grown |
| ParserScope.AddVariableFinds | src/ast/statement.rs:127-143 | an added variable is found under its name and shadows outer bindings, other names resolve as before |
| ParserScope.AddNamedFinds | src/ast/type_definition.rs:31 | an added typedef or function is found under its name |
| ParserScope.AddStructLists | src/ast/struct_expression.rs:56 | `get_structs` lists the innermost frame's structs first, the newest last, then the outer ones; the added struct is listed |
| ParserScope.AddStructFinds | src/ast/type_expression.rs:77-82 | a struct whose name was unused in scope is found once added |
| ParserScope.NamedAppend | src/ast/struct_expression.rs:56-60 | the first struct of a name in a concatenation is the first in the front part, else the first in the back part |
| TypedAst.Pointee | src/ast/expression.rs:458-461 | a pointee exists exactly when the type is a pointer, and the type is the pointer to it; anything else is the source's panic |
| TypedAst.StoreType | src/ast/assignment.rs:111-122 | a pointer or array store has a type exactly when its address does: the pointee of a pointer address, else the address type itself |
| TypedAst.AssignmentType | src/ast/assignment.rs:104-127 | an assignment's type is the type of the assignment used as an expression |
| TypedAst.ArrayType | src/ast/array_expression.rs:73-86 | a string literal has type `char *` |
| TypedAst.BinaryTakesLargerOperand | src/ast/expression.rs:464-474 | a binary expression has a type exactly when both operands do, the strictly larger one's, else the right one's |
| TypedAst.DerefOfRef | src/ast/expression.rs:457-461 | dereferencing an address-of gives back the operand's type |
| TypedAst.DerefNeedsPointer | src/ast/expression.rs:458-461 | dereferencing or indexing has a type exactly when the operand is a pointer, and it is the pointee; both agree |
| TypedAst.UnaryTypes | src/ast/expression.rs:456-462 | a cast has its target type whatever the operand; `~`, `-` and `!` keep the operand's type; `&` makes a pointer to it |
| TypedAst.WidenLabels | src/ast/while_statement.rs:25 | loop labels lying in an interval lie in every interval around it |
| TypedAst.WidenListLabels | src/ast/statement_list.rs:37-51 | the same for a statement list |
| TypedAst.WidenIfLabels | src/ast/if_statement.rs:26-47 | the same for both branches of an `if` |
| TypedAst.WidenElseLabels | src/ast/if_statement.rs:11-15 | the same for an else part |
| TypedAst.WidenAllLabels | src/ast/statement_list.rs:37-51 | the same for every statement of a list from an index on |
| TypedParser.NewState | src/parser.rs:25-34 | a new parser starts at the first token with no frame, no assignee and label counter 0 |
| TypedParser.Skip | src/parser.rs:53-55 | `next` on a token other than EOF moves the cursor by exactly one and stays on a token |
| TypedParser.SkipComma | src/ast/function.rs:116-118 | the optional comma: the cursor passes one token exactly when it is a comma, and nothing else changes |
| TypedParser.Expect | src/parser.rs:57-59 | `expect` succeeds exactly when the token at the cursor is the expected one, and then moves past it and yields its text |
| TypedParser.Fail | src/parser.rs:61-63 | `error` always fails, with the message at the cursor's token |
| TypedParser.Typed | src/ast/expression.rs:443-490 | an expression's type is available exactly when `data_type` does not panic, and is that type |
| TypedParser.CheckDataTypes | src/parser.rs:36-43 | the type test passes exactly when the types are equal or the first converts to the second, and fails at the cursor otherwise |
| TypedParser.NextLabelIndex | src/parser.rs:69-72 | the counter goes up by one and the new value is the label handed out; nothing else changes |
| TypedParser.ParseTypeExpression | src/ast/type_expression.rs:22-49 | a parsed type expression consumes at least one token and keeps the scope's frames, the stack size and the labels from going back |
| TypedParser.Pointers | src/ast/type_expression.rs:42-45 | the trailing `*` loop never moves the cursor back and stays on a token |
| TypedParser.ParseStruct | src/ast/type_expression.rs:57-100 | a parsed struct type consumes at least one token and keeps the scope's frames; its body form, with the redefinition error, is proved in TypedParserProperties.StructBodyForms |
| TypedParser.ParseFieldDeclarations | src/ast/type_expression.rs:62-74 | the field loop stops on `}`, extends the fields so far, and leaves them laid out back to back with pairwise distinct names |
| TypedParser.LaidOutAppend | src/ast/type_expression.rs:67-72 | a field that ends where the earlier fields' sizes plus its own end keeps the fields laid out |
| TypedParser.DistinctAppend | src/ast/type_expression.rs:68-70 | a field whose name no earlier field has keeps the names distinct |
| TypedParser.ParseExpressions | src/ast/expression.rs:422-441 | a parsed expression consumes at least one token and leaves the frames as they were |
| TypedParser.ParseBinary | src/ast/expression.rs:319-331 | a binary level consumes at least one token |
| TypedParser.ParseBinaryRest | src/ast/expression.rs:332-419 | the operator loop never moves the cursor back |
| TypedParser.ParseFactor | src/ast/expression.rs:292-317 | a factor consumes at least one token |
| TypedParser.ParseUnary | src/ast/expression.rs:259-290 | a unary operation consumes at least one token |
| TypedParser.ParsePostfix | src/ast/expression.rs:243-257 | a postfix expression consumes at least one token |
| TypedParser.ParsePostfixLoop | src/ast/expression.rs:245-255 | the postfix loop never moves the cursor back |
| TypedParser.ParseIndexing | src/ast/expression.rs:166-177 | the indexing loop never moves back, and moves forward when `[` follows |
| TypedParser.ParseFieldAccess | src/ast/expression.rs:179-204 | the field loop never moves back, and moves forward when `.` follows |
| TypedParser.ParseArrowAccess | src/ast/expression.rs:206-241 | the arrow loop never moves back, and moves forward when `->` follows |
| TypedParser.ParseLiteral | src/ast/expression.rs:88-164 | a literal consumes at least one token; a failure inside `( e )` is returned as it is (see Left out) |
| TypedParser.ParseBraced | src/ast/expression.rs:90-96 | after `{` the result is a struct literal exactly when `.` follows, else an array |
| TypedParser.ParseIdentifier | src/ast/expression.rs:123-148 | an identifier expression consumes at least one token |
| TypedParser.ParseSizeof | src/ast/expression.rs:155-161 | `sizeof` yields an `int` literal |
| TypedParser.ParseStringLiteral | src/ast/array_expression.rs:29-36 | a string literal takes the next label and keeps its text |
| TypedParser.ParseArrayExpression | src/ast/array_expression.rs:27-69 | a parsed array consumes at least one token |
| TypedParser.ParseElements | src/ast/array_expression.rs:42-58 | the element loop stops on `}`; every element has the type beside it, each type equals or converts to the one before, and the stack grows by at least the elements' sizes; each element and its optional comma are proved in TypedParserProperties.ElementForms |
| TypedParser.ParseElement | src/ast/array_expression.rs:43-57 | one element has a type, equal to or convertible to the previous element's, and reserves at least its size |
| TypedParser.ElementsAppend | src/ast/array_expression.rs:44-57 | appending a typed element that converts to the last type keeps the elements typed and the chain converting, and adds its size |
| TypedParser.Stores | src/ast/struct_expression.rs:44-53 | one store per field |
| TypedParser.StoresCountDown | src/ast/struct_expression.rs:44-53 | store k goes to the start offset less the sizes of the fields before k, with field k's type and value |
| TypedParser.StoreAt | src/ast/struct_expression.rs:44-53 | the store of field k, by induction on the fields |
| TypedParser.FieldsSizeFront | src/ast/struct_expression.rs:34 | the sizes of the first k fields are the first one's and the next k - 1 |
| TypedParser.Matching | src/ast/struct_expression.rs:56-65 | the struct found is in scope and has exactly the fields, and none is found exactly when no struct has them |
| TypedParser.ParseStructExpression | src/ast/struct_expression.rs:23-66 | a struct literal has a struct type in scope, sits at the new stack size, which grew by the struct's size, and its stores count down from there by field sizes |
| TypedParser.ParseLiteralFields | src/ast/struct_expression.rs:27-41 | the field loop stops on `}`, keeps one value per field, and leaves the fields laid out back to back |
| TypedParser.ParseLiteralField | src/ast/struct_expression.rs:28-40 | a literal field has its value's type and ends at the offset plus its size; its form and the comma required unless `}` follows are proved in TypedParserProperties.LiteralFieldForms |
| TypedParser.CheckArguments | src/ast/function_call.rs:49-57 | the argument check passes exactly when every parameter type equals or converts to its argument's type, and then yields the arguments' types |
| TypedParser.ParseFunctionCall | src/ast/function_call.rs:23-65 | a call consumes at least one token |
| TypedParser.ParseArguments | src/ast/function_call.rs:37-42 | the argument loop stops on `)` and extends the arguments so far; the arguments in order with optional commas are proved in TypedParserProperties.ArgumentsInOrder |
| TypedParser.CheckStore | src/ast/assignment.rs:56-80 | a store through a pointer passes only if the pointee equals or converts to the value's type; through anything else it always passes |
| TypedParser.ParseAssignment | src/ast/assignment.rs:40-100 | an assignment consumes at least one token |
| TypedParser.ParseCheckedValue | src/ast/assignment.rs:44-55 | the value stored into a variable or field has a type that the target's type equals or converts to |
| TypedParser.ParseStoredValue | src/ast/assignment.rs:56-80 | a store through an address has a typed address, and through a pointer the pointee equals or converts to the value's type |
| TypedParser.ParseVariableDeclaration | src/ast/statement.rs:117-171 | the result is a variable declaration, or a type expression statement for a bare `T;` |
| TypedParser.ParseDeclarator | src/ast/statement.rs:126-144 | the declared name was unbound, the variable is added to the scope at the stack size plus its size, with the type or pointer to it after `[]` |
| TypedParser.ParseInitializer | src/ast/statement.rs:146-170 | an initializer exists exactly when `=` follows; it stores at the variable's offset with its type, from a value whose type converts to it |
| TypedParser.ParseTypeDefinition | src/ast/type_definition.rs:17-33 | a typedef consumes at least one token; its order, the error on a name already a typedef and the result are proved in TypedParserProperties.TypedefForms |
| TypedParser.ParseStatement | src/ast/statement.rs:44-113 | every loop label inside a statement lies between the counter before and after it, nested loops above their loop, and `break`/`continue` name a handed-out label |
| TypedParser.ParseLoopExit | src/ast/statement.rs:46-63 | `continue` or `break` parses exactly when a label was handed out and `;` follows, and takes the latest label |
| TypedParser.ParseReturn | src/ast/statement.rs:64-71 | yields a `return`; a bare one consumes only `return` and leaves the `;` |
| TypedParser.ParseSimpleStatement | src/ast/statement.rs:84-111 | ends right after a `;` and is a declaration, an expression, a typedef or the empty statement |
| TypedParser.ParseSimpleBody | src/ast/statement.rs:84-109 | is one of those four, and consumes a token unless it is the empty statement |
| TypedParser.ParseStatementList | src/ast/statement_list.rs:19-52 | labels inside the list lie between the counter before and after it |
| TypedParser.ParseBlock | src/ast/statement_list.rs:37-51 | labels inside the block lie between the counter before and after it |
| TypedParser.ParseStatements | src/ast/statement_list.rs:40-43 | the loop stops on `}`, extends the statements so far, and every new statement's labels lie in the interval |
| TypedParser.ParseIf | src/ast/if_statement.rs:27-46 | labels inside both branches lie between the counter before and after |
| TypedParser.ParseElse | src/ast/if_statement.rs:33-40 | there is no else part exactly when `else` does not follow, and its labels lie in the interval |
| TypedParser.ParseFor | src/ast/for_statement.rs:22-55 | a `for` and everything inside it has labels between the counter before and after, its own the smallest |
| TypedParser.ParseForHead | src/ast/for_statement.rs:27-43 | the initial statement's labels lie in the interval |
| TypedParser.ParseForRest | src/ast/for_statement.rs:29-43 | a missing condition is the literal 1; the missing step, which is `None` exactly when `)` follows the `;`, is proved in TypedParserProperties.ForRestForms |
| TypedParser.ParseWhile | src/ast/while_statement.rs:20-32 | a `while` and everything inside it has labels between the counter before and after, its own the smallest |
| TypedParser.CheckRedeclaration | src/ast/function.rs:74-97 | the corrected check of the Findings: passes exactly when the name is unbound, or the earlier function has the same return type, not both have bodies, and the parameters agree in count and types (the source skips the count comparison when either list is empty) |
| TypedParser.ParseParameter | src/ast/function.rs:99-121 | a parameter consumes at least one token; the error on a name in scope, the variable added at the stack size and the optional comma are proved in TypedParserProperties.ParameterForms |
| TypedParser.ParseParameters | src/ast/function.rs:35-37 | the loop stops on `)` and extends the parameters so far |
| TypedParser.ParseFunction | src/ast/function.rs:28-70 | a function consumes at least one token and leaves the frames as they were; redeclarations go through the corrected TypedParser.CheckRedeclaration |
| TypedParser.ParseSignature | src/ast/function.rs:30-38 | the signature consumes at least one token |
| TypedParser.ParseFunctionBody | src/ast/function.rs:40-69 | keeps the name, parameters and return type; is a prototype with stack size 0 exactly when `;` follows, else takes the body's stack size |
| TypedParser.ParseDeclarations | src/ast/program.rs:29-34 | the loop stops on EOF and extends the declarations so far |
| TypedParserProperties.LabelCounter | src/parser.rs:32-72 | the counter starts at 0, the first label is 1, and each label handed out is larger than the one before |
| TypedParserProperties.ExitNamesLatestLabel | src/ast/statement.rs:46-63 | with a label handed out and `;` after it, `break` or `continue` passes and names the latest label |
| TypedParserProperties.BreakAfterLoopPasses | src/ast/statement.rs:46-63 | the counter is never put back when a loop ends, so a `break` anywhere after a `while` passes and names a label at least the loop's own |
| TypedParserProperties.StatementDispatch | src/ast/statement.rs:45-111 | `if`, `for`, `while` and `{` go to their own parsers without a `;`, `continue`, `break` and `return` to theirs, and every other statement ends in `;` |
| TypedParserProperties.EmptyStatement | src/ast/statement.rs:101 | `;` alone is the empty statement and consumes the `;` |
| TypedParserProperties.ReturnLeavesSemicolon | src/ast/statement.rs:64-68 | `return;` is a return without value that leaves `;`, which then parses as an empty statement |
| TypedParserProperties.PrimitiveType | src/ast/type_expression.rs:23-27 | a primitive keyword not followed by `*` is that type and consumes one token |
| TypedParserProperties.BareTypeStatement | src/ast/statement.rs:117-124 | `T;` for a primitive `T` is an expression statement holding the type expression |
| TypedParserProperties.DeclarationStart | src/ast/statement.rs:84-96 | a statement is a declaration when it starts with a type keyword or a struct or typedef name in scope; any other name starts an expression statement |
| TypedParserProperties.DeclaratorShape | src/ast/statement.rs:126-144 | the declarator takes the name after the type, rejects a name in scope, and makes a pointer after `[]` |
| TypedParserProperties.ChecksRunOppositeWays | src/ast/assignment.rs:44-55 | the assignment test from a `long` target to an `int *` value passes, while `int *` does not convert to `long` as a declaration demands: the two tests run in opposite directions |
| TypedParserProperties.InitializerRejectsPointerForLong | src/ast/statement.rs:146-156 | a `long` variable initialised with an `int` pointer is rejected |
| TypedParserProperties.AssignmentNeedsAssignee | src/ast/assignment.rs:41-42 | without an assignee the assignment fails, where the source panics |
| TypedParserProperties.AssignmentTargets | src/ast/assignment.rs:43-99 | a variable target stores at its offset with its type, an indexing through its operand, `*p` through `p`, a field at its offset; anything else is rejected |
| TypedParserProperties.StarsAddPointers | src/ast/type_expression.rs:42-45 | `n` stars after a type wrap it in `n` pointer layers |
| TypedParserProperties.TypeExpressionStart | src/ast/type_expression.rs:29-40 | a name in a type expression must be a typedef in scope, and any token but a type keyword or a name is an error |
| TypedParserProperties.LaidOutStarts | src/ast/type_expression.rs:63-72 | field k of laid-out fields starts at the summed sizes of the fields before it |
| TypedParserProperties.StructDefinition | src/ast/type_expression.rs:58-84 | a struct with a body has the name after `struct`, laid-out fields with distinct names, their summed size, and is found in scope afterwards |
| TypedParserProperties.StructBodyForms | src/ast/type_expression.rs:60-83 | a struct body is read in the scope from before `struct`, where the struct is not yet registered; after `}` the definition is accepted exactly when no struct of the name is in scope, and then joins the scope with the fields read |
| TypedParserProperties.StructReference | src/ast/type_expression.rs:85-98 | `struct N` without a body is the struct of that name in scope, and an error when there is none |
| TypedParserProperties.TypedChain | src/ast/array_expression.rs:44-52 | typed elements whose types chain form a chain of convertible expressions |
| TypedParserProperties.SizeSumCoversFirst | src/ast/array_expression.rs:57 | the summed sizes of a non-empty type list cover the first one |
| TypedParserProperties.ArrayLayout | src/ast/array_expression.rs:27-69 | an array is a string with the next label and type `char *`, or a non-empty chain of elements whose first gives the base, typed a pointer to it, at a stack size covering the elements |
| TypedParserProperties.ElementForms | src/ast/array_expression.rs:43-57 | an element is accepted exactly when its expression has a type equal to or convertible to the previous element's; the cursor passes one optional comma and the element's size is reserved |
| TypedParserProperties.LiteralFieldForms | src/ast/struct_expression.rs:28-40 | a literal field is `.`, a name, `=` and a typed value, placed at the offset; after it `}` is left, a comma is consumed, and any other token is an error |
| TypedParserProperties.CallChecks | src/ast/function_call.rs:23-65 | the callee must be a function in scope, the arguments as many as its parameters and each fitting; the call records the argument types and the return type |
| TypedParserProperties.IdentifierResolution | src/ast/expression.rs:123-148 | a struct or typedef name is a type expression, a name before `(` a call, and any other name a variable in scope read at its offset with its type |
| TypedParserProperties.UnaryOperators | src/ast/expression.rs:259-290 | `-`, `!` and `~` always apply, `&` only to a named variable and `*` only to a pointer |
| TypedParserProperties.ArrowAccess | src/ast/expression.rs:206-241 | `a -> f` is accepted only when `a` points to a struct with field `f`, and reads that field of `*a` at its start |
| TypedParserProperties.SizeofFolds | src/ast/expression.rs:155-161 | `sizeof ( e )` is the literal size of e's type |
| TypedParserProperties.BinaryOperandsMeet | src/ast/expression.rs:332-344 | operands of different types are accepted only when they can meet in an operation |
| TypedParserProperties.BlockScope | src/ast/statement_list.rs:37-51 | a block gives back the frames it met, so its declarations are gone, and records the stack size reached, which stays reserved |
| TypedParserProperties.SingleStatementList | src/ast/statement_list.rs:20-35 | a single statement in place of a block is not a declaration and records stack size 0 |
| TypedParserProperties.ArgumentRound | src/ast/function_call.rs:37-42 | one round of the argument loop: a failed expression fails the loop, else it goes on after the expression and an optional comma with the argument appended |
| TypedParserProperties.ArgumentsAppend | src/ast/function_call.rs:37-42 | the argument loop gives what it held followed by what it reads from none, and fails exactly where that loop fails |
| TypedParserProperties.ArgumentsInOrder | src/ast/function_call.rs:37-42 | the arguments are none at `)`, else the expression at the cursor followed by those read after it and an optional comma |
| TypedParserProperties.ForRestForms | src/ast/for_statement.rs:29-43 | the condition or the literal 1, then `;`; then no step exactly when `)` follows, else the step expression, which `)` must follow |
| TypedParserProperties.ForScope | src/ast/for_statement.rs:23-46 | what a `for` head declares is gone after it |
| TypedParserProperties.FunctionScope | src/ast/function.rs:29-69 | parameters live in a frame closed before the function is added: afterwards the variables are those before it, and the function is found |
| TypedParserProperties.AddFunctionKeepsVariables | src/ast/function.rs:51 | adding a function leaves every variable lookup as it was |
| TypedParserProperties.ParameterForms | src/ast/function.rs:99-121 | a parameter is a type and a name; a name bound in scope is an error, else the parameter is the variable of that name and type at the stack size, it joins the scope, and the cursor passes one comma exactly when one follows |
| TypedParserProperties.TypedefForms | src/ast/type_definition.rs:17-33 | `typedef`, a type and a name in turn; a name already a typedef is an error, else the definition pairs the name with the type read and joins the scope |
| TypedParserProperties.TypedefRegistered | src/ast/type_definition.rs:17-33 | a parsed typedef is found under its name afterwards |
| TypedParserProperties.TypedefResolves | src/ast/type_expression.rs:29-36 | a typedef name in scope resolves to its type |
| TypedParserProperties.ZippedMissesEmptyLists | src/ast/function.rs:86-93 | the zipped check as written misses a count difference exactly when one list is empty |
| TypedParserProperties.ZippedAcceptsCountMismatch | src/ast/function.rs:86-93 | it accepts one `int` parameter against none, which the corrected check rejects |
| TypedParserProperties.RedeclarationChecksCount | src/ast/function.rs:74-97 | the corrected check rejects a redeclaration with a different parameter count |

## Left out

- Reading the source file, writing the output file and their I/O errors: the program text is a string parameter, the output is the sequence of emitted lines, and the files `#include` can read are a map from names to contents.
- The lexer's regular expressions: the fifteen patterns of `src/lexer/tokens.rs` are literal strings, a digit run and a word run, and the model matches those three forms directly instead of running a regular-expression engine.  Characters stand for bytes and the input is taken to be ASCII.
- Panics: where the source panics (peeking past the last token, `unwrap` of a missing assignee, `data_type` of a dereferenced non-pointer, an integer literal outside `i32`) the model returns a `Panic` failure; panics of the register model are preconditions.
- Integer widths: offsets, sizes and counters are unbounded naturals; `i32` literals are range-checked where the source parses them, and no `usize` wrap-around is modelled.
- `can_convert` and the field-offset lookup that the scope builder calls for its own types are not defined in the source: the model takes them as the two functions of `Resolver.Rules`, so every property of the resolver holds for any choice of them.
- Fuel: the repeated preprocessor passes and the resolver's recursion take a `fuel` bound.  A preprocessor run that does not settle within it gives `OutOfFuel`; a resolver run that exhausts it gives `Overflow`, which stands for the stack overflow of a call whose parameter type is `typeof` a call to itself.  Runs that settle within the fuel are not affected.
- Arenas, `Rc` and `Box`: every tree node is held by value, so sharing and aliasing between nodes are not modelled.
- The parsers' `while` loops over the cursor are tail-recursive functions over the parser state (the scanning loop of the lexer, the preprocessor's loops, the scope builder's frames and the generator keep their imperative form as class methods).
- `src/parser/scope.rs` declares an empty `Scope`, and `src/ast/variable.rs` is not part of this model: the scope's behaviour is taken from its call sites under `src/ast` (frames searched innermost first, the stack size growing by a variable's size and never shrinking), and a variable's offset is taken to be its base plus its size, the end of its slot, which is what the field-access arithmetic in `src/ast/expression.rs` undoes.
- Error messages: a reported failure carries a message and the line and column of the token it points at, or is a panic; message texts built with `format!` are simplified to fixed texts.  Which failure is reported when several would be differs from the source in one place, listed under TypedParser.ParseLiteral below.
- The oldest parser files directly under `src/parser` (beside `src/parser/ast`) and the generator visitors for expressions, assignments, functions and programs are not part of this model; generated code enters the loop, `if` and call emitters as given lines.
- Preprocessor.JoinTokens: follows the corrected final loop (the Findings row on `src/preprocessor.rs:76-83`), so a text whose directive lines run to its end gives the joined text before them, where the source's loop peeks past the last token and panics; the loop as written is modelled separately and compared with it.
- Preprocessor.Preprocessor.Expand: ends with the corrected final loop, so it does not show the source's panic on a text whose directive lines run to its end.
- Resolver.PtrStore: puts the resolved address in the address slot; the source puts the resolved value there as well, which the as-written store beside it shows.
- Resolver.ResolveAssignment: builds stores through pointers with the corrected Resolver.PtrStore, so its results keep the address that the source loses.
- TypedParser.CheckRedeclaration: compares the parameter counts of every redeclaration; the source compares them only inside the loop over the zipped pairs, so it accepts a redeclaration whose either parameter list is empty.
- TypedParser.ParseFunction: checks redeclarations with the corrected TypedParser.CheckRedeclaration, so it rejects the count mismatches against an empty list that the source accepts.
- TypedParser.ParseLiteral: after a failure inside `( e )` the source still runs `expect(RPAREN)` at the point where the inner parse stopped, and that error (or a panic at the end of the tokens) replaces the inner one; failures here carry no parser state, so the model returns the inner failure.  Which programs are accepted and what they parse to is unchanged.
- DynList.List.Push: a full push requests the corrected size, twice the capacity in element slots after the header (the Findings row on `test.h:26`); the source's `realloc` asks for `sizeof(DynList) + capacity * 2` bytes, which DynList.AsWrittenUnderAllocates and DynList.PointListGrowth model beside it.
- DynList.List.Grow: moves the slots into a block of the corrected size; with the source's request the block is too small for the doubled list, so the source goes on writing past the allocation, which the model does not follow.
- DynList.IntegerScenario: "keeps every element" past the 128th push holds for the corrected request; with the source's request of 272 bytes the 129th `int` is written past the block.
- SyntaxParser.Expect and the parser cursor: the newer parser's `Parser` type and its `TokenKind` enumeration are not part of this model's sources; the cursor is taken to be an index into the token views, with the same kinds as the lexer's tokens, and `expect` is taken to consume the token before checking its kind, as the lexer's `expect` does (`src/lexer.rs:134-143`), so a mismatch is reported after one token is consumed.
- TypedParser.ParseElements: states that the stack grows by at least the elements' sizes rather than exactly by them, because the elements' own sub-expressions may reserve stack as well.
- TypedParserProperties.ArrayLayout: states the array's offset as at least the stack size before it plus the elements' sizes, for the same reason.

## Findings

| source | as written | input that shows it | evidently intended | confidence | as-written member | corrected member |
|---|---|---|---|---|---|---|
| test.h:26 | `realloc` asks for `sizeof(DynList) + capacity * 2` bytes | pushing the 129th `Point` asks for 272 bytes where 2064 are needed | `sizeof(DynList) + capacity * 2 * sizeof(*list)` | high, not executed | DynList.AsWrittenUnderAllocates | DynList.GrowRequestCovers |
| src/generator.rs:592-606 | `while` places only `_label{i}` and `_labelend{i}` | `while (1) { continue; }` jumps to `_expression1`, which nothing defines | also place `_expression{i}` at the loop head, as `for` places it before its post step | high, not executed | Generator.WhileLacksContinueTarget | Generator.WhileCorrectedDefinesJumpTargets |
| src/preprocessor.rs:76-83 | the inner loop skips directive lines, then `next` takes one more token without looking at it | a program that is only `#define X 1`: the skipped line ends at EOF, `next` takes the EOF and the outer `peek` reads past the last token | stop when the skipped lines end at EOF, giving the empty text | high, not executed | Preprocessor.DefinitionAloneMakesFinalPassPanic | Preprocessor.FinalPassAgrees |
| src/scope_builder.rs:747-751 | the pointer store is built with the resolved value in both its value and its address slot | `*p = v` records `v` as the address, so the address `p` is lost | the resolved address in the address slot | high, not executed | ResolverProperties.PtrStoreLosesAddress | Resolver.PtrStore |
| src/ast/function.rs:86-93 | the parameter-count comparison sits inside the loop over the zipped parameter pairs | `int f(int a);` followed by `int f() { ... }`: no pair is visited, so the count is never compared and the redeclaration is accepted | compare the counts before the loop | high, not executed | TypedParserProperties.ZippedAcceptsCountMismatch | TypedParserProperties.RedeclarationChecksCount |
