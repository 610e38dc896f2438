# A verified model of the sanae tape-machine interpreters

The repository holds three interpreters for one small tape-machine language.
In each, a program of lines drives a head over a tape of integers.

- **`src/main.rs`** is the live Rust interpreter.
  - A `Parser` with a word cursor turns each line into a `Command`: an optional `if` guard, a body of `write`/`erase`/`mover`/`movel`, and a `goto` or `halt` terminator.
  - A `Machine` runs the commands. Its single `index` is both the tape head and the program counter.
- **`internal/sanae`** is a Go variant.
  - Blank lines split the program into *states*.
  - Inside a state, commands are filed by their `if` value.
  - `goto` picks the next state.
  - Moves are cyclic modulo the tape length.
- **`internal/turingmach`** is a Go variant with a character-level lexer, in which the operand of `write`, `mover` and `movel` is optional: `write` defaults to 0 and the moves to 1.
  - Execution is one pass over states and commands.

The model follows each file's form. Object state the source changes in place becomes a Dafny `class`: the Rust `Parser` and `Machine`, the Go `Reader`, `State`, `Algorithm`, `SanaeMachine`, `Lexer` and `TuringMachine`. Tapes become `array`s. Every method is proved equal to a pure specification function. The properties the source promises are lemmas about those functions.

A panic of the original becomes an `Err` (or `Trapped`) carrying a typed reason, so every error path is part of each contract.

Integer widths are explicit:
- Rust `i32` and `usize` are subset types. Debug-build overflow of `usize` is an error, and `v as usize` is `v mod 2^64` (`Numbers.AsUsize`).
- Go `int` is 64 bits wide, with wrap-around (`Numbers.Wrap64`) and a truncating `%` (`Numbers.GoRem`).

Files:
- `wrappers.dfy`: `Option`, `Result`, `Prepend`.
- `numbers.dfy`: integer widths.
- `text.dfy`: ASCII classes, `split_whitespace`, `lines`, `strings.Split`, `strconv` numbers.
- `sasm_parser.dfy` and `sasm_machine.dfy`: the Rust interpreter.
- `sanae_reader.dfy` and `sanae_executor.dfy`: `internal/sanae`.
- `go_tape.dfy`: the cyclic moves both Go machines share.
- `turing_lexer.dfy` and `turing_machine.dfy`: `internal/turingmach`.

## Behaviour worth knowing

These are consequences of the code as written, each proved by the lemma named.

- **A lone `halt` line and blank lines.** A line of fewer than two tokens fails to load on `tokens[1 .. len - 1]` (`ShortLineRejected`, `ShortLineFailsLoad`, `BlankLineRejected`). So a line of only `halt` is an error, and the program `[halt]` does not load.
- **An out-of-range `goto`.** `goto 99` in a two-line program and `goto 0` both end the run normally, because the index leaves the program (`GotoPastEndEnds`, `GotoZeroEnds`). They do not trap.
- **The guard.** The guard is removed from its line the first time the line runs, so it is checked at most once per run (`GuardCheckedOnce`). A guarded line with an empty body therefore traps when revisited (`RevisitedGuardTraps`).
- **Terminator position.** The loader refuses a terminator anywhere strictly between the first and the last token, but does not check the first token. So `goto 1 halt` loads and traps only when it runs (`LeadingTerminatorLoads`, `LeadingTerminatorTraps`).
- **Move directions.** In the Rust interpreter `movel` adds to the index and `mover` subtracts from it. In the Go interpreters `mover` adds and `movel` subtracts, modulo the tape length.

## Model

| member | source | states |
|---|---|---|
| SasmParser.Parser.constructor | src/main.rs:37-42 | a new parser has no words and its cursor at 0 |
| SasmParser.NextTokenAt | src/main.rs:44-75 | with the cursor past the words: `Eof` and the cursor unchanged; otherwise the cursor advances and never passes the end |
| SasmParser.NextTokenClassifies | src/main.rs:52-73 | how a word is classified, with case-sensitive keywords: an i32 numeral is an `Operand` taking one word; `if`/`write`/`mover`/`movel`/`goto` take the following numeral as operand (two words) and fail when no numeral follows; `erase`/`halt` take one word; anything else is `Illegal` |
| SasmParser.NextTokenPastUnknown | src/main.rs:44-75 | reading a token from before an unknown word fails, stops on that word as `Illegal`, or stops at or before it |
| SasmParser.UnknownWordFailsLine | src/main.rs:77-92 | a word that is neither an i32 numeral nor a keyword, anywhere from the cursor on, makes the whole line fail, on its own or as a missing operand |
| SasmParser.OperandComesFromNumeral | src/main.rs:52-54 | an `Operand` comes only from a word that parses as i32, and consumes exactly that word |
| SasmParser.LetterWordIsNotNumber | src/main.rs:52-56 | a word starting with a letter never parses as a number, so keywords are never taken as operands |
| SasmParser.Parser.NextToken | src/main.rs:44-75 | the token (or the error) and the new cursor are those of `NextTokenAt` from the old cursor |
| SasmParser.TokenizeFrom | src/main.rs:77-92 | on success the cursor stands at the end of the words |
| SasmParser.TokenizedAreInstructions | src/main.rs:77-92 | on success every token is an instruction: no `Eof`, `Operand` or `Illegal` |
| SasmParser.TokenCountBound | src/main.rs:77-92 | tokenizing never yields more tokens than there are words left |
| SasmParser.Parser.Tokenize | src/main.rs:77-92 | the tokens and the cursor are those of `TokenizeFrom` |
| SasmParser.MisplacedFindsControl | src/main.rs:97-105 | no error exactly when no token of the inner part is `If`, `Goto` or `Halt` |
| SasmParser.BuildCommandChecks | src/main.rs:94-116 | succeeds exactly when there are at least two tokens, the inner tokens hold no `If`/`Goto`/`Halt`, and the last token is a terminator; then `toDo + [inEnd]` is the token list, so a leading `If` stays first; zero tokens and one token fail with the two slice errors |
| SasmParser.ParsedCommandIsWellFormed | src/main.rs:94-116 | every loaded command has a non-empty body of instructions, no control token after position 0, and a terminator at the end |
| SasmParser.ShortLineRejected | src/main.rs:97 | a line with fewer than two words fails to load, so a lone `halt` is an error |
| SasmParser.BlankLineRejected | src/main.rs:95-97 | a blank line fails on the empty token list |
| SasmParser.LeadingTerminatorLoads | src/main.rs:97-110 | `goto 1 halt` loads as a body holding `Goto(1)` with terminator `Halt`, since the first token is never checked |
| SasmParser.Parser.ParseCommand | src/main.rs:94-116 | the command (or the error) and the cursor are those of the specification `ParseCommandAt` |
| SasmParser.CommandRoundTrip | src/main.rs:94-116 | printing a well-formed command as words and parsing them gives the same command back |
| SasmParser.TokenizeRendered | src/main.rs:77-92 | the printed words of instruction tokens tokenize back to the same tokens, in order |
| SasmParser.NextTokenOfRendered | src/main.rs:44-75 | the printed words of one instruction read back as that instruction and consume exactly those words |
| SasmParser.RenderedKeyword | src/main.rs:57-72 | a printed instruction starts with a lower-case keyword, followed by the operand's numeral exactly when the keyword takes one |
| SasmParser.FirstFailureIsFirst | src/main.rs:118-129 | succeeds exactly when every line does, with one command per line in line order; otherwise fails with the error of the first failing line |
| SasmParser.FirstFailureUnfold | src/main.rs:122-126 | one loop turn: a failing line ends the load with its error, and a parsed line's command precedes the rest |
| SasmParser.LoadIsLineByLine | src/main.rs:118-129 | loading succeeds exactly when every line parses on its own, and then gives exactly one command per line, in line order |
| SasmParser.ShortLineFailsLoad | src/main.rs:94-129 | one line of fewer than two words makes the whole load fail |
| SasmParser.ProgramRoundTrip | src/main.rs:118-129 | printing well-formed commands one per line and loading the text gives the same commands back |
| SasmParser.Parser.ParseAlgorithm | src/main.rs:118-129 | the result is the line-by-line load of the text's lines; after a successful load of at least one line the cursor is 0 and the words are those of the last line |
| SasmMachine.Machine.constructor | src/main.rs:133-138 | the tape is the given one and the index 0 |
| SasmMachine.Apply | src/main.rs:140-148 | `write v` and `erase` set only the current cell (to `v`, to 0) and need the index on the tape; `movel` adds and `mover` subtracts `v as usize`, failing on usize overflow or underflow; the tape length never changes; any other token is a runtime error |
| SasmMachine.NegativeMovelOverflows | src/main.rs:144 | `movel` with a negative operand `v` overflows whenever `index + v >= 0`, since `v as usize` is near 2^64 |
| SasmMachine.NegativeMoverUnderflows | src/main.rs:145 | `mover` with a negative operand `v` underflows whenever the index is below `2^64 + v` |
| SasmMachine.MovesByOperand | src/main.rs:144-145 | with a non-negative operand, `movel` moves the index up by it and `mover` moves it down |
| SasmMachine.Machine.ExecuteInstruction | src/main.rs:140-148 | the new tape and index are those of `Apply`; on an error the machine is left as it was |
| SasmMachine.RunBody | src/main.rs:160-162 | running a body in order keeps the tape length |
| SasmMachine.Machine.RunInstructions | src/main.rs:160-162 | the new state is that of running the body in order; the first error ends it |
| SasmMachine.Step | src/main.rs:151-167 | one loop turn keeps the number of lines and the tape length, and changes no line but the current one (what the current line becomes is stated by `GuardCheckedOnce`) |
| SasmMachine.GuardMismatchSkips | src/main.rs:153-158 | a guard that does not match the cell moves to the next line, with the tape unchanged |
| SasmMachine.GuardCheckedOnce | src/main.rs:152-159 | after a line runs it is that line with its guard taken off and its body and terminator kept (an unguarded line is unchanged), so each guard is checked at most once per run; every line stays fit to run |
| SasmMachine.LoadedIsRunnable | src/main.rs:94-116 | every loaded command has a non-empty body whose only control token is a leading guard or terminator, so `to_do[0]` exists on the first visit |
| SasmMachine.GotoSelectsLine | src/main.rs:153-164 | a line ending in `goto v` with `v >= 1` never halts the run; it goes on at line `v`, counted from 1, when the guard matches or is absent, and at the next line when the guard does not match |
| SasmMachine.TerminatorDecides | src/main.rs:153-167 | a mismatched guard moves to the next line with the tape untouched; otherwise the body runs and the line ends in `goto` or `halt`: `halt` stops the run with the state the body left, and `goto v` goes on with the body's tape and the index `(v - 1) as usize`, for every `v` |
| SasmMachine.RunKeepsTapeLength | src/main.rs:150-169 | a run that ends keeps the tape length |
| SasmMachine.MoreFuelSameEnd | src/main.rs:151 | a run that ends within some step budget ends the same way with any larger one |
| SasmMachine.GuardedWriteRuns | src/main.rs:151-167 | `if 1 write 9 halt` on `[1,2,3]` writes 9 and halts |
| SasmMachine.GuardedWriteSkipped | src/main.rs:153-158 | the same line on `[0,2,3]` is skipped and the run ends with the tape untouched |
| SasmMachine.RevisitedGuardTraps | src/main.rs:153-154 | a guarded line with an empty body that jumps to itself traps on its second visit |
| SasmMachine.GotoPastEndEnds | src/main.rs:151-164 | `goto 99` in a two-line program ends the run normally |
| SasmMachine.GotoZeroEnds | src/main.rs:164 | `goto 0` sets the index to `usize::MAX` and ends the run normally |
| SasmMachine.LeadingTerminatorTraps | src/main.rs:146 | a loaded line with a leading `goto` traps when it runs |
| SasmMachine.Machine.ExecuteAlgorithm | src/main.rs:150-169 | the outcome is the specification `Run` from the machine's old state; on a normal end the machine holds the final state |
| Numbers.AsUsize | src/main.rs:144-145 | `v as usize` is `v` modulo 2^64, in range, and equal to `v` when non-negative |
| Text.WordsArePlain | src/main.rs:123 | `split_whitespace`: the words are non-empty and contain no white space |
| Text.LinesLackNewline | src/main.rs:120 | `lines`: no line contains a line break |
| Text.WordsOfJoin | src/main.rs:123 | `split_whitespace` of non-empty space-free words joined by single spaces gives the words back |
| Text.LinesOfUnlines | src/main.rs:120 | lines without line breaks or a trailing carriage return, joined by line breaks, split back into the same lines |
| Text.SplitPartsLackSeparator | internal/sanae/reader.go:160 | `strings.Split` on a separator: at least one part, and no part contains the separator |
| Text.SplitOfJoin | internal/sanae/reader.go:160 | splitting parts joined by the separator gives the parts back |
| SanaeReader.AtoiAccepts | internal/sanae/reader.go:30 | a number is accepted exactly when it is a signed decimal within the 64-bit range, and then keeps its value |
| SanaeReader.ToTokenCases | internal/sanae/reader.go:29-75 | a word is an `OPERAND` exactly when `Atoi` accepts it, and then carries its value; otherwise a keyword in any letter case gives its type with value 0; the result is an error naming the word exactly when it is neither |
| SanaeReader.KeywordReads | internal/sanae/reader.go:36-71 | each keyword, written in lower case, reads as its own type with value 0 |
| SanaeReader.ReadToken | internal/sanae/reader.go:162-185 | one loop turn: it fails exactly on an unknown word, on a number, or on an operand-taking keyword not followed by a number; otherwise an operand-taking keyword consumes two words and no other token does, the token is never an `OPERAND`, and keywords without an operand keep value 0 |
| SanaeReader.TokenizeWordsShape | internal/sanae/reader.go:158-188 | the tokens hold no `OPERAND`, and keywords without an operand have value 0 |
| SanaeReader.TokenizeStep | internal/sanae/reader.go:162-185 | one loop turn in the loop's own terms: an unknown word, a missing or non-numeric operand and a misplaced number end the line with their errors; otherwise the token, carrying the next word's value when its keyword takes an operand, comes before the tokens of the rest |
| SanaeReader.TokenizeWordsShift | internal/sanae/reader.go:162-185 | the words before the cursor play no part in the result |
| SanaeReader.Reader.NextToken | internal/sanae/reader.go:163-184 | the token read at `Position` (or the error) heads the tokenization of the line from there; `Position` is left on the token's last word, and the rest of the line continues after it |
| SanaeReader.Reader.TokenizeCommand | internal/sanae/reader.go:158-188 | the result is that of tokenizing the line's single-space parts from the old `Position`, which is back at 0 on success |
| SanaeReader.LexRenderedToken | internal/sanae/reader.go:29-75 | the printed words of a token read as its keyword and, when it takes one, its number |
| SanaeReader.ReadTokenLexemes | internal/sanae/reader.go:162-185 | a printed token reads back as itself, consuming exactly its own words |
| SanaeReader.LexRenderedTokens | internal/sanae/reader.go:29-75 | the printed words of tokens read as the keywords and numbers of those tokens, in order |
| SanaeReader.TokenizeRenderedLexemes | internal/sanae/reader.go:158-188 | the keywords and numbers of printed tokens tokenize back to the same tokens |
| SanaeReader.NumberReads | internal/sanae/reader.go:30 | the decimal form of any `int` reads back as that number |
| SanaeReader.TokenizeRendered | internal/sanae/reader.go:158-188 | printed tokens tokenize back to the same tokens |
| SanaeReader.LineTokens | internal/sanae/reader.go:158-188 | a printed line, split on single spaces, tokenizes back to its tokens |
| SanaeReader.IsValidCommand | internal/sanae/reader.go:83-94 | true exactly when the tokens contain an `IF` and a `GOTO` or `HALT` |
| SanaeReader.LastOfIsLast | internal/sanae/reader.go:101-110 | the value of the last token of a type, and the default exactly when there is none |
| SanaeReader.KeptDropsGuards | internal/sanae/reader.go:101-110 | no `IF` or `GOTO` is kept, and a list without them is kept whole |
| SanaeReader.KeptOfConcat | internal/sanae/reader.go:101-110 | keeping works piecewise over a concatenation |
| SanaeReader.Snoc | internal/sanae/reader.go:101-110 | one more token updates the condition, the next state or the kept instructions, as its type says |
| SanaeReader.NewCommand | internal/sanae/reader.go:96-112 | fails exactly on an invalid token list; otherwise the condition is the last `IF` value, the next state the last `GOTO` value (0 if none), and the instructions every other token in order, `HALT` included |
| SanaeReader.LastIfIsGuard | internal/sanae/reader.go:103-104 | with a single `IF` in front, the condition is that guard's value |
| SanaeReader.AssembleLine | internal/sanae/reader.go:96-112 | a guard, instructions and a `goto` build the command with that condition, those instructions and that next state |
| SanaeReader.CommandRoundTrip | internal/sanae/reader.go:96-188 | reading the printed line of a command gives the command back |
| SanaeReader.State.constructor | internal/sanae/reader.go:118-122 | a new state has no commands |
| SanaeReader.State.AddCommand | internal/sanae/reader.go:124-126 | the command is stored under its condition, replacing an earlier one; the other entries are unchanged |
| SanaeReader.Algorithm.constructor | internal/sanae/reader.go:193 | a new algorithm has no states |
| SanaeReader.Algorithm.Contents | internal/sanae/reader.go:128-130 | the commands of every state, in state order |
| SanaeReader.Algorithm.AddState | internal/sanae/reader.go:132-134 | the state is appended at the end, and the states stay distinct |
| SanaeReader.Algorithm.GetState | internal/sanae/reader.go:136-138 | the state at the index, or nothing (a panic in the original) when the index is outside the list |
| SanaeReader.ReadLineInstructions | internal/sanae/reader.go:205-207 | the command of a non-blank line has no `IF` or `GOTO` among its instructions |
| SanaeReader.FileLastKeeps | internal/sanae/reader.go:205-207 | filing a command keeps every state but the newest; in the newest it stores the command under its condition and keeps the other entries |
| SanaeReader.ReadFromUnfold | internal/sanae/reader.go:197-208 | one loop turn: a blank line appends an empty state, a failing line ends the read, a command goes into the newest state |
| SanaeReader.StateCount | internal/sanae/reader.go:193-203 | a program has one state more than it has blank lines |
| SanaeReader.ReadFiles | internal/sanae/reader.go:205-207 | every stored command is filed under its own condition and holds no guard and no `goto` |
| SanaeReader.Reader.constructor | internal/sanae/reader.go:151-155 | a new reader's `Position` is 0 |
| SanaeReader.Reader.ReadCommandLine | internal/sanae/reader.go:205-207 | the line's command is that of the specification and goes into the newest state under its condition, with `Position` back at 0 |
| SanaeReader.Reader.FileCommand | internal/sanae/reader.go:205-207 | adding the command to the newest state, which the algorithm shares, changes the algorithm's contents exactly as filing the command in its newest state does |
| SanaeReader.Reader.Read | internal/sanae/reader.go:190-210 | starting from one empty state, the result is the specification `ReadFrom` over the lines: a new algorithm with distinct states holding exactly those commands, or the first error |
| GoTape.MoveRight | internal/sanae/executor.go:33-34 | `mover` gives a position strictly between `-len` and `len` |
| GoTape.MoveLeft | internal/sanae/executor.go:35-36 | `movel` gives a position strictly between `-len` and `len` |
| GoTape.MoveLeftStaysOnTape | internal/sanae/executor.go:35-36 | from a cell, `movel` lands on a cell for every operand, as long as `3 * len` fits in an `int` |
| GoTape.MoveRightStaysOnTape | internal/sanae/executor.go:33-34 | `mover` lands on a cell when `position + v` is non-negative and does not overflow |
| GoTape.MoveRightCanLeaveTape | internal/sanae/executor.go:33-34 | `mover -1` from cell 0 gives position -1 |
| GoTape.HugeMoveRightLeavesTape | internal/turingmach/machine.go:53-54 | a `mover` whose sum overflows wraps around and leaves the tape (-2 on a three-cell tape) |
| SanaeExecutor.SanaeMachine.constructor | internal/sanae/executor.go:9-15 | the machine shares the given tape and algorithm, at position 0 |
| SanaeExecutor.Perform | internal/sanae/executor.go:27-40 | a command's instructions keep the tape length |
| SanaeExecutor.WriteChangesOneCell | internal/sanae/executor.go:31-32 | `write v` sets the cell under the head to `v` and changes no other cell, the position or the length |
| SanaeExecutor.EraseChangesOneCell | internal/sanae/executor.go:29-30 | `erase` sets the cell under the head to 0 and changes no other cell, the position or the length; off the tape it is an index error |
| SanaeExecutor.HaltIgnoresRest | internal/sanae/executor.go:37-38 | a `halt` ends the run at once; the instructions after it never run |
| SanaeExecutor.StateTransition | internal/sanae/executor.go:21-41 | with no command for the cell, control passes to the next state with the tape untouched; otherwise, unless the command halts or fails, to the command's next state |
| SanaeExecutor.ExecKeepsTapeLength | internal/sanae/executor.go:17-43 | a run that ends keeps the tape length |
| SanaeExecutor.MoreFuelSameEnd | internal/sanae/executor.go:19 | a run that ends within some step budget ends the same way with any larger one |
| SanaeExecutor.MoveRightOffTapeTraps | internal/sanae/executor.go:21-34 | a `mover -1` at cell 0 followed by a `write` traps on a tape index of -1 |
| SanaeExecutor.SampleProgram | internal/sanae/executor.go:17-43 | a two-state program writes 2 and 4 into the first two cells and halts |
| SanaeExecutor.SanaeMachine.RunCommand | internal/sanae/executor.go:27-40 | running the instructions gives the effect of the specification `Perform`, and on success the tape holds it |
| SanaeExecutor.SanaeMachine.Exec | internal/sanae/executor.go:17-43 | the outcome is the specification `ExecFrom` from state 0 at the machine's position; only the tape changes, and on a normal end or a halt it holds the final contents |
| TuringLexer.Lexer.constructor | internal/turingmach/lexer.go:32-34 | a new lexer is at position 0 with no previous token |
| TuringLexer.WordEnd | internal/turingmach/lexer.go:36-48 | the word at a position runs to the first space or the end of the text, with no space inside |
| TuringLexer.Lexer.CurrentWord | internal/turingmach/lexer.go:36-48 | the word is the maximal run of non-space characters at the old position; the position ends on the word's last character, or at the end of the text |
| TuringLexer.AtoiDigitLed | internal/turingmach/lexer.go:52 | an accepted number is a signed decimal of the 64-bit range; one that starts with a digit is non-negative |
| TuringLexer.Lexer.TokenizeOperand | internal/turingmach/lexer.go:50-59 | the word is an `OPERAND` of its value, which becomes the previous token; a word `Atoi` refuses is an error |
| TuringLexer.Instruction | internal/turingmach/lexer.go:64-77 | the five keywords give their type, `write`/`erase`/`halt` with value 0 and `mover`/`movel` with value 1 |
| TuringLexer.Lexer.TokenizeInstruction | internal/turingmach/lexer.go:61-80 | the word, matched in any letter case, gives its instruction with the default value, which becomes the previous token; any other word is an error |
| TuringLexer.Lexer.Advance | internal/turingmach/lexer.go:84-99 | one loop turn: an error ends the lexing with the result `LexFrom` gives; otherwise the position moves forward and the rest lexes to the same result |
| TuringLexer.Lexer.Tokenize | internal/turingmach/lexer.go:82-101 | the result is the character-level specification `LexFrom` from the old position and previous token |
| TuringLexer.LexFromIsWordLevel | internal/turingmach/lexer.go:82-101 | the character loop agrees with the word grammar "instruction word, then an optional number", with an instruction still waiting for its operand |
| TuringLexer.LexIsWordLevel | internal/turingmach/lexer.go:82-101 | a fresh lexer reads a text as the word grammar reads its words |
| TuringLexer.LexWordsShape | internal/turingmach/lexer.go:82-101 | the grammar gives exactly one token per instruction word, in order; every token is an instruction, `erase`/`halt` have value 0, and the others a non-negative value |
| TuringLexer.LexShape | internal/turingmach/lexer.go:82-101 | `Tokenize` gives one token per instruction word and never an operand token or a negative value |
| TuringLexer.LeadingNumberRefused | internal/turingmach/lexer.go:88-94 | a number with no instruction before it is an error |
| TuringLexer.Keyword | internal/turingmach/lexer.go:64-74 | each instruction's keyword starts with a letter and is already lower case |
| TuringLexer.LexOperandWords | internal/turingmach/lexer.go:88-92 | a keyword followed by a numeral reads as that instruction with the numeral's value in place of the default |
| TuringLexer.LexBareWord | internal/turingmach/lexer.go:71-74 | `erase` or `halt` followed by an instruction word reads as itself |
| TuringLexer.LexRenderedWords | internal/turingmach/lexer.go:82-101 | the words of lexed tokens read back as those tokens |
| TuringLexer.LexRenderText | internal/turingmach/lexer.go:82-101 | lexed tokens written out as text lex back to the same tokens |
| TuringMach.NewCommand | internal/turingmach/machine.go:9-13 | the instructions are exactly the lexer's tokens for the text, with condition and next state stored unchanged; they are lexed tokens; a lexing error is passed on |
| TuringMach.TuringMachine.constructor | internal/turingmach/machine.go:36-38 | the machine shares the given tape, at position 0 |
| TuringMach.Apply | internal/turingmach/machine.go:48-59 | `erase`/`write` set the cell under the head (to 0, to the value) and no other, and fail off the tape; moves leave the tape alone; only `halt` stops; the length never changes |
| TuringMach.Perform | internal/turingmach/machine.go:47-60 | a command's instructions keep the tape length |
| TuringMach.RunCommands | internal/turingmach/machine.go:42-61 | a state's commands keep the tape length |
| TuringMach.ThenStates | internal/turingmach/machine.go:41-62 | continuing with later states keeps the tape length |
| TuringMach.RunStates | internal/turingmach/machine.go:40-63 | one pass over the states keeps the tape length; it is a total function, so every run ends without a step budget |
| TuringMach.NoMatchNoChange | internal/turingmach/machine.go:43-46 | commands whose conditions all differ from the cell under the head change nothing |
| TuringMach.PerformStaysOnTape | internal/turingmach/machine.go:47-60 | on a tape whose length times three fits in an `int`, lexed instructions with operands at most `INT64_MAX - len` never fail and keep the head on the tape |
| TuringMach.RunCommandsStaysOnTape | internal/turingmach/machine.go:42-61 | the same for a state's commands |
| TuringMach.RunStaysOnTape | internal/turingmach/machine.go:40-63 | on such a tape, a run of lexed commands whose operands are at most `INT64_MAX - len` never panics and ends with the head on a cell |
| TuringMach.HugeMoveTraps | internal/turingmach/machine.go:43-54 | a lexable `mover 9223372036854775807` wraps the head to -2, and the next command's read panics |
| TuringMach.HaltIgnoresRest | internal/turingmach/machine.go:57-58 | a `halt` ends the command at once; the instructions after it never run |
| TuringMach.HaltEndsRun | internal/turingmach/machine.go:57-58 | a state that halts ends the run; the later states never run |
| TuringMach.TuringMachine.RunInstructions | internal/turingmach/machine.go:47-60 | running the instructions gives the effect of the specification `Perform`, and on success the tape holds it |
| TuringMach.TuringMachine.Exec | internal/turingmach/machine.go:40-63 | the result is the specification `RunStates` from the machine's position; only the tape changes, and on success it holds the final contents |

## Left out

- Reading `algorithms/test.sasm`, the hard-coded tape and the printing in `main` (src/main.rs:174-184) are I/O. The demo drivers under `cmd/` call constructors that do not exist with those signatures, and are not part of this model.
- The Go `Reader`'s file handle, `bufio.Scanner` and `Close` (internal/sanae/reader.go:140-156, 191) are I/O. `Read` takes the file's lines as a sequence instead, so the scanner's own line splitting and its line-length limit are not modelled.
- `str::parse::<i32>` and `strconv.Atoi` are modelled as an optional `+` or `-` followed by decimal digits within the type's range (`Text.ParseSigned`, `Text.ParseIntIn`, and `Text.Atoi` for Go's 64-bit `int`).
- Letters, digits and white space are the ASCII classes. Unicode classification and Unicode case folding in `strings.ToLower` are not modelled.
- Panic messages are typed error values, not strings.
- SasmMachine.Machine.ExecuteAlgorithm: a run is bounded by a step budget (`OutOfFuel`), because a `goto` back to the same line loops forever. Only runs that end within the budget are described. `MoreFuelSameEnd` shows that a larger budget changes nothing.
- SanaeExecutor.SanaeMachine.Exec: bounded by a step budget for the same reason, with the same `MoreFuelSameEnd` lemma.
- SasmMachine: `usize` overflow is the debug build's panic; release-mode wrapping is not modelled. A `Vec` is taken to hold fewer than 2^64 commands.
- TuringLexer.Lexer.CurrentWord: requires the position to lie within the text, since a position outside it panics in the original. `TokenizeOperand` and `TokenizeInstruction` carry the same requirement, and `Tokenize` calls them only on a letter or a digit of the text.
- TuringLexer.Lexer.Tokenize: a negative `Position` is an error value. The original panics on the index instead. Such a position arises only when `getCurrentWord` is called on a space at position 0, which `Tokenize` never does.
- GoTape.MoveLeftStaysOnTape: the result holds only for tapes whose length times three fits in an `int`, since Go's sums wrap around beyond that.
- TuringMach.RunStaysOnTape: the result holds only for operands at most `INT64_MAX - len`. `HugeMoveTraps` shows that a larger one can take the head off the tape.
- The Go tapes are `array`s shared with the caller, as the original slices are. Position changes made by `Exec` are local because of the value receiver.
