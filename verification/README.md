# A verified model of the Output Match Testing Tool

The tool reads a test file, runs a program (the system under test, or SUT) on the input the file gives, and compares
what the program printed with the file's expectations. This project models the three parts of it that are hard to
get right, and the smaller part that shows a difference:

1. **The front end** (`Scanner`, `Lexing`, `Parsing`, `Words`, `Kinds`, `Grammar`, `Refusals`, `Synchronisation`,
   `Layout`, `RoundTrip`, `Unrender`, `FrontEnd`). The lexer changes its mode with what it has read; the parser pulls tokens from it and
   looks neither at the mode nor ahead. `Lexer` and `Parser` are classes with the source's fields and methods. They
   are proved against `Next` (one token, on the text still unread) and `Feed`/`Drive` (one token and all tokens, in
   the fifteen states). About these it is proved which buffers are accepted, with which data: exactly the legal
   renderings of the data (`FrontEnd.AcceptedLanguage`); and so for files on disk, with newlines in any styles
   (`FrontEnd.AcceptedFiles`). For all other buffers it is proved which exception leaves, against the grammar
   (`Refusals.WhichException`) and against the spelling of the tokens (`Kinds`).
2. **The poll loop** (`Protocol`, `ProtocolSafety`, `PostExit`, `Reporting`, `Scenarios`, `Echo`, `EchoProgress`,
   `EchoTotal`, `Process`). Parent, kernel pipes and child are a state machine whose labels are single system calls and
   single actions of the environment. The invariants hold in every run, for any child, pipe capacities, short reads and
   short writes, and signals at any time. `Scenarios` has runs that reach every outcome. `Process.Supervisor` is the
   real loop over a kernel of which only the contracts are used; every execution of it is proved to be a run of the
   machine.
3. **The line-ending rewriter** (`LineEndings`): an in-place loop, run twice, equal to one scan.
4. **The shown difference** (`Difference`, `Verdict`): the reported position, with what the search reads behind the
   expected text, and the three-row window around it.

Characters stand for bytes; character classes are those of the C locale. `dafny verify dfyconfig.toml` checks the
project.

## What the code does where one might expect otherwise

- `EXPECTED` at the start of a line ends a text just as `EXPECT` does, for the search is for the seven bytes of
  `"\nEXPECT"`. So a text that holds such a line cannot be written in any file (`FrontEnd.ExpectedLineUnwritable`);
  `Words.NoExpectLine` is the exact condition, and that there is no CR (`FrontEnd.FileImage`).
- A comment ends at a *later* word ending in `*/`; `/**/` alone does not end one. Comments are skipped before RUN only.
- What is read from the SUT is appended as a C string. Output is complete exactly when the SUT wrote no NUL
  (`ProtocolSafety.CompleteDrain`, both directions; `Scenarios.NulLosesOutput` is a run that loses some).
- The internal-error pipe is read once in each round and does not keep the loop going. With reads that take all that
  fits the buffer, a report always arrives whole if and only if it has at most 1023 bytes or the pipe holds at most
  1023 (`Scenarios.WholeReportIff` with `least` 1023, `Scenarios.ReportCut`). If reads may be shorter, the shortest
  takes the place of 1023. A report without a NUL is never lost altogether (`ProtocolSafety.OutcomeSoundness`).
- A signal that is seen when the child has already been reaped makes `kill` fail, and a `SystemException` leaves the
  call (`Scenarios.KillFails`). The exception for a signal may carry the number of a later one (`Scenarios.SignalKills`).
- The search for the first difference is given no end of the expected text and reads on in the test file. When the
  SUT prints the expected text and more, and the next byte is that with which the next EXPECT line begins, usually a
  newline, the reported position is too large and beyond the expected text. This is the exact condition
  (`Verdict.ReportedPosition`); `Verdict.NextLineMisleads` is a file and an output. What is then shown of the expected
  text is in `Difference.Window`. The search does not leave the file's buffer.
- A newline written CR, followed at once by one written LF, is read as one (`LineEndings.EncodingNormalises`).
- The pointer row and the hex row line up for 7-bit text only (`Difference.HexRowWidth`).

## Model

| member | source | states |
|---|---|---|
| LineEndings.Replace | headers/LineEndings.hpp:20-28 | the in-place loop ends and leaves the leftmost, non-overlapping substitution, even when the replacement contains the pattern |
| LineEndings.SubstituteFrom | headers/LineEndings.hpp:20-28 | the substitution keeps all up to the first match, replaces it, and goes on behind it |
| LineEndings.EmptyPatternRunsForever | headers/LineEndings.hpp:20-28 | with an empty pattern each turn of the loop puts one more replacement in front of the text, and there always is a next turn |
| LineEndings.ChangeLineEndingsToLf | headers/LineEndings.hpp:32-37 | the buffer becomes its one-scan normal form |
| LineEndings.TwoPassesAreOneScan | headers/LineEndings.hpp:32-37 | replacing CR LF and then CR equals one left-to-right scan, although CR LF pairs may remain after the first pass |
| LineEndings.NormaliseLength | headers/LineEndings.hpp:32-37 | the text gets shorter by exactly the number of its CR LF pairs |
| LineEndings.NormaliseRemovesCr | headers/LineEndings.hpp:32-37 | no CR is left |
| LineEndings.NormaliseIdempotent | headers/LineEndings.hpp:32-37 | normalising twice is normalising once |
| LineEndings.NormaliseConcat | src/ReadFile.cpp:52-59 | normalising piece by piece is right if and only if no CR LF pair straddles the cut, which is why it is done once after all reads |
| LineEndings.AnyEncodingNormalisesBack | headers/LineEndings.hpp:32-37 | with any choice of style for each newline a CR-free text comes back, if and only if no CR-style newline is followed at once by an LF-style one |
| LineEndings.UniformEncoding | headers/LineEndings.hpp:32-37 | a text written with LF, CR or CR LF throughout comes back |
| LineEndings.EncodingNormalises | headers/LineEndings.hpp:32-37 | whatever the styles, a text reads back without the LF-style newlines that follow a CR-style one at once |
| LineEndings.EveryTextIsEncoded | headers/LineEndings.hpp:32-37 | every text on disk is its normal form written in some choice of styles in which no newlines merge |
| Scanner.Tokens | src/lexer/Lexer.cpp:86-283 | lexing ends on every buffer, with at most as many tokens as there are characters |
| Scanner.Next | src/lexer/Lexer.cpp:110-211 | every token strictly lowers the measure: unread characters, and one more if a text is pending |
| Lexing.Lexer.constructor | src/lexer/Lexer.cpp:77-84 | reading starts at the start of the buffer in the keyword mode |
| Lexing.Lexer.FindNextToken | src/lexer/Lexer.cpp:86-108 | the reply and the new fields are the step of `Next` from the old state; a comment remembers the mode that opened it, which is never a comment or lines |
| Lexing.Lexer.HandleReadingComment | src/lexer/Lexer.cpp:110-125 | the step of `Next` inside a comment |
| Lexing.Lexer.HandleReadingKeywordsState | src/lexer/Lexer.cpp:127-171 | the step of `Next` in the two keyword modes |
| Lexing.Lexer.HandleReadingLinesUpToExpectState | src/lexer/Lexer.cpp:173-190 | the step of `Next` in the lines mode |
| Lexing.SearchFromLineStart | src/lexer/Lexer.cpp:173-185 | searching from one byte before the lines finds what searching the lines with a newline put in front finds, at the end of the buffer too |
| Lexing.Lexer.HandleReadingInteger | src/lexer/Lexer.cpp:192-211 | the step of `Next` in the integer mode |
| Lexing.Lexer.FirstNonDigit | src/lexer/Lexer.cpp:51-61 | the first character that is no digit is reported with its position, or none is |
| Lexing.Lexer.SwitchStateTo | src/lexer/Lexer.cpp:213-218 | the current state becomes the last one |
| Lexing.Lexer.ReadNextWord | src/lexer/Lexer.cpp:220-250 | the next run of non-white characters, with the cursor right behind it |
| Lexing.Lexer.ConsumeWhiteCharactersWithoutNewLine | src/lexer/Lexer.cpp:252-258 | spaces and tabs are skipped, and nothing else |
| Lexing.Lexer.ConsumeNewLineCharacter | src/lexer/Lexer.cpp:260-273 | one newline is skipped, nothing at the end of the buffer, and any other character is reported |
| Words.Lossless | src/lexer/Lexer.cpp:110-283 | when lexing runs to the end the buffer is its tokens, in order, with white space only before, between and after them |
| Words.NoTokenIsFinal | src/lexer/Lexer.cpp:86-283 | when there is no token all the text is read, and there is none ever after |
| Words.ReadText | src/lexer/Lexer.cpp:173-190 | a text that has no EXPECT line is read whole, whatever EXPECT line follows it |
| Words.SplitText | src/lexer/Lexer.cpp:173-190 | a text that was read has no EXPECT line, and one follows it unless it is the last |
| Text.OccursAsPart | src/lexer/Lexer.cpp:179 | what it is to occur in a text at a position |
| Text.EndsWithPart | src/lexer/Lexer.cpp:36-41 | what it is to end a text |
| Kinds.CharacterClasses | src/lexer/Lexer.cpp:220-258 | the white characters are the six of the C locale, the blanks are space and tab, the digits are ten |
| Kinds.TokenBySpelling | src/lexer/Lexer.cpp:110-211 | the kind of a token and the mode after it follow from its spelling: eleven keywords, `/*`, `*/`, digits |
| Kinds.TokensBySpelling | src/lexer/Lexer.cpp:110-211 | the kinds of all tokens of a file follow from their spellings, one after another |
| Kinds.RefusalIsFound | src/lexer/Lexer.cpp:51-61 | a refused character is the first behind the blanks behind INPUT or OUTPUT that does not end the line, or the first of the exit code that is no digit |
| Kinds.RefusalComes | src/lexer/Lexer.cpp:260-273 | every such character is refused |
| Kinds.LosslessUpToRefusal | src/lexer/Lexer.cpp:110-283 | up to a refused character the buffer is its tokens and white space, and what stands before that character |
| Parsing.Parser.Parse | headers/parser/Parser.hpp:47-98 | the loop ends on every buffer, and its result or exception is the one of `Drive` on the lexer's tokens |
| Parsing.Parser.HandleState | headers/parser/Parser.hpp:51-96 | one turn of the switch keeps the final result and lowers the measure |
| Parsing.Parser.HandleRunState | headers/parser/Parser.hpp:120-124 | comments are skipped and RUN is taken; otherwise the state machine's error |
| Parsing.Parser.GetNextNonCommentToken | headers/parser/Parser.hpp:368-379 | the loop ends, its token is no comment, and skipping comments does not change the final result |
| Parsing.Parser.ExpectKeywordAndSwitchToState | headers/parser/Parser.hpp:346-355 | exactly the named keyword is taken; otherwise missing keyword or wrong token |
| Parsing.Parser.HandleWithState | headers/parser/Parser.hpp:126-130 | takes one token as `Feed` does in this state |
| Parsing.Parser.HandleEmptyOrInputState | headers/parser/Parser.hpp:132-150 | takes one token as `Feed` does in this state |
| Parsing.Parser.HandleEmptyInputState | headers/parser/Parser.hpp:152-156 | takes one token as `Feed` does in this state |
| Parsing.Parser.HandleTextInputState | headers/parser/Parser.hpp:158-168 | takes one token as `Feed` does in this state |
| Parsing.Parser.HandleExpectOrFinishState | headers/parser/Parser.hpp:170-182 | takes one token, or the end, as `Feed` does in this state |
| Parsing.Parser.HandleEmptyOrOutputOrExitOrInState | headers/parser/Parser.hpp:184-210 | takes one token as `Feed` does in this state |
| Parsing.Parser.HandleInOutputState | headers/parser/Parser.hpp:212-216 | takes one token as `Feed` does in this state |
| Parsing.Parser.HandleEmptyOutputState | headers/parser/Parser.hpp:218-225 | takes one token as `Feed` does in this state |
| Parsing.Parser.HandleCodeOrWithState | headers/parser/Parser.hpp:227-245 | takes one token as `Feed` does in this state |
| Parsing.Parser.HandleCodeNumberState | headers/parser/Parser.hpp:247-266 | takes one token as `Feed` does in this state, with the number read by `stoi` |
| Parsing.Parser.HandleExitWithFailureOrSuccessState | headers/parser/Parser.hpp:268-292 | takes one token as `Feed` does in this state |
| Parsing.Parser.HandleTextOutputState | headers/parser/Parser.hpp:294-306 | takes one token as `Feed` does in this state |
| Parsing.Parser.HandleTextInOutputState | headers/parser/Parser.hpp:308-320 | takes one token as `Feed` does in this state |
| Grammar.GrammarEquivalence | headers/parser/Parser.hpp:47-320 | over any token list the fifteen states accept exactly COMMENT* RUN WITH (EMPTY INPUT or INPUT t) (EXPECT clause)*, and the result is the meaning the grammar gives it, clause by clause |
| Refusals.WantedIsExact | headers/parser/Parser.hpp:120-320 | at each place in a sentence, the keywords, number or text that the parser looks for are exactly what sentences go on with |
| Refusals.ViableIsPlace | headers/parser/Parser.hpp:120-320 | every list that some sentence starts with ends at one of these places |
| Refusals.WhichException | headers/parser/Parser.hpp:120-399 | for any tokens, the first that no sentence goes on with is refused with what is wanted there; without one, the lexer's exception leaves, or the end is missed, or the tokens are a sentence |
| Synchronisation.ModeSynchronisation | headers/parser/Parser.hpp:132-320 | in every reachable state of lexer and parser together the lexer is in the mode the parser's state needs |
| Synchronisation.StoiSeesDigits | headers/parser/Parser.hpp:247-266 | in every reachable state what the parser hands to `stoi` is a non-empty string of digits |
| Synchronisation.ImpossibleErrors | headers/parser/Parser.hpp:247-344 | with the real lexer, MissingText, UnexpectedKeyword and the error for what is no integer are never raised |
| RoundTrip.CommentTransparency | headers/parser/Parser.hpp:357-379 | whole comments before RUN, keywords in them or not, change neither the result nor the error |
| RoundTrip.RenderThenParse | headers/parser/Parser.hpp:47-98 | any data, rendered in any legal layout, are parsed back exactly |
| Unrender.ParsedIsRendered | src/lexer/Lexer.cpp:110-283 | every accepted file is a legal rendering of what it is parsed to, byte for byte |
| FrontEnd.AcceptedLanguage | src/main.cpp:186-193 | the buffer that `readFile` hands over is accepted with given data if and only if it is a legal rendering of these data |
| FrontEnd.AcceptedFiles | src/ReadFile.cpp:52-61 | a file on disk is accepted with given data if and only if it is a legal rendering of these data with its newlines in any styles of which none merge |
| FrontEnd.ExactImage | src/lexer/Lexer.cpp:173-190 | data come from some buffer if and only if no text of theirs has an EXPECT line and every exit code is from 0 to 2^31-1 |
| FrontEnd.FileImage | src/ReadFile.cpp:52-61 | data come from some file if and only if, besides, no text of theirs has a CR |
| FrontEnd.ExpectedLineUnwritable | src/lexer/Lexer.cpp:173-185 | no file gives an input or an expected output with a line that starts with EXPECTED |
| FrontEnd.ParseRenderParse | headers/parser/Parser.hpp:47-98 | parsing, rendering in any legal layout, and parsing again is parsing once, and there is a legal layout |
| FrontEnd.DecimalRoundTrip | headers/parser/Parser.hpp:256-259 | every number, written in decimal, is read back by `stoi`, or is out of range if it is above 2^31-1 |
| FrontEnd.DigitsAreDecimal | headers/parser/Parser.hpp:256-259 | every string of digits is zeros and the decimal of its value |
| FrontEnd.StoiReads | headers/parser/Parser.hpp:257 | `stoi` skips white space, takes a sign and reads all digits, within 32 bits |
| FrontEnd.StoiRefuses | headers/parser/Parser.hpp:257 | without a digit there is no integer |
| FrontEnd.ParseTestFile | src/main.cpp:186-193 | lexer and parser objects put together compute `Parse` |
| FrontEnd.ReadTestFile | src/main.cpp:163-165 | reading and parsing a file computes `Parse` of its normal form |
| FrontEnd.NewlineStyleIndependence | src/ReadFile.cpp:52-61 | a test file in any newline styles is read as its text is, without the newlines that merge; none do exactly when the text comes back |
| ProtocolSafety.InvKept | src/RunProcess.cpp:177-242 | every step of parent, child or signal keeps the invariant: conservation, write prefix, life cycle, closes, draining, outcome |
| ProtocolSafety.CStringsAreExact | src/RunProcess.cpp:46-52 | appending chunks as C strings loses nothing if and only if they hold no NUL |
| ProtocolSafety.CompleteDrain | src/RunProcess.cpp:178-222 | an end without a signal means: the exit was seen in an earlier round, both pipes are empty, and output and errors are what the child wrote if and only if it wrote no NUL |
| ProtocolSafety.OutcomeSoundness | src/RunProcess.cpp:211-242 | what each outcome means: a normal return means no report from the child and has its exit code, or 2^31-1 if it was killed; a report means an execution error with what was read of it; a signal means the child was killed |
| ProtocolSafety.OnlyReadyPipes | src/RunProcess.cpp:97-108 | a pipe is read only if poll reported data, and written only if it reported room and no error |
| Reporting.ReportArrives | src/RunProcess.cpp:211-214 | at a normal end all of a NUL-free report was read but for what one read of the report can leave of it |
| Scenarios.WholeReportIff | src/RunProcess.cpp:211-214 | a report arrives whole in every run if and only if it is no longer than the shortest read of it, or the pipe holds no more than that |
| Scenarios.ReportCut | src/RunProcess.cpp:211-222 | for every longer report, and every pipe that holds more, a run that loses its last byte |
| Scenarios.ReportTold | src/RunProcess.cpp:239-241 | for every NUL-free report, a run that ends in an execution error with all of it |
| Scenarios.CallReturns | src/RunProcess.cpp:86-95 | for every output that fits and every exit, a run that returns the child's exit code, or 2^31-1 if it was killed, and the output up to its first NUL |
| Scenarios.NulLosesOutput | src/RunProcess.cpp:46-52 | a run that loses output at a NUL |
| Scenarios.SignalKills | src/RunProcess.cpp:224-227 | a run in which a signal kills the child and the exception has the number of a later signal |
| Scenarios.KillFails | src/RunProcess.cpp:224-227 | a run in which the child was reaped before the signal was seen, and killing it fails |
| ProtocolSafety.WritePrefixAndCloseOnce | src/RunProcess.cpp:155-158 | the child's stdin took a prefix of the input, it is closed in the loop only after all of it, and on a normal end each of the eight pipe ends is closed exactly once |
| PostExit.PostExitBound | src/RunProcess.cpp:177-222 | with b bytes queued when the child dies, at any point of a round, at most b + 2 rounds follow, and a round that neither sees the exit nor is the last takes a byte |
| Echo.EchoConservation | systemtests/apps/scat.cpp:11-12 | with the copying child, in every reachable state, the input is output, stdout pipe, child, stdin pipe and unsent part, in this order |
| Echo.EchoResult | src/RunProcess.cpp:224-242 | with the copying child a return has exit code 0, no errors, and the input as output if and only if it has no NUL; there is never an execution error |
| EchoProgress.ParentNeverBlocks | src/RunProcess.cpp:160-209 | in every reachable state before the end some step of the parent is enabled |
| EchoProgress.NoDeadlock | src/RunProcess.cpp:177-222 | at the start of every round either the copying child can take a step or the round owes progress |
| EchoProgress.ChildProgress | systemtests/apps/scat.cpp:11-12 | every step of the copying child lowers the measure |
| EchoProgress.RoundPays | src/RunProcess.cpp:177-222 | what is owed at the start of a round is paid by its end |
| EchoProgress.FairEchoEnds | src/RunProcess.cpp:177-222 | there are at most 4n + 4 fair rounds, for n bytes of input and any capacities of at least 1 |
| EchoTotal.FairEchoReturns | src/RunProcess.cpp:177-242 | a fair execution leaves the loop within 4n + 4 rounds, can go on fairly until it does, and then can only return the input, if that has no NUL |
| EchoTotal.FairEchoExists | src/RunProcess.cpp:177-242 | for every input and all capacities of at least 1 there is such an execution, to its end |
| Process.ReadToBuffer | src/RunProcess.cpp:46-52 | the buffer, filled in place and ended with a NUL, is as a C string the chunk up to its first NUL, whatever it held before |
| Process.Supervisor.constructor | src/RunProcess.cpp:145-175 | four ends are closed and the variables are those of the machine's start |
| Process.Supervisor.Poll | src/RunProcess.cpp:178-181 | the machine's poll step |
| Process.Supervisor.ReadOutput | src/RunProcess.cpp:183-189 | the machine's step that reads stdout |
| Process.Supervisor.ReadErrors | src/RunProcess.cpp:191-197 | the machine's step that reads stderr |
| Process.Supervisor.WriteInput | src/RunProcess.cpp:199-204 | the machine's step that writes to the child |
| Process.Supervisor.CloseWhenAllWritten | src/RunProcess.cpp:206-209 | the machine's step that closes the child's stdin |
| Process.Supervisor.ReadInternalErrors | src/RunProcess.cpp:211-214 | the machine's step that reads the internal-error pipe |
| Process.Supervisor.Wait | src/RunProcess.cpp:216-220 | the machine's wait step |
| Process.Supervisor.LoopTest | src/RunProcess.cpp:221-222 | the machine's loop condition |
| Process.Supervisor.Finish | src/RunProcess.cpp:224-227 | the machine's end: kill and throw when a signal is seen |
| Process.Supervisor.CloseAndReturn | src/RunProcess.cpp:229-242 | the machine's normal end: the remaining closes, and results or execution error |
| Process.Supervisor.Run | src/RunProcess.cpp:177-242 | every execution of the real loop is a run of the state machine |
| Process.RunProcess | src/RunProcess.cpp:133-242 | what the caller may rely on for each outcome: complete output, the child's exit code, all ends closed once, or the child killed; and when the rounds run out, that all were used and how many a dead child still needs |
| Difference.LongestCommonPrefix | unittests/expectation/FullOutputExpectationTests.cpp:164-190 | how far two texts agree is the length of their longest common prefix, as the tests expect of the position |
| Difference.PositionSplits | src/expectation/FullOutputExpectation.cpp:23-28 | the reported position counts on in what memory holds behind the expected text when all of that agrees |
| Difference.PositionIsCommonPrefixIff | src/expectation/FullOutputExpectation.cpp:23-28 | the position is the length of the longest common prefix if and only if the output does not go on as memory does behind the expected text |
| Difference.SearchStaysInBuffer | src/expectation/FullOutputExpectation.cpp:23-28 | for an output without NUL the search ends at the latest with the NUL behind the buffer |
| Verdict.TextStandsInBuffer | headers/parser/Parser.hpp:294-306 | an expected text stands in the buffer, with nothing or the next EXPECT line right behind it |
| Verdict.ReportedPosition | src/expectation/FullOutputExpectation.cpp:23-46 | for an accepted file the position is the length of the longest common prefix exactly unless the output is the expected text and goes on with the byte with which the next EXPECT line begins |
| Verdict.NextLineMisleads | src/expectation/FullOutputExpectation.cpp:23-28 | a file that is accepted and an output with one newline too many, for which 3 is reported instead of 2, and no pointer is shown in the expected text |
| Verdict.ComparedOutput | src/main.cpp:196-211 | what is compared has no NUL and no CR, in every run |
| Verdict.VerdictIgnoresNewlineStyle | src/main.cpp:208 | the verdict on an output, and its cause, do not depend on the styles of its newlines, but for newlines that merge |
| Difference.CausePoints | src/expectation/FullOutputExpectation.cpp:32-46 | a cause is given exactly when the texts differ, with both texts whole; its position tells where, or is beyond the expected text and the output goes on |
| Difference.CauseIsShown | src/logger/ConsoleLogger.cpp:54-64 | the two windows shown for a cause hold the texts around the position, agree up to it and differ from there, unless it is beyond the expected text |
| Difference.Context | headers/logger/detail/Context.hpp:98-146 | the loop over the window builds the name row, the pointer row if wanted, and the hex row |
| Difference.Window | headers/logger/detail/Context.hpp:37-54 | the window reaches six characters to either side of the position, or to an end of the text; for a position beyond the text it is what is left of the six before |
| Difference.NameRowCell | headers/logger/detail/Context.hpp:24-29 | the k-th five-wide cell of the name row names the k-th character |
| Difference.NameReadsBack | headers/logger/detail/Context.hpp:107-131 | every printable character, space, TAB, CR, LF, VT and FF is read back from its cell, and NP stands for exactly the others |
| Difference.NameRowRoundTrip | headers/logger/detail/Context.hpp:106-131 | the name row reads back as the text, but for the characters without names |
| Difference.OnePointer | headers/logger/detail/Context.hpp:133-135 | the pointer row is blank but for one pointer, in the column of the position, if the position is in the window |
| Difference.HexRowWidth | headers/logger/detail/Context.hpp:31-35 | the hex row is as wide as the others if and only if all bytes shown are below 0x80 |
| Difference.HexCellReadsBack | headers/logger/detail/Context.hpp:31-35 | a cell is `0x`, digits and a blank, and the digits are those of the byte, sign-extended to 32 bits |
| Difference.HexRowRoundTrip | headers/logger/detail/Context.hpp:31-35 | 7-bit text can be read back from its hex row |
| Difference.DifferenceDisplay | headers/logger/detail/Context.hpp:96-146 | for any position, if all that is shown is 7-bit: three rows of equal width, one pointer in the right column if and only if there is a character at the position, a name row that reads back as the window where there are names, and a hex row that decodes to it |

## Left out

- Process.Supervisor.Run: the loop is given a number of rounds it may take, for a child that never exits keeps it going; running out of rounds is reported as no outcome.
- Process.RunProcess: what it promises is for the case that the given number of rounds is enough, as for the loop above.
- A blocking read of an empty pipe that a live child holds open; a read of an empty pipe gives 0 bytes here.
- Descendants of the child that keep its pipes open: only the child writes to its pipes.
- Failing system calls other than `kill`, EINTR, and the setting and resetting of signal handlers.
- The child's branch after `fork`: descriptor redirection and `exec` are straight-line system calls; what the child writes to the internal-error pipe is any text.
- File reading, and the stream output of the logger around the rows: input and output.
- The exit-code, success, failure, empty and partial expectations and the verdict: each is one comparison or one fold.
- Command line, help and licence text, and the cap of the exit status: straight-line code.
- The wording of exception messages: exceptions are datatype values with what the wording is made from.
- Token kinds outside the enumeration and the exceptions for them: the datatypes have no such values.
