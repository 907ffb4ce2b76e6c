# EX-OS: models and proofs of its library algorithms

A Dafny model of the parts of EX-OS that are algorithms: the POSIX regular
expression compiler and matcher, the BASIC interpreter's block linker, machine
and expression parser, the ELF loader behind dlopen, the pthread barrier,
open_memstream, iconv, fnmatch and the DNS name and answer code. Each part is
modelled as the code works (objects whose fields change, loops over arrays,
state machines for what threads do) and proved against a definition that does
not mention how the code works.

`dafny verify dfyconfig.toml` checks everything.

## The parts

- **Regular expressions** (`Regex*.dfy`). `RegexSyntax` is the compiler as
  functions, `RegexCompiler` the parser object that computes them,
  `RegexCompiled` what every compiled tree satisfies, `RegexGrammar` the
  grammar of both syntaxes, `RegexParsed` that it is read back, `RegexAccepts`
  that nothing else is accepted, `RegexMeaning` what a pattern says about the
  bytes of a text.
  `RegexRun` is the backtracking search as a function with early stops and
  visit counts, `RegexMatcher` the matcher with its capture arrays, best way
  and step fuse. `RegexSemantics` defines matching twice, as derivations with
  captures and as a language; `RegexLean` singles out the derivations the
  search looks for.
  `RegexSound`, `RegexGroups` and `RegexComplete` relate the search to them;
  `RegexExec` and `RegexPatterns` state the result for regexec and
  regcomp, `RegexDoubled` for back references, `RegexOrder` which of the longest
  ways is reported; `RegexIcase` is the lockstep of REG_ICASE; `RegexLimits` the
  pattern for which pruning loses a match.
- **BASIC** (`Basic*.dfy`). `BasicCode` lays structured programs out as lines,
  `BasicPreprocess` links the blocks, `BasicMachine` is the pc machine and the
  big-step semantics, `BasicCorrect` and `BasicRun` prove them equal,
  `BasicLimits` is about the limit of 128 blocks and `BasicDeep` about that of
  64 FOR frames; `BasicLoops` says what a FOR does. `BasicExpr` and
  `BasicParser` are the expression parser that evaluates while it reads,
  `BasicPrecedence` its order of precedence.
- **Loader** (`Dl*.dfy`). `DlStore` is dlopen and dlclose as functions on the
  module table, the queue and a log; `DlLoad`, `DlOpen`, `DlCount`, `DlClose`
  and `DlRuns` prove what they do on every graph and over every sequence of
  calls, `DlFailed` what a failed open leaves behind, `DlLives` when
  constructors and destructors run, `DlCycles` what goes wrong with cyclic
  dependencies; `DlLoader` is the loader as an object; `DlSearch` the symbol
  search; `DlTls` the thread-local blocks as a state machine.
- **Barrier and memory streams** (`Barrier.dfy`, `Memstream.dfy`).
- **iconv** (`Iconv*.dfy`). `IconvCodes` holds decoders, encoders and tables,
  `IconvRun` and `IconvCalls` conversion in pieces for any step that is steady,
  `Iconv` that iconv's step is, `IconvRound`, `IconvPages` and `IconvText` the
  round trips, `IconvForms` what the bytes of each set are, `IconvLossy` what
  becomes of characters the target lacks and of broken input, `IconvMachine`
  the descriptor and its loop.
- **fnmatch** (`Fnmatch.dfy`; `FnmatchText.dfy` goes from the text of a pattern
  to the names it matches) and **DNS** (`Dns.dfy`, `DnsAnswer.dfy`;
  `DnsReplies.dfy` says what each outcome means).
- `Common.dfy` holds the types all parts use.

## Where the code differs from what is said about it

- A pattern with back references can miss a match: an empty turn of a repeat
  is pruned even if a later back reference needs the group it would set
  (`RegexLimits.LostBackReference`). For every pattern, within its step fuse,
  regexec finds the leftmost longest of the matches that have a derivation
  without such turns, a lean one, and so the leftmost longest match exactly
  when that one has (`RegexExec.LeftmostLongestIffLean`). Without back
  references, and whenever none depends on a group an empty turn sets, every
  match has.
- A FOR that goes on inside 64 others gets no frame, and its NEXT steps the
  loop around it (`BasicDeep.SixtyFiveFors`). `BasicRun.ShallowIffFramed` says
  exactly when that happens, `BasicRun.ShallowProgram` gives a test on the text.
- Blocks nested more than 128 deep lose their jumps, and no error is reported
  (`BasicLimits.LinkedIffShallow`, `BasicLimits.NothingReported`).
- Unary minus binds tighter than `^` (gfbasic/gf_basic.c:390-395), not looser
  as the comment at line 364 lists it.
- A FOR on an integer variable with a step of less than 1 does not end unless
  it starts or gets stuck past its limit: NEXT cuts the sum to a whole number
  (gfbasic/gf_basic.c:1441). `BasicLoops.FractionEndless` has the exact condition.
- NOT after an operator other than AND, OR and XOR is read as a variable of that
  name, and what follows it is ignored (`BasicPrecedence.NotAfter`).
- The test on a DO line is made only on entry (gfbasic/gf_basic.c:1494).
- A failed dlopen does not give back the references it took to libraries that
  were loaded before, so a library can stay loaded with no handle open
  (`DlRuns.LostReference`). Nothing is lost exactly when the load met none of
  them (`DlFailed.NothingLostIff`). `DlFailed.FailedCount` says how much is
  lost otherwise, and `DlRuns.CountsAreReferences` accounts for it over every
  run.
- Cyclic DT_NEEDED: the count of the module the cycle was entered by is too
  low, and closing it need not end (`DlCycles`). A load leaves exact counts
  exact exactly when what it brings in has no cycle. A close that ends does so
  within one level more than there are modules (`DlCycles.EndsWithinTable`).
- A name with a dot at its end is accepted by scrivi_nome and written as
  without it (`Dns.DotAtEnd`); the comment at lib/dns.c:117 says it is refused.

## Model

| member | source | states |
|---|---|---|
| RegexCompiler.Parser.ParseItem | lib/libc_regex.c:162-185 | reads a class, a range or a byte of a set and moves past it, or sets EBRACK, ECOLLATE, ECTYPE or ERANGE, as ReadItem defines |
| RegexCompiler.Parser.ParseSet | lib/libc_regex.c:152-195 | the loop over the items of a set gives exactly the set of ReadSet: case added, negation, newline and '\0' taken out |
| RegexCompiler.Parser.ParseBraces | lib/libc_regex.c:200-225 | `{m}`, `{m,}`, `{m,n}` in both syntaxes, at most 32767 and m <= n, or BADBR or EBRACE |
| RegexCompiler.Parser.ParseQuantifiers | lib/libc_regex.c:312-339 | every quantifier after an atom wraps what is there; an anchor cannot be repeated in extended syntax |
| RegexCompiler.Parser.ParseAtom | lib/libc_regex.c:228-309 | one atom in basic or extended syntax, groups numbered as their parenthesis opens, back references only to groups already opened |
| RegexCompiler.Parser.ParseSequence | lib/libc_regex.c:341-359 | the quantified atoms of a sequence linked in order; an empty one is RX_VUOTO |
| RegexCompiler.Parser.ParseAlternatives | lib/libc_regex.c:361-384 | the branches of an alternative in order, one branch alone without a choice node |
| RegexCompiler.Regcomp | lib/libc_regex.c:396-416 | the tree and group count of Compile or its error; a program that comes out satisfies what regexec requires, and with REG_ICASE has only case-closed sets |
| RegexCompiled.CompiledGood | lib/libc_regex.c:228-416 | for every pattern that compiles: the groups in order of their opening parentheses are exactly 1, 2, ..., re_nsub; every back reference is to one of them; no group contains its own number; with REG_ICASE no set tells the cases of a letter apart; extended syntax has no back reference |
| RegexParsed.CompileReads | lib/libc_regex.c:152-416 | every pattern written down from a description of the grammar, in extended or basic syntax (alternatives, sequences, quantifiers, groups, anchors and their places, bracket expressions with ranges and classes, back references in basic syntax), compiles to exactly the tree the description means, groups numbered by their parentheses |
| RegexAccepts.AcceptsIffDescribed | lib/libc_regex.c:152-416 | regcomp accepts a pattern, in either syntax, if and only if it can be written down from a description of the grammar, and then gives the tree and the group count which the description means |
| RegexAccepts.CompileDescribed | lib/libc_regex.c:152-416 | the description of a pattern that compiles: its text is the pattern, byte for byte |
| RegexMeaning.BracketHolds | lib/libc_regex.c:145-195 | the set of a bracket, byte by byte: what some item lists, or with REG_ICASE the other case of it; negated, what none does, and no newline with REG_NEWLINE; never '\0' |
| RegexMeaning.CountAllows | lib/libc_regex.c:200-339 | which numbers of turns each quantifier allows, by the decimal numbers in it |
| RegexMeaning.AltMeans | lib/libc_regex.c:152-384 | the tree of a description has exactly the language that the description says on its own: bytes, anchors, brackets, counts, sequences and alternatives written out on the text |
| RegexParsed.ItemsRead | lib/libc_regex.c:152-195 | bracket expressions: the items are read as written, ']' first, '-' last, classes included |
| RegexParsed.QuantsRead | lib/libc_regex.c:200-339 | quantifiers of both syntaxes: stacked in order, counts of at most 32767 |
| RegexParsed.AtomRead | lib/libc_regex.c:228-309 | atoms of both syntaxes, with groups inside groups; in basic syntax `*` first, `^` not at the start and `$` not at the end are themselves |
| RegexParsed.AltRead | lib/libc_regex.c:341-384 | alternatives, with empty branches |
| RegexPatterns.GrammarFinds | lib/libc_regex.c:152-619 | from the text of a pattern in either syntax to what it finds: it compiles to the tree its description means, regexec finds the leftmost longest lean match, and without back references, within the fuse, the leftmost longest part of the text that the description takes |
| RegexPatterns.EveryPattern | lib/libc_regex.c:152-619 | that, for every pattern that compiles |
| RegexPatterns.BracketFinds | lib/libc_regex.c:152-619 | a pattern that is one bracket, in either syntax: regexec finds the first byte of the text which the bracket holds, and reports no match exactly if there is none |
| RegexDoubled.RefMeans | lib/libc_regex.c:558-571 | a back reference leads exactly to where the text of its group has been repeated, byte by byte, with REG_ICASE up to case |
| RegexDoubled.DoubledFinds | lib/libc_regex.c:152-619 | `\(A\)\1` for every A without references: regexec finds the leftmost longest part of the text that is a text of A written twice, and group 1 is its first half |
| RegexOrder.TryFeeds | lib/libc_regex.c:450-573 | for every tree: the search goes on from everything the tree leads to, in the order of preference: an earlier branch before a later one, another turn of a repeat before none |
| RegexOrder.ReportsPreferred | lib/libc_regex.c:450-605 | for every tree and text, within the fuse: what is reported is the first of the longest in that order, at the first place where there is one, so the groups are determined |
| RegexCompiled.SetClosed | lib/libc_regex.c:145-195 | with REG_ICASE a set, negated or not, holds both cases of a letter or neither |
| RegexRun.OpWorkDrops | lib/libc_regex.c:497-573 | the measure of what is left to do drops when a node is replaced by its parts and its continuation, so the search ends without the fuse |
| RegexRun.TurnWorkDrops | lib/libc_regex.c:472-488 | the same when a turn of a repeat is over: an empty turn past the minimum is not continued, any other uses up text or mandatory turns |
| RegexSound.TrySound | lib/libc_regex.c:497-573 | for every tree, back references included: each way the search reaches the end by is a lean derivation (no turn of a repeat beyond its minimum takes nothing), with exactly those captures, of the node and then of its continuation |
| RegexLean.LeanDerives | lib/libc_regex.c:472-488 | a lean derivation is a derivation |
| RegexSound.AdvanceSound | lib/libc_regex.c:450-489 | the same for what follows a node: close of a group, next turn of a repeat, rest of a sequence |
| RegexSemantics.DerivesForward | lib/libc_regex.c:497-573 | a derivation only moves forward in the text and stays inside it |
| RegexSemantics.DerivesInLang | lib/libc_regex.c:497-573 | without back references a derivation reads a text of the language of the tree |
| RegexSemantics.LangDerives | lib/libc_regex.c:497-573 | without back references every text of the language has a derivation, from any captures |
| RegexGroups.DerivesOnly | lib/libc_regex.c:529-539 | a derivation sets only groups that occur in the tree |
| RegexGroups.DerivesJustified | lib/libc_regex.c:529-539 | every group a derivation leaves set spans a text inside the match that the body of that group matched |
| RegexComplete.MakeLean | lib/libc_regex.c:477-477 | every derivation has a lean one to the same end, with the same captures of the referenced groups, if no back reference depends on a group an empty turn sets |
| RegexComplete.DropEmptyTurns | lib/libc_regex.c:472-488 | dropping empty turns past the minimum from the turns of a repeat leaves the same end and the same captures of the groups that matter |
| RegexComplete.TryStops | lib/libc_regex.c:459-459 | the search stops early only when a way has reached the end of the text, which nothing can exceed |
| RegexComplete.TryComplete | lib/libc_regex.c:497-573 | for every tree: every lean derivation is reached by the search, or an early stop found one at least as long |
| RegexComplete.AdvanceComplete | lib/libc_regex.c:450-489 | the same for what follows a node |
| RegexComplete.NoRefsSafe | lib/libc_regex.c:477-477 | a tree without back references meets the condition under which pruning loses nothing |
| RegexMatcher.KeepAllLongest | lib/libc_regex.c:452-460 | keeping a way only if it is longer leaves the first of the longest ways |
| RegexMatcher.RanChain | lib/libc_regex.c:541-549 | doing two searches one after the other on the shared state, early stop and step fuse included, is the search of both |
| RegexMatcher.State.Record | lib/libc_regex.c:452-460 | a way to the end replaces the best one, with its captures, exactly if it is longer |
| RegexMatcher.State.MatchRef | lib/libc_regex.c:559-571 | a back reference matches exactly the text its group holds, up to case with REG_ICASE, and fails if the group is not set or the text does not fit |
| RegexMatcher.State.Step | lib/libc_regex.c:507-528 | the nodes without a body lead where StepEnd says or fail, decided as rx_prova decides it |
| RegexMatcher.State.Try | lib/libc_regex.c:497-573 | rx_prova: the best way, the steps and the fuse flag become those of the search Try; the capture arrays are unchanged on every return |
| RegexMatcher.State.TryGroup | lib/libc_regex.c:529-539 | a group sets its captures for the body and restores them on every return |
| RegexMatcher.State.TryBranches | lib/libc_regex.c:540-548 | the branches in order until one stops the search or the fuse is reached |
| RegexMatcher.State.TryRepeat | lib/libc_regex.c:549-558 | the first turn before no turn at all, as the code tries them |
| RegexMatcher.State.Advance | lib/libc_regex.c:450-489 | rx_avanti: the same contract as Try for what follows a node |
| RegexMatcher.State.NextTurn | lib/libc_regex.c:472-488 | one more turn if allowed, then what follows if the minimum is reached; an empty turn past the minimum fails |
| RegexExec.MatchesIsLang | lib/libc_regex.c:576-619 | without back references a match is a text in the language of the tree, and the reverse |
| RegexExec.WaysDerived | lib/libc_regex.c:590-600 | for every tree, any way found at a starting point is a lean derivation from that point with no group set |
| RegexExec.LongestAt | lib/libc_regex.c:590-600 | for every tree: at one starting point the search finds a way exactly when a lean derivation starts there, and keeps a longest one |
| RegexExec.GroupsOfWay | lib/libc_regex.c:529-539 | the groups of a way lie inside the match and were matched by their bodies; group 0 is the match |
| RegexExec.SearchCorrect | lib/libc_regex.c:590-605 | for every tree, over all starting points: the start found is the leftmost with a lean match; within the fuse the end is that of the longest one; no match is reported only if there is no lean one anywhere; the fuse error only if the fuse is reached |
| RegexExec.LeftmostLongestIffLean | lib/libc_regex.c:576-605 | for every tree, within the fuse: regexec gives the leftmost longest match if and only if that match has a lean derivation |
| RegexExec.MissedIffNoneLean | lib/libc_regex.c:576-605 | for every tree, within the fuse: no match is reported if and only if no part of the text has a lean derivation |
| RegexExec.SafeMatchesAreLean | lib/libc_regex.c:477-477 | if no back reference depends on a group an empty turn sets, which can be read off the tree, every match has a lean derivation |
| RegexExec.SafeIsBest | lib/libc_regex.c:576-605 | and then regexec is leftmost and, within the fuse, longest among all matches |
| RegexExec.Scan | lib/libc_regex.c:590-605 | the loop over the starting points returns what Search says, with the best way in the state |
| RegexExec.Regexec | lib/libc_regex.c:576-619 | the code of Search, a correct verdict, and in pm the match and every group inside it, matched by its body; pm is untouched without a match or with REG_NOSUB, and past nmatch |
| RegexExec.Report | lib/libc_regex.c:606-616 | pm holds the match and the groups, -1 for what is not set |
| RegexPatterns.NoRefsLongest | lib/libc_regex.c:576-619 | without back references and within the fuse, regexec succeeds exactly when some part of the text is in the language, and reports the leftmost start and the longest end |
| RegexPatterns.ExtendedPatterns | lib/libc_regex.c:396-619 | that, for every extended pattern that compiles and every text |
| RegexPatterns.CaseDoesNotMatter | lib/libc_regex.c:145-149 | with REG_ICASE, for every pattern, texts that differ only in the case of ASCII letters give the same code and the same offsets, fuse included |
| RegexIcase.StepLockstep | lib/libc_regex.c:491-528 | literals, sets, anchors and back references take the same step on two texts equal up to case |
| RegexIcase.TryLockstep | lib/libc_regex.c:497-573 | the two searches visit the same nodes and find the same ways |
| RegexIcase.SearchLockstep | lib/libc_regex.c:576-605 | and so do the searches over all starting points |
| RegexLimits.LostBackReference | lib/libc_regex.c:477-477 | `\(a*\)*b\1`, as regcomp compiles it, on `ab`: a derivation exists, none is lean, and regexec reports no match |
| BasicPreprocess.Preprocess | gfbasic/gf_basic.c:857-938 | the loop with its stack of 128 fills the jump fields of the statements in place as PassRange says |
| BasicPreprocess.PassCommand | gfbasic/gf_basic.c:857-938 | over the lines of any command nested no deeper than the stack has room, the pass links exactly its lines and leaves the stack as it was |
| BasicPreprocess.PassIfElse | gfbasic/gf_basic.c:863-895 | IF, ELSE and END IF: the IF jumps to the ELSE, the ELSE past the END IF |
| BasicPreprocess.PassProgram | gfbasic/gf_basic.c:857-938 | a program nested at most 128 deep comes out with every block linked |
| BasicCorrect.Simulates | gfbasic/gf_basic.c:1242-1497 | whatever a structured command means in the big-step semantics, the pc machine does: it reaches the line after the command with that store and the FOR and GOSUB stacks as at entry, or, if the command is too deep, the FOR that goes on with all 64 frames in use; before that every FOR that goes on gets its frame |
| BasicCorrect.SimulatesFor | gfbasic/gf_basic.c:1376-1433 | the same for FOR: limit and step once, the test before the first turn, one frame while the loop runs |
| BasicCorrect.SimulatesForTurns | gfbasic/gf_basic.c:1435-1446 | the same for the turns that NEXT makes |
| BasicCorrect.SimulatesCall | gfbasic/gf_basic.c:1283-1294 | the same for GOSUB to a labelled subroutine and RETURN |
| BasicCorrect.MoreFuel | gfbasic/gf_basic.c:1242-1497 | a meaning that is defined does not change with more fuel |
| BasicCorrect.Terminates | gfbasic/gf_basic.c:1242-1497 | if the machine halts, or comes to a FOR that goes on with all 64 frames in use, the big-step semantics is defined |
| BasicRun.MeaningReached | gfbasic/gf_basic.c:1242-1497 | a defined meaning is reached, with no FOR and no GOSUB left open when the main part ends |
| BasicRun.HaltMeans | gfbasic/gf_basic.c:1242-1497 | where the machine halts, the meaning is defined and the same |
| BasicRun.InterpreterCorrect | gfbasic/gf_basic.c:857-1497 | for every structured program nested at most 128 deep with no FOR going on inside 64 others: preprocessed and run, it halts with a store if and only if that store is what the program means, in a semantics without the 64-frame limit |
| BasicRun.CapMakesNoDifference | gfbasic/gf_basic.c:1427-1431 | the semantics with the 64-frame limit and the one without agree unless the limit is met |
| BasicRun.ShallowIffFramed | gfbasic/gf_basic.c:1427-1431 | the limit is met in the semantics if and only if the machine comes to a FOR that goes on and finds all frames in use |
| BasicRun.ShallowProgram | gfbasic/gf_basic.c:1427-1431 | a test on the program text that rules out a 65th frame: bounds for the FORs each subroutine can have open, its calls included, that are consistent with each other and leave the main part within 64 |
| BasicRun.ResultIsMeaning | gfbasic/gf_basic.c:1226-1500 | the store a run ends with is the meaning of the program |
| BasicRun.DoTestOnlyOnEntry | gfbasic/gf_basic.c:1494-1494 | LOOP goes back past the DO line, so the meaning of DO with a test there does not depend on the test after the first turn |
| BasicRun.Interpreter.DoFor | gfbasic/gf_basic.c:1376-1433 | FOR on the arrays of the interpreter is the step of the machine, the 64-frame limit included |
| BasicRun.Interpreter.DoNext | gfbasic/gf_basic.c:1435-1446 | NEXT: the error without a FOR, one more turn, or the frame dropped |
| BasicLoops.ForMakes | gfbasic/gf_basic.c:1376-1446 | a FOR whose body ends normally and leaves the variable alone, any start, limit and step: exactly the turns before the value is past the limit are made, turn k begins with the start stepped k times, and so does what follows the loop with k the number of turns |
| BasicLoops.ForEndless | gfbasic/gf_basic.c:1376-1446 | and if no value is past the limit it never ends |
| BasicLoops.DoubleFor | gfbasic/gf_basic.c:1376-1446 | a variable held as a double, step up or down: turn k sees start + k * step, there is none if the start is past the limit and else one more than the whole steps to it, and so many steps are in the variable afterwards |
| BasicLoops.WholeFor | gfbasic/gf_basic.c:1376-1446 | the same for an integer variable with a whole step |
| BasicLoops.ZeroStep | gfbasic/gf_basic.c:1376-1446 | with a step of 0 there is no turn, or no end |
| BasicLoops.FractionEndless | gfbasic/gf_basic.c:1435-1446 | an integer variable with a step of less than 1: the loop never ends if and only if it is entered and the value at which the variable stops moving is not past the limit after one more step |
| BasicRun.Interpreter.DoGosub | gfbasic/gf_basic.c:1283-1290 | GOSUB: the return place pushed if one of 128 is free |
| BasicRun.Interpreter.DoReturn | gfbasic/gf_basic.c:1291-1294 | RETURN: the error without a GOSUB, or back |
| BasicRun.Interpreter.DoStatement | gfbasic/gf_basic.c:1242-1497 | any statement is one step of the machine |
| BasicRun.Interpreter.RunAll | gfbasic/gf_basic.c:1226-1500 | the loop runs the machine until it halts or 200,000,000 steps are made, and then reports the error |
| BasicLimits.LinkedIffShallow | gfbasic/gf_basic.c:871-922 | the pass links every block of a program if and only if the program is nested at most 128 deep |
| BasicLimits.NothingReported | gfbasic/gf_basic.c:924-938 | the stack is empty at the end, so gfb_preprocess reports success, for every structured program, however deep it is nested |
| BasicLimits.CommandLeavesPart | gfbasic/gf_basic.c:857-922 | every command leaves a bottom part of the open blocks it met, even where opening lines were dropped |
| BasicCode.Flatten | gfbasic/gf_basic.c:857-860 | every structured program has a list of statements |
| BasicCode.CodedIsListing | gfbasic/gf_basic.c:857-860 | and before the pass its lines are exactly that list |
| BasicDeep.SixtyFiveFors | gfbasic/gf_basic.c:1427-1431 | 65 nested FORs from 1 to 1, preprocessed and run: the program means a = 65 and b = 2, the interpreter ends with the error of a NEXT without FOR and b = 1, because the 65th FOR has no frame and each NEXT ends the loop around its own |
| BasicExpr.ParsePrinted | gfbasic/gf_basic.c:371-622 | every expression tree, printed with the parentheses its precedence needs, is parsed to exactly its value and exactly its tokens are used: left-associative OR XOR, AND, &, + -, * / \ MOD, ^; one comparison per level; calls with any number of arguments |
| BasicExpr.ReadsAny | gfbasic/gf_basic.c:371-622 | the same at every level of precedence, before any tokens that do not continue it |
| BasicExpr.CarriesBinary | gfbasic/gf_basic.c:464-528 | a left-associative chain: the loop of its level goes on from the value of the chain so far |
| BasicExpr.ReadsArgs | gfbasic/gf_basic.c:404-415 | the arguments of a call, of which at most sixteen are passed on |
| BasicExpr.MinusBeforePower | gfbasic/gf_basic.c:390-395 | -a ^ b is (-a) ^ b |
| BasicPrecedence.RowGrouped | gfbasic/gf_basic.c:464-622 | any row of operands and operators is grouped around the last of its loosest operators, by an order of precedence that is written out; a comparison that is one too many ends the expression |
| BasicPrecedence.ExprOperand | gfbasic/gf_basic.c:371-462 | literals, variables, calls, negations and anything in parentheses are such operands |
| BasicPrecedence.TwoOperators | gfbasic/gf_basic.c:464-622 | a o1 b o2 c: the second operator first if and only if it binds tighter; ^ over * / \ MOD over + - over & over comparisons over AND over OR and XOR |
| BasicPrecedence.SecondComparison | gfbasic/gf_basic.c:540-574 | a second comparison and what comes after it is left unread |
| BasicPrecedence.NotBefore | gfbasic/gf_basic.c:576-586 | NOT binds less than every operator but AND, OR and XOR |
| BasicPrecedence.NotAfter | gfbasic/gf_basic.c:576-622 | NOT after AND, OR or XOR inverts what follows; after any other operator it is read as a name and what follows is left unread |
| BasicParser.Parser.ParseLevel | gfbasic/gf_basic.c:464-622 | the recursive descent with its loops leaves the value and the cursor of Parse, on every token sequence |
| BasicParser.Parser.ParseNot | gfbasic/gf_basic.c:576-586 | parse_not computes its level |
| BasicParser.Parser.ParseCompare | gfbasic/gf_basic.c:540-574 | parse_compare computes its level: at most one comparison |
| BasicParser.Parser.ParseChain | gfbasic/gf_basic.c:464-622 | the loops of parse_or, parse_and, parse_concat, parse_add, parse_mul and parse_pow compute theirs, from the left |
| BasicParser.Parser.ParsePrimary | gfbasic/gf_basic.c:371-461 | the same for parse_primary: literals, parentheses, minus, names, and unexpected tokens worth 0 |
| BasicParser.Parser.ParseArgs | gfbasic/gf_basic.c:404-415 | the loop over the arguments |
| DlLoad.LoadGrows | lib/libc_dl.c:740-766 | on every dependency graph, cyclic or not, a load queues modules that were not loaded, each exactly once and with all their dependencies, and touches no other; it terminates |
| DlLoad.LoadSucceeds | lib/libc_dl.c:534-766 | a load succeeds if and only if there is a set of names with the request in it, each already loaded or with a file whose needs are in the set |
| DlLoad.LoadWithin | lib/libc_dl.c:619-634 | what a load brings in lies in every such set |
| DlLoad.LoadSupplies | lib/libc_dl.c:619-634 | after a load everything a new module needs is loaded |
| DlLoad.LoadOrdered | lib/libc_dl.c:619-655 | on acyclic dependencies everything a new module needs was loaded before or is earlier in the queue |
| DlOpen.OpenDone | lib/libc_dl.c:673-702 | a successful dlopen relocates all its new modules before it runs any constructor, both in queue order, and leaves the queue as it was |
| DlOpen.OpenFailed | lib/libc_dl.c:665-702 | after a failed dlopen no code of a library has run and exactly the modules loaded before are loaded, with the same dependencies |
| DlOpen.OpenSucceeds | lib/libc.c:10750-10762 | dlopen succeeds if and only if the files are there and every new module finds its symbols among all that is then loaded |
| DlCount.LoadBalanced | lib/libc_dl.c:632-655 | on acyclic dependencies a load keeps every count equal to the references held, the new one included |
| DlClose.CloseBalanced | lib/libc_dl.c:854-864 | on acyclic dependencies a close ends and takes exactly one reference back |
| DlClose.CloseInOrder | lib/libc_dl.c:854-864 | a close runs the fini functions of exactly the modules it lets go, each once, and only after those of every module that depended on it |
| DlRuns.CountsAreReferences | lib/libc_dl.c:193-203 | after any sequence of opens and closes on acyclic dependencies, failed opens included, every count is exactly the open handles, plus the references failed opens left behind, plus the dependents |
| DlRuns.LoadedAreReached | lib/libc_dl.c:854-864 | after any such sequence the loaded modules are exactly those that the open handles and the references left behind reach |
| DlRuns.CloseEnds | lib/libc_dl.c:854-864 | on acyclic dependencies a close of an open handle always ends |
| DlRuns.FailSound | lib/libc_dl.c:665-702 | a failed open keeps the counts exact once the references it leaves behind, Lost, are counted |
| DlFailed.FailedCount | lib/libc_dl.c:665-702 | on every graph and for both kinds of failure: a failed open raises the count of each module loaded before by exactly the number of times dl_carica found it loaded |
| DlFailed.NothingLostIff | lib/libc_dl.c:665-702 | on every graph: a failed open leaves the table as it was if and only if it found no module that was loaded before |
| DlFailed.RelocationLoses | lib/libc_dl.c:673-702 | if only a relocation failed, the counts are raised by exactly the references of the new modules to the old ones |
| DlRuns.LostReference | lib/libc_dl.c:673-702 | a run that leaves a library loaded with no handle open: b is opened, the open of a, which needs b and a symbol nobody defines, fails, b is closed |
| DlRuns.RunSupplied | lib/libc_dl.c:867-892 | after any sequence of opens and closes on acyclic dependencies every dependency of a loaded module is loaded, as the symbol search requires |
| DlClose.MoreFuel | lib/libc_dl.c:854-864 | a close that ends does not depend on the bound of the recursion |
| DlLives.EndedOncePerStart | lib/libc_dl.c:673-864 | after any sequence of opens and closes on acyclic dependencies, failed opens included, the constructors and the fini functions of each module have alternated, constructors first, and the constructors ran last exactly if the module is loaded |
| DlLives.CloseLives | lib/libc_dl.c:854-864 | a close keeps that: fini once for each module that goes, and only for modules whose constructors ran last |
| DlCycles.LoadQueueCounts | lib/libc_dl.c:643-643 | on every graph: a queued module counts the references held to it and those of modules queued after it; those taken while it was being read are overwritten |
| DlCycles.ExactIffNoCycle | lib/libc_dl.c:643-643 | on any table whose counts are exact, a successful load leaves them exact if and only if the modules it brings in have no dependency cycle |
| DlCycles.CloseTrapped | lib/libc_dl.c:854-864 | closing a module of a cycle whose counts are used up never ends, however deep the recursion may go |
| DlCycles.EndsWithinTable | lib/libc_dl.c:854-864 | on every graph a close that ends at all goes at most one level deeper than there are modules, so whether it ends can be told from the table |
| DlCycles.TwoInACycle | lib/libc_dl.c:643-643 | two libraries that need each other: loaded once each, counted 1 instead of 2, and closing never ends |
| DlLoader.Loader.LoadModule | lib/libc_dl.c:534-766 | dl_carica and dl_da_file on the tables in place compute Load |
| DlLoader.Loader.AbandonQueue | lib/libc_dl.c:665-671 | dl_lascia_coda computes Abandon |
| DlLoader.Loader.FinishQueue | lib/libc_dl.c:673-702 | dl_finisci computes Finish: all relocations, then all constructors, or everything freed |
| DlLoader.Loader.OpenModule | lib/libc.c:10750-10762 | the ELF part of dlopen computes Open |
| DlLoader.Loader.CloseModule | lib/libc_dl.c:854-864 | dl_chiudi computes Close on a stack of any depth: it ends exactly when the recursion fits the stack, and then with that store |
| DlSearch.Search | lib/libc_dl.c:867-892 | visits each reachable module at most once, ends on cyclic graphs, finds the symbol if and only if a reachable module defines it with a non-null value, in one that no other is nearer than |
| DlTls.KeepInv | lib/libc_dl.c:313-358 | every step of every thread (free, clearing the pointer and clearing the thread pointer of a slot are three) keeps: one slot per thread and module, live blocks apart and on the heap, unpublished blocks private, answers still in their slots |
| DlTls.RunSafe | lib/libc_dl.c:294-358 | in every interleaving of lookups, publications, list growth and thread ends, a thread always gets the same block for a module, and blocks of live threads are on the heap and apart |
| DlTls.InvApart | lib/libc_dl.c:313-343 | blocks given to live threads are on the heap, and no two of them, or two modules of one, share a block |
| DlTls.OthersSlotsKept | lib/libc_dl.c:335-357 | a published slot is changed only by its own thread |
| DlTls.OwnSlotsKept | lib/libc_dl.c:335-357 | and not even by its own thread before it ends |
| Barrier.KeepInv | lib/libc_gnu.c:227-243 | every step of every thread keeps the invariant: mutual exclusion, the counts of each round, one arrival per wait, who filled a round, nobody lost |
| Barrier.RunSafe | lib/libc_gnu.c:203-243 | any number of threads, rounds and stray wake-ups: nobody returns from a round before it has exactly `quanti` arrivals, at most one serial return per round, and arrivals are quanti * giro + arrivati whenever the mutex is free |
| Barrier.RunKeepsInv | lib/libc_gnu.c:203-243 | and so does every run from a state that has it, in particular from a new barrier |
| Barrier.RoundDone | lib/libc_gnu.c:234-239 | a full round whose members have all returned had exactly one serial return |
| Barrier.Settles | lib/libc_gnu.c:227-243 | without new calls and stray wake-ups every run comes to an end |
| Barrier.QuietMeans | lib/libc_gnu.c:240-242 | when nothing can move, every member of every full round has returned, and who still sleeps waits for a round that lacks arrivals: no wake-up is lost |
| Memstream.PatchAt | lib/libc_gnu.c:84-96 | a write replaces what it covers, leaves the rest, and fills a hole before it with zeros |
| Memstream.WriteTwice | lib/libc_gnu.c:79-97 | writing in two goes is writing at once, so flushes do not matter |
| Memstream.LastWriteWins | lib/libc_gnu.c:53-126 | for every sequence of writes, flushes and seeks, the file is as long as its farthest write and every byte is the last one written there, or zero |
| Memstream.SeekAndWrite | lib/libc_gnu.c:114-126 | writing at the end adds to the file, and stepping back over what was written leads to where it began |
| Memstream.Stream.Grow | lib/libc_gnu.c:54-70 | room for the bytes and the '\0', the old bytes kept; it fails only past half of SIZE_MAX |
| Memstream.Stream.Store | lib/libc_gnu.c:86-94 | the bytes into the buffer, zeros in a hole before them, a '\0' at the end |
| Memstream.Stream.Flush | lib/libc_gnu.c:79-97 | what was gathered reaches the buffer, or is lost with the error flag set; a '\0' follows inside the capacity and the size announced is min(position, length) |
| Memstream.Stream.PutByte | lib/libc.c:2015-2036 | a byte goes to the end of what is written, a full buffer being flushed first |
| Memstream.Stream.SeekTo | lib/libc_gnu.c:114-126 | the place moves exactly when it is not before the start; else nothing changes |
| Memstream.Stream.Tell | lib/libc_gnu.c:109-112 | the position with what was gathered |
| Memstream.Stream.Perform | lib/libc_gnu.c:53-126 | any sequence of writes, flushes and seeks: the stream is the sparse file, unless room ran out, and room does not run out if every position reached fits twice into SIZE_MAX |
| IconvRun.Resume | lib/libc_iconv.c:292-326 | for any steady step: a call, then another on what is left, is one call on all the input with the room of both |
| IconvCalls.PiecesDoNotMatter | lib/libc_iconv.c:292-326 | any number of calls with input and room in any pieces together do what one call does |
| Iconv.DecodeMore | lib/libc_iconv.c:139-215 | in every character set, what is read does not depend on the bytes after it |
| Iconv.DecodeAgain | lib/libc_iconv.c:139-215 | unless a byte order mark was swallowed, reading again after a stop gives the same, with more bytes too |
| Iconv.ChunksDoNotMatter | lib/libc_iconv.c:292-326 | for all sets and suffixes: calls with the EINVAL tail carried over and output space in any pieces write, use and count what one call on the whole input does |
| Iconv.AllUsed | lib/libc_iconv.c:292-326 | when the input is used up, one call with any room that is enough gives exactly the same bytes, count and state |
| IconvRound.Utf8Accepts | lib/libc_iconv.c:144-160 | the UTF-8 decoder accepts exactly the forms of section 4 of RFC 3629, and the encoder gives the same bytes back |
| IconvRound.Utf8Back | lib/libc_iconv.c:234-242 | every scalar value written as UTF-8 is read back, whatever follows |
| IconvPages.Utf16Back | lib/libc_iconv.c:243-257 | the same for UTF-16 in both orders, surrogate pairs included |
| IconvPages.Utf32Back | lib/libc_iconv.c:258-268 | the same for UTF-32 |
| IconvPages.DecodeEncoded | lib/libc_iconv.c:139-290 | the same for every character set, once the byte order is known |
| IconvPages.PageForth | lib/libc_iconv.c:218-290 | a byte of Latin-1, Latin-9, Windows-1252, CP437 or ASCII comes back from the character it stands for |
| IconvPages.PageBack | lib/libc_iconv.c:269-285 | a byte a code page writes is read as the same character |
| IconvCodes.Cp437Apart | lib/libc_iconv.c:46-61 | the upper half of code page 437 holds every code point once |
| IconvText.ConvertText | lib/libc_iconv.c:292-326 | a text both sets have is converted completely, without loss, to its bytes in the other set, byte order mark included |
| IconvText.RoundTrip | lib/libc_iconv.c:292-326 | there and back the bytes are the same |
| IconvText.Utf8Survives | lib/libc_iconv.c:144-289 | every valid UTF-8 string survives every UTF-16 and UTF-32 variant, a leading U+FEFF included |
| IconvText.PageSurvives | lib/libc_iconv.c:192-290 | every string of a code page survives UTF-8 |
| IconvText.Utf8Text | lib/libc_iconv.c:144-160 | every string made of the forms of section 4 of RFC 3629 is the UTF-8 of a text |
| IconvText.PageText | lib/libc_iconv.c:192-212 | every string of bytes a code page defines is that code page's form of a text |
| IconvText.AllBytesDefined | lib/libc_iconv.c:194-212 | Latin-1, Latin-9 and CP437 define all 256 bytes |
| IconvLossy.LossyText | lib/libc_iconv.c:292-326 | any text of the source set: with //TRANSLIT each character's bytes or those of '?', with //IGNORE alone the bytes of those the target has; all is used and the count is the number of characters the target lacks |
| IconvLossy.StrictStops | lib/libc_iconv.c:292-326 | without a suffix: EILSEQ just before the first character the target lacks, with the bytes of those before it and nothing counted |
| IconvLossy.RoomStops | lib/libc_iconv.c:292-326 | where the next character does not fit: E2BIG just before it, with what was written so far |
| IconvLossy.InvalidPlace | lib/libc_iconv.c:305-312 | where no character stands: with //IGNORE one byte is skipped and counted, without it the call stops there with EILSEQ |
| IconvLossy.InvalidAfterText | lib/libc_iconv.c:292-326 | the same after any text |
| IconvLossy.IgnoreCleans | lib/libc_iconv.c:292-326 | UTF-8 to UTF-8//IGNORE on any bytes: the well-formed characters in their order are written, every other byte is dropped and counted, and a character cut off at the end stops the call with EINVAL |
| IconvLossy.PageHas | lib/libc_iconv.c:192-290 | a code page has exactly the characters that some byte of it stands for |
| IconvForms.Utf8Reads | lib/libc_iconv.c:144-160 | every byte string: a character of the value and length of its form, a character that is cut off, or neither |
| IconvForms.Utf16Layout | lib/libc_iconv.c:243-257 | the units of UTF-16LE, UTF-16BE and UTF-16 by the numbers in their bytes, surrogates included, and the mark FF FE before the first |
| IconvForms.Utf32Layout | lib/libc_iconv.c:258-268 | the same for UTF-32 |
| IconvForms.MarkDecides | lib/libc_iconv.c:161-191 | any input after a mark is converted as by the form with that byte order in its name |
| IconvForms.NoMarkIsBigEndian | lib/libc_iconv.c:115-191 | any input without a mark is converted as UTF-16BE or UTF-32BE |
| IconvForms.Cp1252Reads | lib/libc_iconv.c:38-207 | Windows-1252 byte by byte, against a table by code point; the five undefined bytes are invalid |
| IconvForms.Latin9Reads | lib/libc_iconv.c:64-201 | ISO-8859-15 byte by byte |
| IconvForms.Cp437Reads | lib/libc_iconv.c:45-211 | code page 437 byte by byte, against a table by code point |
| IconvMachine.Search | lib/libc_iconv.c:218-226 | the search loop of ic_tabella finds the first place |
| IconvMachine.ReadChar8 | lib/libc_iconv.c:144-160 | the UTF-8 loop of ic_leggi computes ReadUtf8 |
| IconvMachine.Descriptor.ReadChar | lib/libc_iconv.c:139-215 | ic_leggi computes Decode: what was read and the new byte order flags |
| IconvMachine.Descriptor.WriteChar | lib/libc_iconv.c:229-290 | ic_scrivi writes the bytes of Encode, or says that the set lacks the character or that there is no room, and only a written character sets the mark flag |
| IconvMachine.Descriptor.Iconv | lib/libc_iconv.c:292-326 | the loop of iconv computes Convert and leaves its state |
| Fnmatch.MatchSet | lib/libc_glob.c:62-97 | a set accepts exactly the bytes of its ranges, case folded, or the others if negated, and ends where it closes; an unclosed one is not a set |
| Fnmatch.MatchFrom | lib/libc_glob.c:99-152 | the rest of a pattern matches the rest of a name exactly when it splits so; both indices only grow and stay inside |
| Fnmatch.MatchStar | lib/libc_glob.c:113-127 | stars in a row, then every place where the rest may start, without the rule for periods |
| Fnmatch.Match | lib/libc_glob.c:154-158 | 0 if and only if the name splits into one piece per token of the pattern, each accepted, and a leading period is matched by a period of the pattern |
| Fnmatch.SplitsOne | lib/libc_glob.c:107-149 | a token that takes one character: the name splits exactly when it accepts the first and the rest splits |
| Fnmatch.SplitsStar | lib/libc_glob.c:113-127 | a star: exactly when some tail of the name splits by the rest |
| Fnmatch.StarStar | lib/libc_glob.c:114-114 | stars in a row are one star |
| FnmatchText.TextMeans | lib/libc_glob.c:53-152 | from the text of a pattern to the names it matches: characters, quoted ones, a '[' that is never closed, '?', '*' and sets of characters, ranges and classes, negated by '!' or '^', with what each takes written out, case folding and the rule for a leading period included |
| FnmatchText.TextRead | lib/libc_glob.c:62-152 | every pattern written from such parts is read as them |
| Dns.WriteName | lib/dns.c:92-126 | a name is written if and only if it is not empty, each label has 1 to 63 bytes and its wire form fits the space; then exactly that form, never past the space |
| Dns.WriteLabel | lib/dns.c:101-118 | one label after its length, exactly when it is neither empty nor too long and there is room |
| Dns.SkipName | lib/dns.c:138-153 | computes Skip |
| Dns.SkipPasses | lib/dns.c:138-153 | wherever a name stands, plain or ended by a compression pointer, it is passed over exactly |
| Dns.SkipMeans | lib/dns.c:138-153 | and nothing else is passed over: where salta_nome finds an end, a well-formed name stands and ends there |
| Dns.WrittenIsPassed | lib/dns.c:92-153 | what was written is passed over exactly, whatever stands around it |
| Dns.DotAtEnd | lib/dns.c:101-121 | a dot at the end of a name is accepted and changes nothing |
| Dns.SplitJoins | lib/dns.c:92-126 | the labels that are written are what stands between the dots of the name, but for one dot at its end |
| DnsAnswer.Resolve | lib/dns.c:331-388 | computes Scan on every datagram, reading only inside it |
| DnsAnswer.ScanAnswers | lib/dns.c:355-384 | the loop over the answers computes FindAddress; every turn moves on |
| DnsAnswer.ReadAnswer | lib/dns.c:356-383 | one record computes AnswerAt: refused past the end of the message, the address of an A record of class IN, or the place of the next one |
| DnsAnswer.QuestionsPassed | lib/dns.c:343-348 | the questions repeated in a reply are passed over exactly |
| DnsAnswer.AddressFound | lib/dns.c:355-384 | well-formed answers: the first address record is found, whatever stands before it |
| DnsAnswer.ReplyUnderstood | lib/dns.c:342-388 | on every well-formed reply, with any compressed names and other records, the result is the data of the first A record of class IN and length 4, or that there is none |
| DnsReplies.ScanMeans | lib/dns.c:331-388 | every datagram: it is dropped if and only if its id is not ours or it is no response; NXDOMAIN is ENOENT and any other error code EIO; otherwise an address is given if and only if the questions and then answers stand in it, the first address among them is that one and it is within ANCOUNT; ENOENT if and only if all answers stand in it and none is an address; EIO in all other cases |
| DnsReplies.BadMeansBroken | lib/dns.c:342-388 | EIO without an error code: the questions and answers that are counted do not all stand in the message |

## Left out

- Allocation failures everywhere but SIZE_MAX in memstream_cresce, and REG_ESPACE of the compiler.
- RegexExec.SafeIsBest: its condition on the tree is sufficient, not necessary: whether a turn that is given up is needed depends on the text. The exact condition for a text is that of RegexExec.LeftmostLongestIffLean.
- RegexAccepts.AcceptsIffDescribed: patterns are C strings, without '\0'; which of the error codes a refused pattern gets is stated by RegexCompiler.Regcomp only.
- The regular expression character classes: `[:alpha:]` and so on are a parameter, not the C locale's tables; regerror and regfree.
- BasicRun.InterpreterCorrect: statements are already classified and their texts opaque; a host gives the effect of each text on the store, FOR headers and conditions; arithmetic is over the reals; GOTO, single-line IF, DIM, INPUT and the full variable table are not modelled.
- BasicExpr.ParsePrinted: tokens, not text: an identifier that spells an operator word is that operator's token and no name; operators, names and calls are functions of a host, without effects on variables.
- DlStore: library paths and search directories are one map from names to files; a module is named by its library; relocation is whether its symbols are found; constructors and fini functions do not call the loader; the program's own relocations at start-up and the global lookup order are not modelled.
- DlCycles.CloseTrapped: between the closes proved to end (no cycle) and those proved never to end (a cycle whose counts are used up) there is no condition on the graph, only the bound of DlCycles.EndsWithinTable. A close that meets a module which is gone takes it as done; lib/libc_dl.c:858 reads the mark of freed memory there, so some cyclic closes that end in the model, such as of a library that needs two which need each other, need not end so.
- DlTls.RunSafe: no module is unloaded; after an unload ids are used again while old blocks stay. Memory is sequentially consistent.
- Barrier.RunSafe: the round counter does not wrap at 2^32; pthread_barrier_destroy and the null argument.
- Memstream: reading, locking, `long` overflow of a seek.
- Iconv: names of character sets and parsing of //TRANSLIT and //IGNORE; iconv_open's errors.
- Fnmatch: FNM_PATHNAME and glob.
- Dns: sending and receiving, timeouts, the text form of addresses; the 255-byte limit on names, which the code does not check.
- The kernel, drivers, window system, network, audio and start-up code: easy per-branch facts or services whose source is elsewhere.
