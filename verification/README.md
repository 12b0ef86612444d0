# PSI: verified models

Dafny models of the core of PSI, the PHP extension that calls C functions described in PSI files, and
proofs about them. `dafny verify dfyconfig.toml` checks everything.

- **The preprocessor** (`src/cpp_tokiter.c`, `src/cpp.c`, `src/types/cpp_exp.c`): a stream of tokens with a
  cursor, rewritten in place by two passes. `Preprocessor.dfy` is the program, a class over the mutable
  stream; the other files hold the specifications it is proved against and their consequences.
  `StageOne.dfy` is stage 1 as a single pass over its input, `StageOneExact.dfy` what it makes of each token, told
  by looking back and ahead from that token, `MacroCalls.dfy` reading and substituting arguments, `Pasting.dfy` the
  `#` and `##` operators, `Replacing.dfy` one expansion, `Expansion.dfy` the full expansion of object-like macros,
  `Conditionals.dfy` the `#if` bookkeeping, `OpenGroups.dfy` which text is active, told from the directives before
  it, `StageTwo.dfy` and `StageTwoRuns.dfy` the rounds of stage 2 and its runs, with the runs over included files
  inside, `StageTwoFacts.dfy` what holds in all of them, `StageTwoReads.dfy` what each round does, told from the tokens
  read before, `MacroTable.dfy` what the macro table is, told from the directives executed before, `Stretches.dfy` what
  is left of text between directives, `Divergence.dfy` text whose expansion never ends, `Ownership.dfy` who owns which
  token.
- **Array lists and tokens** (`src/plist.c`, `src/token.c`): `Lists.dfy`, `TokenBuffers.dfy`.
- **Validation** (`psi_data_validate` in `src/data.c`): `Validation.dfy` is the pass-by-pass process on values and
  its fixpoint theory, `ValidationRun.dfy` the loop with its lists, flags and error count.
- **The stacks of the GLR parser** (`src/parser_proc.c`): `GlrChains.dfy`, `GlrStack.dfy`.
- **Pointer chains** (`src/types.h`): `PointerChains.dfy`.
- **Calls and callbacks** (`src/libffi.c`, `src/context.c`): `Calls.dfy`, `CallFacts.dfy`.

A token is an address (`id`) with what it says; addresses are not reused. `live` is the multiset of allocated
tokens that the preprocessor owns and is only changed by allocating and freeing; freeing a token that is not
in it cannot be written. Where the source leaves defined behaviour (an assertion, an access out of bounds) the
model has an outcome for it (`Stuck`, `Broken`, `ok == false`) rather than a precondition, and the proofs say
exactly when it is reached (`StageTwoFacts.VerdictExactly`, `Preprocessor.Cpp.ExpandCall`,
`Conditionals.SkipsExactly`, `CallFacts.AssertionHolds`). The parser and the file system are functions given to
stage 2 (`Env`); they may answer the same request differently each time. Stage 2 takes a number of steps because
the source need not terminate; its verdict is proved to be the one determined by the runs that fit into that number.
For plain macros some number is enough for every text without directives if and only if the macros can be ranked, and
then a sufficient one is proved; what is asked of the macros concerns only those that the text can reach
(`StageTwo.InPlay`, `StageTwo.PlainIn`). The ghost parameters `text`, `use`, `rank` and `goal` carry that proof.

Deviations from what one would expect, all of them the code's own behaviour:

- Stage 1 sees the last kept token again when the end of the stream is deleted. If the last two tokens kept are a
  backslash and a line end by then, they are spliced as well, and so on (`StageOne.LateSplice`, `StageOne.StripEnd`).
- A macro call that ends the stream has its expansion inserted before the token in front of it
  (`MacroCalls.ReplacedInPlace` says exactly when the place is right).
- The substituted list is built in an array list with room for one element that does not grow while it is empty:
  `#define f(x) x` called with two tokens writes out of bounds (`MacroCalls.Fits`, `MacroCalls.FitsExamples`).
- Which levels of `#if` had their part is kept in the bits of an `unsigned`, by shifting an `int` 1. At level 31 that
  shift is undefined (section 6.5.7 of ISO/IEC 9899:2011). The assertions of the group bookkeeping hold unless such a
  shift is made (`Conditionals.SkipsExactly` and, at that depth, `Conditionals.DeepestNesting`).
- Stage 1 looks for HASH, DEFINE and NAME across line ends: `#define f`, a line end and `(` get the marker of
  `#define f(` (`StageOneExact.NameBefore`). A backslash that joins lines counts as a token
  of its line: no definition begins behind it (`StageOneExact.LineStart`).
- After `defined` without a parenthesis the next parenthesis in a directive, on whatever line, is taken for its own
  (`StageTwoReads.Waits`).
- The type stack is not cleared between passes, and what is on it counts as valid
  (`src/types/decl_struct.c:90-93`, `src/types/decl_union.c:83-86`, `src/types/decl_arg.c:112-115`). An invalid type,
  struct or union is therefore accepted by the second pass. The promise of `README.md:164-172` (of the repository), that
  the order does not matter, holds where errors may be shown (`Validation.OrderDoesNotMatter`). Where they may not it
  holds for two orders exactly if the first pass accepts nothing in both or in neither, or no type, struct or union is new
  (`Validation.SilentOrderExactly`, with `Validation.SilentOrderMatters` for an input that fails it), and for all
  orders within the lists of a file under a condition that mentions no order (`Validation.SilentOrderIrrelevant`);
  that exactly what follows is accepted holds if and only if all types, structs and unions follow
  (`Validation.LeastExactly`).
- `psi_plist_del_r` with offset 0 and no elements deletes everything.

## Model

| member | source | states |
|---|---|---|
| StageOne.SimStep | src/cpp.c:104-186 | Every iteration of the loop keeps the correspondence with the one-pass reference, through marker insertion and cursor jumps, and makes lexicographic progress; each splice takes out a line end and the backslash directly before it |
| StageOne.SimDone | src/cpp.c:98-189 | When the cursor runs off the end the stream is the reference result, on every input |
| StageOneExact.ResultExactly | src/cpp.c:98-189 | Stage 1 leaves of each scanned token nothing, itself, or itself behind a marker; which of these is said of the input alone: blanks and joined lines go, a parenthesis gets a marker if looking back from it gives NAME, DEFINE and HASH, the latter at the start of a line |
| StageOneExact.FlagsExactly | src/cpp.c:112-182 | Before every token each flag says what stands before it in the input |
| StageOneExact.PieceAt | src/cpp.c:167-182 | What a token becomes stands in the result where what the tokens before it become ends |
| StageOneExact.MarkerMasks | src/cpp.c:172-177 | A marker is the parenthesis with its first character masked, in the same place |
| StageOneFacts.ResultHasNoBlanks | src/cpp.c:105-165 | The output has no comment, attribute or white space |
| StageOneFacts.ResultAccounts | src/cpp.c:104-140 | The output without markers is a subsequence of the input; nothing is missing but blanks and equally many backslashes and line ends |
| StageOneFacts.ResultMarkers | src/cpp.c:167-182 | Every inserted marker is directly followed by a left parenthesis of the input that had no white space before it |
| StageOneFacts.DefineSeparated | src/cpp.c:142-182 | For `# define name (` with any blanks in between, the marker is inserted exactly if no white space stands before the parenthesis |
| StageOneFacts.LinesJoined | src/cpp.c:112-140 | A backslash and a line end with any comments and attributes in between vanish together |
| Preprocessor.Cpp.Stage1 | src/cpp.c:98-189 | Terminates on every stream, with the reference result and each deleted token freed exactly once |
| Preprocessor.Cpp.Stage1Round | src/cpp.c:104-186 | One iteration, branch by branch; what is spliced is a backslash and the line end behind it |
| Preprocessor.Cpp.DelCur | src/cpp_tokiter.c:116-143 | The token at the cursor is taken out, and at the end of the stream the cursor goes back one |
| Preprocessor.Cpp.DelRange | src/cpp_tokiter.c:145-184 | The same for a range |
| MacroCalls.ReadCallSound | src/cpp_tokiter.c:313-380 | A successful read has one argument per parameter, balanced and without top-level comma, and joining them with the commas read gives exactly the tokens between the parentheses |
| MacroCalls.ReadCallComplete | src/cpp_tokiter.c:313-380 | Every such split of a call is the one read |
| MacroCalls.ReadCallExact | src/cpp_tokiter.c:313-380 | A read succeeds if and only if there is such a split, and any such split is the one read |
| MacroCalls.SubstitutePieces | src/cpp_tokiter.c:385-409 | The substituted list is one piece per body token, in order: a NAME spelled like a parameter becomes that parameter's argument, the first such one's, and any other token itself |
| MacroCalls.FitsExamples | src/cpp_tokiter.c:382-416 | A body that begins with a parameter overflows the list for an argument of two tokens, one in parentheses does not |
| MacroCalls.ReplacedInPlace | src/cpp_tokiter.c:435-446 | A call is replaced in place, with the cursor on its start, if and only if it begins the stream or a token follows it; otherwise what is inserted stands before the token in front of it |
| Pasting.ExpandMatches | src/cpp_tokiter.c:236-292 | Slot by slot, texts and types of the tokens built are those of the kept tokens pasted into it, and line, column and file those of the macro name |
| Pasting.ExpandConserves | src/cpp_tokiter.c:236-292 | The text of the tokens built is that of all kept replacement tokens; their number is that of the kept ones less the merges |
| Pasting.MergedIsName | src/cpp_tokiter.c:268-276 | A token that something was pasted onto is a NAME |
| Pasting.BuildIsFresh | src/cpp_tokiter.c:236-292 | All tokens built are new and different |
| Replacing.CallExactly | src/cpp_tokiter.c:385-446 | What becomes of a call, told from its text: it splits into arguments in one way, each body token gives its piece, the result is built of the pieces slot by slot, where the name stood, and replaces the call, unless that ends the stream |
| Replacing.NameExactly | src/cpp_tokiter.c:451-469 | What is built of the body, slot by slot, replaces the name, unless the body is that name alone |
| Preprocessor.Cpp.ExpandTokens | src/cpp_tokiter.c:236-292 | Inserts exactly what the reference builds, allocating exactly that; the array is never exceeded |
| Preprocessor.Cpp.ReadCallTokens | src/cpp_tokiter.c:313-380 | Reads the call as specified; only its parentheses and top-level commas are freed, and only if the read succeeds |
| Preprocessor.Cpp.SubstituteArgs | src/cpp_tokiter.c:382-409 | The list built, by single and range additions, is the substituted body; no addition overflows |
| Preprocessor.Cpp.ExpandCall | src/cpp_tokiter.c:418-449 | Undefined exactly for no parameters, a name that ends the stream and arguments that do not fit; otherwise nothing changes or the call is replaced, each of its tokens freed exactly once |
| Preprocessor.Cpp.ExpandDef | src/cpp_tokiter.c:451-469 | The name is replaced by the expanded body and freed, with the cursor in place |
| Preprocessor.Cpp.Expand | src/cpp_tokiter.c:484-508 | Which of the above happens, by text and not by type |
| Expansion.ReplacementWeight | src/cpp_tokiter.c:451-469 | For ranked macros a replacement weighs one less than the name |
| Expansion.RewriteIsFullExpansion | src/cpp.c:277-286 | The expand-then-advance loop leaves exactly the recursive full expansion of each token |
| Expansion.RewriteIsNormal | src/cpp.c:277-286 | Nothing is left to replace |
| Expansion.SelfNamedStays | src/cpp_tokiter.c:471-482 | A macro that stands for its own name stays put |
| Expansion.EndsIffRanked | src/cpp.c:277-286 | The scan of every text ends if and only if the macros can be ranked; if they cannot, that of a single name goes on for ever |
| Expansion.RewriteFullyExpands | src/cpp.c:277-286 | What the scan leaves is the full expansion of each token where whatever is spelled like an expanding macro is a NAME |
| Stretches.TextFinishesExactly | src/cpp.c:277-286 | Stage 2 finishes text without directives that can reach plain macros only, given enough steps, if and only if the scan of its tokens ends, and leaves exactly what that scan leaves |
| Stretches.FinishesIffRanked | src/cpp.c:277-286 | With plain macros, whose bodies mention macros only as NAME, stage 2 finishes every such text, given enough steps, if and only if the macros can be ranked |
| Stretches.StretchRewritten | src/cpp.c:199-317 | In any run, active text between two directives that can reach only macros that can be ranked comes out as its full expansion by the macros of the moment; all around it, macros and levels stay as they are |
| Stretches.SkippedStretch | src/cpp.c:264-275 | Skipped text up to the next directive vanishes in as many rounds as it has tokens, and nothing else changes |
| Expansion.EndsWithin | src/cpp_tokiter.c:484-508 | Macros that a text cannot reach do not matter to whether its scan ends |
| Divergence.OutOfStepsForEver | src/cpp.c:277-286 | Text whose expansion goes on for ever makes stage 2 run out of steps, however many it is given |
| Divergence.UnrankedRunsOn | src/cpp.c:277-286 | If plain macros cannot be ranked there is a name that, on its own, is such a text |
| Conditionals.ExecRefines | src/types/cpp_exp.c:188-300 | Each conditional directive does to level, skip and mask what the stack of open groups says, with no assertion failing, exactly unless it is nested too deep for the mask |
| Conditionals.ExecSound | src/types/cpp_exp.c:159-186 | On levels that stand for some stack nothing fails below the width of the mask, and what comes of them stands for some stack; the program starts on such levels and keeps them through all rounds and files |
| Conditionals.SkipsExactly | src/types/cpp_exp.c:188-300 | A sequence of directives stays defined if and only if none is nested too deep; text is then skipped after it exactly if some enclosing group is not in its chosen part |
| Conditionals.ShallowNesting | src/types/cpp_exp.c:159-186 | Directives nested below the width of the mask stay defined |
| Conditionals.DeepestNesting | src/types/cpp_exp.c:175-179 | Nested groups whose conditions hold stay defined exactly up to the last level that the mask has a bit for |
| Conditionals.FirstPartChosen | src/types/cpp_exp.c:188-300 | At most one part of a group is chosen, the first one whose condition holds or that is an #else, and none inside skipped text |
| Conditionals.ShiftableExactly | src/types/cpp_exp.c:175-189 | The shift is defined exactly as long as the power of two fits into an int of 32 bits |
| OpenGroups.ActiveExactly | src/types/cpp_exp.c:188-300 | For all sequences of directives: the stack of groups says that text is active exactly if in every group that is still open the last part is the first one whose condition holds, an #else counting as one that does |
| OpenGroups.SkippedUnlessShown | src/types/cpp_exp.c:188-300 | The same for the level, skip mark and mask of the program, unless a group is nested too deep |
| OpenGroups.GroupLeavesStack | src/types/cpp_exp.c:252-260 | After the #endif of a group, with all that is nested in it, the stack is as it was before its #if |
| OpenGroups.GroupLeavesLevels | src/types/cpp_exp.c:252-260 | So are level, skip mark and mask |
| StageTwo.CollectsDirective | src/cpp.c:288-314 | What is collected when a line ends is a directive: HASH first, its only line end last |
| StageTwo.TextDropsEol | src/cpp.c:208-218 | Deleting line ends, the last one with its cursor jump included, keeps the way to the full expansion |
| StageTwo.TextExpands | src/cpp.c:277-286 | An expansion keeps the way to the full expansion and uses up weight |
| Preprocessor.Cpp.ExpandAll | src/cpp.c:277-286 | Expands, recording each expansion, until nothing is left to expand at the cursor, or up to where the source leaves defined behaviour, or for as long as there are steps; in plain text within a known number of them |
| Preprocessor.Cpp.Exec | src/types/cpp_exp.c:188-330 | Each directive changes levels, macros or stream as stated, and nothing while text is skipped; only a group nested too deep for the mask leaves defined behaviour, and only an included file can break it off |
| Preprocessor.Cpp.Include | src/cpp.c:395-430 | The tokens of a file, fully processed on the same state, are inserted before the cursor, which stays on its token; a file that fails leaves the stream as it was; it breaks off exactly where the run over the file does |
| Preprocessor.Cpp.Process | src/cpp.c:325-342 | Both stages, with a recorded run for every verdict; the outer stream and cursor are the same afterwards, for any depth of inclusion; no blank and no line end remains; text without directives whose macros can be ranked comes out as its full expansion |
| Preprocessor.Cpp.ParseFile | src/parser.re:200-221 | One file after another on the same preprocessor: each is processed, handed on as text and freed whole, and what is required before the next holds again, although the stream pointer goes on naming tokens that are freed |
| Preprocessor.Cpp.Stage2Round | src/cpp.c:199-317 | One round is one of the five kinds of `StageTwoRuns.Round`, or breaks off at a recorded place where the source leaves defined behaviour or the steps are used up; it keeps each token owned by exactly one of stream, pending directive and outside |
| Preprocessor.Cpp.HandOver | src/cpp.c:288-314 | The directive goes to the parser with its line end, which stays in the stream and is not freed with the others |
| Preprocessor.Cpp.Stage2 | src/cpp.c:191-323 | The whole pass is a run of such rounds to the end of the stream, to a rejected directive, to undefined behaviour or beyond the given steps, with the steps counted exactly; at the end of the stream no blank and no line end remains |
| StageTwoReads.RoundExactly | src/cpp.c:199-317 | In every run, which round drops, expands, steps over, collects or executes is told from the types of the tokens read: a directive begins with a HASH that is the first token of its line, and its names are expanded except after DEFINE, after a word that takes a name, and after the parenthesis of DEFINED |
| StageTwoReads.RunTells | src/cpp.c:202-262 | In every run each flag says what was read before |
| StageTwoReads.NameTaken | src/cpp.c:228-240 | The name after #ifdef, #ifndef, #undef and defined is taken as it is, whatever is defined |
| StageTwoReads.DefinedTaken | src/cpp.c:228-252 | So is the name in `defined(NAME)` |
| StageTwoReads.NameReachesParser | src/cpp.c:199-314 | #ifdef, #ifndef and #undef with a name reach the parser token for token |
| StageTwoReads.ExecutedLeaves | src/cpp.c:395-430 | A directive changes the stream only by what the run over an included file left, put before its line end; that run begins with the file after stage 1, on the macros and levels of the moment |
| MacroTable.TableExactly | src/types/cpp_exp.c:188-300 | In every run, included files counted in: a name is defined exactly if the last #define or #undef of it outside of skipped text is a #define, or there is none and it was defined before; its macro has the parameters and the body of that #define; #ifdef and #ifndef go by that table, and text is skipped by what they and the other conditions say |
| StageTwoFacts.HandsDirectives | src/cpp.c:288-314 | In every run each list given to the parser begins with HASH and ends with its only line end |
| StageTwoFacts.DefinitionReachesParser | src/cpp.c:219-314 | A definition reaches the parser token for token, in order, with no macro in it expanded, whatever is defined or skipped |
| StageTwoFacts.SkippedExactly | src/cpp.c:264-275 | In every run, included files counted in, no directive was nested too deep, and a token outside of directives is dropped exactly if it is a line end or some enclosing group is not in its chosen part |
| StageTwoFacts.TooDeepExactly | src/types/cpp_exp.c:159-186 | In every run, included files counted in, the bookkeeping of a conditional directive is undefined exactly if the stack of open groups at that place is too deep for it |
| StageTwoFacts.VerdictExactly | src/cpp.c:191-323 | Stage 2 ends exactly if some run from its start ends within the given steps, and in the state in which that one ends; it leaves defined behaviour exactly if some run does within them; it runs out of steps exactly if neither is so |
| StageTwoFacts.EndsAfter | src/cpp.c:191-323 | A run that ends takes at least the steps of any that breaks off, and none leaves defined behaviour on its way |
| StageTwoFacts.RunsAgree | src/cpp.c:191-323 | Adequacy of the rounds as a specification: two runs from the same state that have ended have ended in the same state, with the same steps, runs over included files with them |
| Lists.PList.AddR | src/plist.c:119-128 | Appends a range, which has to fit if the list is empty |
| Lists.PList.Get | src/plist.c:130-136 | Reads the element at an index, if there is one |
| Lists.PList.Del | src/plist.c:138-149 | Removes the element at an index, if there is one |
| Lists.RemovedExactly | src/plist.c:151-172 | How many elements deleting a range removes, and which ones stay |
| Lists.PList.DelR | src/plist.c:151-172 | Removes a range clipped to the end and returns it, overlapping move included |
| Lists.PList.Ins | src/plist.c:174-189 | Inserts an element |
| Lists.PList.InsR | src/plist.c:191-210 | Inserts a range, with overlapping move |
| Lists.PList.Shift | src/plist.c:212-223 | Takes the first element off |
| Lists.PList.Pop | src/plist.c:225-234 | Takes the last element off |
| Lists.UndoOne | src/plist.c:151-210 | Inserting a range and deleting it, or the other way round, restores the list |
| Lists.RunIsUndone | src/plist.c:151-210 | Any sequence of range inserts and deletes is undone by the inverse ones in reverse order |
| TokenBuffers.TokenBuf.AppendOne | src/token.c:141-161 | Adds a separator and a piece to the text; the one-buffer layout and the file name survive growth and move |
| TokenBuffers.TokenBuf.PrependOne | src/token.c:119-139 | The same before the text |
| TokenBuffers.Cat | src/token.c:82-117 | A NAME with the joined texts and the first file name, in an allocation of its own |
| TokenBuffers.AppendedIsJoined | src/token.c:141-161 | Appending any number of pieces joins them behind the text |
| TokenBuffers.PrependedIsJoined | src/token.c:119-139 | Prepending any number of pieces joins them in reverse order before the text |
| Validation.RunAccepts | src/data.c:259-403 | Unless it gives up after the first pass, a run accepts every type, struct and union, and what remains fails against all that was accepted |
| Validation.RunIsLeast | src/data.c:259-403 | What is accepted is the least set that has what was known, the types, structs and unions, and all enums and functions that hold in it |
| Validation.OrderDoesNotMatter | README.md:164-172 | Where errors may be shown the order of declarations does not matter |
| Validation.SilentOrderExactly | README.md:164-172 | Where errors may not be shown two orders give the same exactly if the first pass accepts nothing in both or in neither, or no type, struct or union is new |
| Validation.SilentOrderIrrelevant | README.md:164-172 | Over all orders of each of the five lists: the result is the same for each exactly if no type, struct or union is new, or no order has anything pass in the first pass (nothing listed twice, no type, struct or union valid with its own list and those before it, no enum or function with all of them), or every order has (a type, struct or union listed twice, a nonempty part of one of the three lists valid with that part and the lists before it, or an enum or function valid with all of them) |
| Validation.SilentOrderMatters | README.md:164-172 | Two declarations of one kind accepted in one order and rejected in the other |
| Validation.LeastExactly | src/types/decl_struct.c:90-93 | Exactly what follows is accepted if and only if all types, structs and unions follow |
| Validation.GivingUpIsLeast | src/data.c:273-287 | A run that gives up accepts nothing, and nothing followed |
| Validation.FileGivesUp | src/data.c:302-384 | A file is given up exactly if each of its lists fails, in turn, with the lists before it known |
| Validation.GivesUpIf | src/data.c:273-287 | A run over some declarations gives up exactly if each type, struct and union in turn is listed for the first time and fails against those up to it, and each enum and function fails against all of them |
| Validation.InvalidAccepted | src/types/decl_struct.c:90-93 | An invalid struct on its own is accepted by the second pass |
| Validation.LoudExactly | src/data.c:273-285 | Errors are shown in more than one pass exactly if the very first pass accepts nothing and there is a type, struct or union |
| Validation.LoudNever | src/data.c:273-285 | No pass shows errors exactly if silent passes accept everything |
| Validation.LoudTwice | src/data.c:273-285 | An invalid struct on its own makes two passes show errors |
| ValidationRun.Data.CheckOne | src/data.c:302-384 | Types, structs and unions are known while checked and taken back if they fail, the others added only if they pass |
| ValidationRun.Data.Round | src/data.c:288-384 | One pass over the five lists is the pass of the specification; accepted and rechecked together are what was there before |
| ValidationRun.Data.Validate | src/data.c:237-406 | The loop computes the specified run within n + 3 iterations; every declaration ends up in exactly one of accepted and remaining; the errors are the initial ones plus the remaining; every temporary list is freed exactly once; the flags are restored |
| ValidationRun.FlatFile | src/data.c:302-384 | A pass over the lists of a source is one over types, structs, unions, enums and functions, in this order |
| ValidationRun.AcceptsLeast | src/data.c:237-406 | For the five lists of a file the accepted set is the least one |
| GlrChains.ArithmeticNeedsPacking | src/parser_proc.c:6416-6425 | Moving the end of the array does the same as following the predecessors if and only if the states are packed |
| GlrStack.Glr.NewItem | src/parser_proc.c:6098-6106 | Takes one item of the free space |
| GlrStack.Glr.Shift | src/parser_proc.c:6324-6342 | Pushes onto one stack and leaves all others alone, although they share states |
| GlrStack.Glr.DoAction | src/parser_proc.c:6409-6446 | Both branches pop the same right hand side off one stack and leave all others alone; the split point follows |
| GlrStack.Glr.PopOne | src/parser_proc.c:7264-7266 | Pops one state of the only stack in error recovery |
| GlrStack.Glr.Split | src/parser_proc.c:6526-6569 | A stack is duplicated |
| GlrStack.Glr.MarkDeleted | src/parser_proc.c:6265-6272 | A stack becomes empty |
| GlrStack.Glr.UndeleteLast | src/parser_proc.c:6277-6286 | The stack that died last comes back as it was when it died, if no other is left; what shifts, reductions, splits and removals do in between leaves it alone |
| GlrStack.Glr.RemoveDeletes | src/parser_proc.c:6288-6322 | Exactly the empty stacks are dropped, in order, with their lookahead flags |
| GlrStack.NonemptyExactly | src/parser_proc.c:6288-6322 | What is left are the nonempty stacks at increasing places, each with the flag of its place |
| GlrStack.Glr.ReverseLinks | src/parser_proc.c:6910-6913 | The links above the split point are reversed; the states at and below it stay as they are |
| GlrStack.Glr.CopyDown | src/parser_proc.c:6921-6929 | The overlapping copy moves every state down unharmed and links it to the one before |
| GlrStack.Glr.Compress | src/parser_proc.c:6902-6930 | The remaining stack has the same states and values, packed; used and free space add up as before |
| GlrStack.CompressedTrace | src/parser_proc.c:6902-6930 | The sequence of states and values, bottom to top, is that of before |
| PointerChains.RoundTrip | src/types.h:69-112 | At any pointer level dereferencing gives the pointer back for variables that are not arrays, and for arrays the cell that holds it |
| PointerChains.RoundTripExactly | src/types.h:87-112 | The pointer comes back if and only if the variable is no array |
| PointerChains.WalkPast | src/types.h:69-85 | Dereferencing further goes on in what the pointer points to |
| PointerChains.WalkKept | src/types.h:87-112 | Chains built before are not disturbed |
| PointerChains.Memory.Enref | src/types.h:87-112 | Builds the chain in level + 1 new cells and writes nowhere else |
| PointerChains.Memory.Deref | src/types.h:69-85 | Follows as many pointers as the level says |
| Calls.Machine.Execute | src/libffi.c:382-395 | The one stored frame per implementation, saved and restored around each foreign call, gives every callback the frame it would have by scope, in any nesting; afterwards the stored frames are as before |
| Calls.Machine.FfiCall | src/libffi.c:628-684 | The frame is stored for the time of the foreign call, if there is an implementation, and the previous one restored |
| Calls.Machine.ContextCall | src/context.c:360-403 | The phases of a call, by how far it gets |
| CallFacts.WholeRun | src/libffi.c:382-395 | In every run frames are used only while they live, a callback sees the innermost active call of its implementation, and calls and callbacks are nested only where a call reads or converts arguments, is in the foreign function or frees; at the end no frame is left |
| CallFacts.FreedOnce | src/context.c:360-403 | A frame is made at most once and freed exactly once |
| CallFacts.CallKeeps | src/context.c:360-403 | A call's frame goes through exactly the phases of its outcome, whatever is nested in them, and the frames and calls around it are as before |
| CallFacts.FreeKeeps | src/types/free_exp.c:121-143 | So does the frame of a call that only frees something |
| CallFacts.AllHappens | src/context.c:360-403 | Where no assertion fails every call is made, with a frame of its own, and every callback is seen |
| CallFacts.AssertionHolds | src/libffi.c:387 | The assertion in the closure holds throughout if and only if every callback is made within a call of its implementation |

## Left out

- Preprocessor.Cpp.Stage2: takes a number of steps, because the source does not terminate for some macros (`#define f(x) x(x)` with `f(f)`); a number is proved sufficient for text without directives and ranked object-like macros only.
- Preprocessor.Cpp.ExpandCall: termination of function-like macros is not claimed.
- Preprocessor.Cpp.Include: search paths, path building and include-once bookkeeping are part of the environment, which says what opening a file gives.
- Preprocessor.Cpp.Exec: `#error`, `#warning` and `#pragma once` have no effect in the model; the value of an `#if` condition comes with the parsed directive.
- The parser that turns a directive's tokens into an expression, and the generated scanner and grammar tables.
- Freeing a stored macro when it is redefined or undefined: `live` holds the tokens of streams and directives, macros have tokens of their own that no operation frees.
- Addresses are never reused after a token was freed, and the flags field of a token is not modelled.
- NUL characters inside texts: names are compared as whole strings.
- Lists.PList.DelR: needs a nonempty list, because the source reads one element too far on an empty one.
- Lists.PList.Ins: needs an index within the list, as the source does.
- Lists.PList.AddR: for an empty list the range has to fit, as the source does not grow it.
- `psi_plist_copy`, `psi_plist_top` and `psi_plist_sort`.
- Validation.RunIsLeast: the validators are a predicate over the known declarations; that they also fill in sizes, layouts and references is not modelled, nor are two declarations of one name.
- ValidationRun.Data.Validate: the accepted declarations of the five kinds are one list of declarations with their kind; errors are not counted modulo the width of their type; constants and implementations, validated after the loop, are left out.
- GlrStack.Glr.Shift: the array has room; `yyexpandGLRStack`, which copies it to a larger one, is left out, as are deferred reductions, merging of stacks and the resolution of ambiguities.
- GlrStack.Glr.MarkDeleted: only while there is a split point, which is when the parser does it.
- PointerChains.Memory.Enref: addresses count pointers, and memory exhaustion is left out.
- Calls.Machine.Execute: arguments, results and symbols of a frame are left out; code outside is a finite script, and userland code runs while arguments are read and converted, in callbacks and while things are freed, not in destructors of values that are overwritten; what jumps out of foreign code (`longjmp`, a PHP bailout) is left out.
- Building libffi and libjit types, struct padding, marshalling, constants and functions registered with PHP, the arithmetic of `src/calc`.
