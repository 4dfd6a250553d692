# A verified model of CWEB

This project models the algorithmic parts of Knuth and Levy's CWEB (the programs in
`cweb/`): CWEAVE's parser of C scraps, CTANGLE's token store and expansion machine, the
reader that merges a web file with a change file, the name directory that both programs
share, and CWEAVE's index sort, cross-reference lists and output buffer. Each is written
twice: as functions on values, about which the laws are proved for all inputs, and, since
the originals work in place on arrays and global variables, as classes whose methods are
proved to compute those functions.

`dafny verify dfyconfig.toml` checks everything.

## What is where

* **The parser** (`Category`, `Productions`, `ProductionTable`, `TextStore`, `Reducer`,
  `ReducerRun`, `ReducerMath`, `ReducerYield`, `ReducerShelter`, `Reserving`, `TokenRoom`,
  `RunFate`, `ScrapEngine`). A production is a window of four categories, the scraps it replaces, a new
  category, a cursor move and a template. `ProductionTable` shows that every one of CWEAVE's
  productions is sound. The laws: every iteration lowers a lexicographic measure, every
  scrap's text keeps the math-mode promise of its mathness in every state of every run, and
  the scraps at the end stand for the scanned program. `Reserving` tells exactly which words
  and scraps become type names. `TokenRoom` and `RunFate` tell when
  the token memory runs out, and how.
  `ScrapEngine.Engine` is the gap buffer, the token memory and the cursor.
* **What the parser writes** (`ProductionBook`, `Indentation`, `IndentedRuns`,
  `IndentationLeak`, `Dollars`). `ProductionBook` is the table that CWEB documents
  (`cweb/prod.w`), row by row, against the table that the parser has. `Indentation` and
  `IndentedRuns` count the `indent` and `outdent` codes of every text in every state of every
  run, and `Dollars` is about what stands between the pieces of the finished text.
* **What the parser leaves** (`Sight`, `ReducerStable`, `IfClauses`, `Healing`, `Fences`,
  `Scanner`, `StableRows`, `Trails`, `LeftBehind`). Whether the cursor always goes back far
  enough: `Sight` is about arbitrary rows of categories, `Healing` and `Fences` have the
  invariant of all runs, `Scanner` the categories that the scanner makes, `StableRows` and
  `LeftBehind` the theorems about runs from scanned scraps.
* **CTANGLE** (`TangleTokens`, `TangleExpansion`, `TangleMarkers`, `TangleDepth`,
  `TangleChains`, `TangleTexts`, `TangleDefs`, `TangleMacro`, `TangleOutput`, `TangleMain`,
  `TangleReading`). The byte
  code of tokens round-trips; the stack machine emits the recursive expansion of the
  source, cyclic or not, up to the point where the stack runs out; section markers nest;
  a name's texts are chained in the order of the source; the C file begins with the macro
  definitions, or with the program if the source asks for them. `TangleTexts.Texts` is the first
  phase, `TangleOutput.Expander` the second.
* **The change file** (`ChangeReader`, `ChangeMerge`, `ChangeLaws`, `ChangeLines`,
  `ChangeLoss`, `ChangeText`, `ChangeFile`, `ChangeRemarks`, `ChangeEngine`). For any two
  files, well formed or not, the lines delivered are a simple merge of the web file with the
  blocks of the change file. `ChangeText` says what the lines of a text are, `ChangeFile` what
  the blocks of a change file are, and `ChangeRemarks` what is complained about.
* **Names** (`SectionNames`, `SectionTree`, `SectionDictionary`, `NameStore`,
  `NameMeaning`, `IdTable`, `LinkedList`, `NameFacts`, `NameTable`). Section names are
  found by any unambiguous prefix and grow in pieces; identifiers are hashed; both live in
  the same arrays, and `NameTable.Directory` shows that neither disturbs the other.
* **The index** (`IndexOrder`, `IndexAlphabet`, `IndexSort`), **cross-references**
  (`XrefLists`, `XrefMemory`) and **output lines** (`LineBreaker`, `LineReading`,
  `LineComments`): the last two are about what TeX reads of the lines. `Basics` and
  `Iteration` are shared.

## Where the code does less than one would expect

Each of these is proved, with the exact condition under which the code does better.

* Productions 84 and 85 replace the text of an angle bracket by a fresh bracket, so a
  comment that was merged into it is lost (`a < /* c */ b`): `CommentIsLost`,
  `TranslateKeepsProgram`.
* Production 80 with two expressions puts a blank between them without leaving math mode:
  `PairsKeepExactly`, with the input `PairsExample`.
* An argument that ends with `@]` swallows the head of a function before it (production 111),
  which leaves two `indent` codes that nothing undoes. In every state of every run from scanned
  scraps each text indents by two if it is the head of a function and by nothing otherwise, if
  and only if no iteration does that: `EveryStateIndented`, with the input `LeakExample`. None
  does if no `@]` was scanned: `TranslateIndents`.
* The parser does what the documented table says but for eight rows (`WhereTheyDiffer`): it
  ends production 61 with a forced break where the table has a possible one; it marks
  insertions in 79 and 80; in 43 and 80 it keeps the last scrap, which the table does not show;
  and on the right of 8, 26, 45 and 108 the table leaves out or renames a scrap that stays as it
  is. Production 99 does not apply where the note to 97 holds that one back, and an argument
  that ends waits for a scrap that is about to change; the table says neither.
* `translate` asks for 20 free tokens (`safe_tok_incr`) before each iteration, but seven
  productions can append more, up to 31: `CostBound`. Where they append with `app_str`, which
  looks for the end of the memory, CWEAVE stops with its message. Where they append with
  `app`, which does not, productions 55, 63 and 66 write one token past the end if and only
  if they cost one token more than there is room for and end without a switch of math mode:
  `PastEndIsOverrun`. `BlockOverruns` is a block that does, with 24 tokens left, and
  `BlockStops` one of 28 tokens that never does. `ScrapEngine.Engine.Translate` runs with
  the source's 20 and tells the three outcomes apart.
* When `translate` stops, a production may still apply to the scraps it leaves, but only to
  two tags in a row, to `new` before the head of a structure, and to an expression before
  base classes and a type: `EndsParted`, from every scanned program. So two labels or more in
  a row (`a: b:`) stay apart, because production 7 does not move the cursor back
  (`LabelsStayApart`), and so does the head of a structure behind `new` or `operator`
  (`HeadStaysApart`). No production applies at the end if the scanned scraps have no colon,
  and not both a structure with a brace and one of these two words: `HarmlessIsStable`. For
  programs that may have expressions no other ban on categories is enough:
  `StableExactlyWithout`. On arbitrary rows of categories twelve productions (7, 13, 44, 45,
  46, 63, 64, 65, 66, 67, 101, 111) can leave behind something they could have taken, if only
  for a while: `ShortSightedExactly`. In runs from scanned scraps exactly nine of them can,
  because 63, 65 and 66 would need an if clause behind a preprocessor mark: `NineExactly`.
* The run of an output file ends if and only if its name or the unnamed program is defined:
  `FileEndsExactly`. If the name is not defined the file repeats the unnamed program, and
  begins with a closing marker left over from the file before, so that its markers do not
  nest: `FileNestsExactly`, `FilesNestIffDefined`.
* Control codes in capitals in the lines to match (but the first) are put in lower case, so
  that lines copied from the web file are reported as different: `CopiedLinesDiffer`.
* If the change file ends among the lines to match, an empty line stands for the last web
  line that was matched. A line is lost so if and only if such a block is applied whole, its
  file does not end in the middle of a line, and that web line is not empty: `LostExactly`,
  with the input `LossExample`. None is lost if every change has its `@y`, or the change file
  ends in the middle of a line: `CompleteLosesNothing`.
* A section name that is cited twice in a section leaves `section_xref_switch` raised, so
  that the next use of another name is recorded as a citation: `UseAfterCitation`.
* The collating table lacks character 127; a name that has it where another name agrees so
  far does not appear in the index: `IndexIsSorted`, with the input `DeleteExample`.
* The stack of the index sort overflows if and only if for some name the nonempty buckets
  that come after its own, at all depths down to where it is alone, fill the stack:
  `IndexSort.Sorter.Sort`.
* A full output buffer that begins with `%\` and has no other place to break gains nothing
  from breaking (`BreakShortens`, `StuckLine`): a line with only `%` is written, the buffer
  stays as it is (`StuckStays`) and the next character goes past its end.
* A line that CWEAVE breaks off is not always read as it was put out: an empty one, broken at a
  blank at the beginning of the buffer, ends a paragraph, and behind 79 backslashes the `%` at
  the end is not a comment. `ReadAsPutOut`: text without `%` is read as it was, with one blank
  for every run of them, if and only if there is no such line. Text without runs of blanks or
  backslashes is read exactly as it was: `ReadExactly`.
* A line broken at a blank loses all blanks at its end, so that a backslash comes last if and
  only if it stood before them: `BlankIsLost`, with the input `BlankExample`.
* `underline_xref` puts a reference that was never recorded out of order if a use in an
  earlier section precedes the first definition in one: `UnderlineUnrecorded`, with the input
  `UnderlineExample`.

## Model

| member | source | states |
|---|---|---|
| ProductionTable.TableSound | cweb/cweave.c:2295-2942 | No production of the table loses, repeats or reorders the scraps it replaces (84 and 85 apart), touches padding, or rewrites one scrap to an equal or higher rank, whatever the four categories are |
| ProductionBook.TableIsBook | cweb/prod.w:51-266 | The parser follows the documented table: after arguments that end and insertions, the first row whose left side and note allow the categories is selected, and none only if none does (or an operator waits for its other half); it puts in place of the scraps what the row says and shows what its translation says, but for the rows that `WhereTheyDiffer` lists |
| ProductionBook.WhereTheyDiffer | cweb/prod.w:51-266 | The parser departs from a row of the table if and only if it is 8, 43, 45, 61, 79, 80, 108, or 26 before a `raw_int` |
| ProductionBook.ShownIsBuilt | cweb/cweave.c:2196-2239 | What a production shows is what its body appends, also for a squash of several scraps |
| Indentation.TableBalanced | cweb/cweave.c:2295-2942 | Every production leaves the indentation that its new category asks for (two for the head of a function, none for others), if and only if it does not swallow such a head as an argument |
| IndentedRuns.FireIndents | cweb/cweave.c:2143-2239 | Firing a production keeps all texts so indented if and only if the production is balanced |
| IndentedRuns.EveryStateIndented | cweb/cweave.c:2269-2942 | From any scanned scraps: all texts of all states are so indented if and only if no iteration swallows the head of a function |
| IndentedRuns.FinishedIndents | cweb/cweave.c:2970-2977 | Then the finished text undoes all its indentation but two for each head of a function that is left |
| IndentedRuns.TranslateIndents | cweb/cweave.c:2244-2983 | So it does whenever no `@]` was scanned |
| IndentationLeak.LeakExample | cweb/cweave.c:2297-2299 | Scanned scraps at the end of which no head of a function is left, and the finished text is not balanced |
| Dollars.FinishedIsSpaced | cweb/cweave.c:2970-2977 | But for dollars the finished text is the texts of the remaining scraps in order, with exactly one blank between every two |
| Dollars.NoDoubleDollar | cweb/prod.w:11-14 | From any scanned scraps, two dollars never stand side by side in the finished text with all its texts written out |
| Reducer.ProductionFits | cweb/cweave.c:2273-2304 | The production selected at the cursor replaces live scraps only |
| Reducer.MakeReservedFlips | cweb/cweave.c:2068-2087 | `make_reserved` changes only which names are reserved and turns expressions into `raw_int` |
| Reserving.FindFromIsFirst | cweb/cweave.c:2043-2063 | The identifier found is the first in the order in which a text is read, references included, up to an `inserted` mark |
| Reserving.ReservedExactly | cweb/cweave.c:2068-2087 | Afterwards the first identifier of the scrap is reserved, every expression from it on that begins with this identifier begins with the reserved word and is a `raw_int` (unless it begins at the very place where one before it does), and nothing else has changed |
| Reserving.StepReserves | cweb/cweave.c:2495-2533 | An iteration reserves the name that a typedef declares or the tag of a structure that is declared or defined, and no other iteration changes a token that was there |
| ReducerRun.StepDescends | cweb/cweave.c:2269-2293 | Every iteration keeps the state well formed and lowers (live scraps, sum of ranks, scraps at or after the cursor) lexicographically |
| ReducerRun.RunIsSteps | cweb/cweave.c:2269-2293 | From every well-formed state the loop ends, after some number of iterations, in the one state `Run` |
| ReducerMath.BigAppKeeps | cweb/cweave.c:2003-2018 | Appending a mode-forcing token keeps a draft's promise about math mode |
| ReducerMath.BigApp1Keeps | cweb/cweave.c:2020-2038 | So does appending a scrap, with the mode switch that its mathness asks for |
| ReducerMath.FireKeeps | cweb/cweave.c:2143-2239 | Firing any sound production keeps every scrap's promise about math mode |
| ReducerMath.EveryStateKeepsMath | cweb/cweave.c:2269-2942 | In every state of every run, a scrap's text entered in its initial mode meets every leaf and code in a mode it allows and ends in its final mode |
| ReducerMath.FinishedOutside | cweb/cweave.c:2970-2977 | The finished text starts and ends outside math mode |
| ReducerMath.TranslateKeepsMath | cweb/cweave.c:2244-2983 | From scanned scraps to the finished text, for all inputs; without preprocessor lines also when bare blanks are banned from math |
| ReducerMath.PairsKeepExactly | cweb/cweave.c:2757-2761 | With bare blanks banned from math, production 80 on two expressions keeps the invariant if and only if the first does not end inside math |
| ReducerMath.PairsExample | cweb/cweave.c:2757-2761 | Scanned scraps to which production 80 applies and after which the invariant fails |
| ReducerYield.FireYields | cweb/cweave.c:2143-2239 | A production keeps the sequence of scanned texts, unless it re-renders a bracket that something was merged into; then it is shorter |
| ReducerYield.TranslateKeepsProgram | cweb/cweave.c:2295-2942 | At the end of a run the scraps stand for exactly the scanned program if and only if no iteration did that |
| ReducerShelter.ApartKeepsProgram | cweb/cweave.c:2300-2302 | Nothing is lost if no insertion touches an angle bracket in the scanned scraps |
| ReducerShelter.CommentIsLost | cweb/cweave.c:2787-2800 | Every program that begins with an expression, `<` and a comment loses something |
| Sight.StepTidy | cweb/cweave.c:2295-2942 | On any row of categories, a production other than those twelve leaves no window before the cursor that some production could take, but for windows that wait for an insertion ahead |
| Sight.ShortSightedExactly | cweb/cweave.c:2295-2942 | For arbitrary rows of categories: a production can leave a window behind if and only if it is one of the twelve listed above |
| ReducerStable.StableExactly | cweb/cweave.c:2269-2947 | For any sound table whose productions go back at most three scraps: no production applies to the final scraps if and only if no iteration leaves behind the cursor a window that some production could take and that no later iteration reaches |
| ReducerStable.CweaveStableExactly | cweb/cweave.c:2269-2947 | The same for CWEAVE's table, whose productions do go back at most three scraps |
| ReducerStable.FarSightedIsStable | cweb/cweave.c:2269-2947 | A run that fires none of the twelve ends with scraps to which no production applies |
| Healing.StepHeals | cweb/cweave.c:2295-2942 | On any row, unless an if clause stands at the cursor behind a preprocessor mark: every production keeps it that what applies before the cursor waits for something just ahead that will be taken, or is one of three pairs that stay apart |
| Fences.StepMends | cweb/cweave.c:2606-2682 | Every production keeps this and, as long as it holds, keeps if clauses from standing behind preprocessor marks |
| Fences.MendedEnd | cweb/cweave.c:2269-2947 | At the end of a row of which all this holds, productions apply exactly to those pairs |
| StableRows.EveryStateMends | cweb/cweave.c:2269-2942 | In every state of every run from scanned scraps all this holds |
| StableRows.EndsParted | cweb/cweave.c:2269-2947 | When `translate` ends, from any scanned scraps, the productions that still apply do so exactly at two tags, at `new` and a structure's head, and at an expression, base classes, a type and a comma or brace |
| StableRows.HarmlessIsStable | cweb/cweave.c:2269-2947 | No production applies at the end if the scanned scraps have no colon, and no structure, no left brace, or neither `new` nor `operator` |
| StableRows.StableExactlyWithout | cweb/cweave.c:2269-2947 | For every set of categories without expressions: all programs that do without them end so that no production applies, if and only if colons are among them and structures, left braces or both `new` and `operator` |
| StableRows.LabelsStayApart | cweb/cweave.c:2321-2323 | From any scanned scraps that are n labels with their colons the run ends with n tags, and production 74 applies to them if and only if there are two or more |
| StableRows.HeadStaysApart | cweb/cweave.c:2842-2867 | `new` or `operator`, a structure and a brace end as `new` and the structure's head, to which production 96 applies |
| Scanner.RowIsScanned | cweb/cweave.c:3008-3186 | Any row of the categories that the scanner makes is the row of some scanned scraps |
| LeftBehind.NineExactly | cweb/cweave.c:2295-2942 | Some iteration of production n in some run from scanned scraps leaves behind something that does not wait for an insertion, if and only if n is 7, 13, 44, 45, 46, 64, 67, 101 or 111 |
| LeftBehind.UnstableIsLeft | cweb/cweave.c:2269-2947 | A run from scanned scraps at whose end a production still applies has an iteration of one of the nine that left something behind |
| TokenRoom.CostBound | cweb/cweave.c:2295-2942 | No production appends more than its ceiling: 20 tokens, but 21 for 80, 23 for 64 and 67, 25 for 69, 28 for 55, 31 for 63 and 66 |
| TokenRoom.WrittenIsRoom | cweb/cweave.c:1994-2038 | The tokens of a production are written if and only if there is room for them, and for one more if the last part needs a switch of mode |
| TokenRoom.PastEndIsOverrun | cweb/cweave.c:2284-2287 | Under the guard of 20 a production writes past the end of the token memory if and only if it is 55, 63 or 66, costs exactly one token more than the room, and the scraps at its end need no switch |
| TokenRoom.BlockOverruns | cweb/cweave.c:2583-2586 | A production 55 that costs 25 tokens and goes past the end exactly when 24 are left |
| TokenRoom.BlockStops | cweb/cweave.c:2583-2586 | A production 55 that costs 28 tokens, and is written or stopped with the message |
| RunFate.RunMeets | cweb/cweave.c:2269-2287 | The first trouble that a run in memory meets is the first trouble of the run on values |
| ScrapEngine.Engine.FillWindow | cweb/cweave.c:2273-2279 | Moving scraps over the gap and padding keeps the live scraps, and the four categories at the cursor are the true next four padded with 0 |
| ScrapEngine.Engine.FindFirst | cweb/cweave.c:2043-2063 | Returns the place of the first identifier of a text, as the recursive search on values finds it |
| ScrapEngine.Engine.MakeReservedAt | cweb/cweave.c:2068-2087 | Visits exactly the live scraps from p on, across the gap, and changes them as the function on sequences says |
| ScrapEngine.Engine.ReduceAt | cweb/cweave.c:2143-2191 | Freezes the text built so far, replaces k scraps by one in place, closes up the low part and moves the cursor |
| ScrapEngine.Engine.SquashOne | cweb/cweave.c:2203-2236 | Changes one category in place and moves the cursor, and nothing else |
| ScrapEngine.Engine.FireAt | cweb/cweave.c:2196-2239 | Firing a production in place is firing it on the sequence of live scraps |
| ScrapEngine.Engine.Translate | cweb/cweave.c:2269-2947 | The loop in place, with the guards of the source, ends in the state `Run` if no iteration of the run meets trouble; else it ends as the first one that does: with the overflow message, or past the end of the token memory |
| ScrapEngine.Engine.Finish | cweb/cweave.c:2970-2977 | Builds exactly the finished text of the remaining scraps, if and only if more than six tokens are free behind it |
| TangleTokens.RoundTrip | cweb/ctangle.c:1185-1283 | Decoding what was encoded gives the items back if and only if no string or constant has a mark inside |
| TangleExpansion.RunChain | cweb/ctangle.c:547-589 | From the start of a text the machine emits the recursive expansion of its chain and returns to the place of use, or overflows after emitting exactly what the expansion emits before its depth runs out |
| TangleDepth.FitsUnlessDeep | cweb/ctangle.c:514-526 | The stack suffices if and only if the program does not nest one use more than there is room for |
| TangleMarkers.ChainNests | cweb/ctangle.c:552-557 | The section markers of any expansion nest with matching numbers, and a completed one closes all that it opens |
| TangleDefs.MarkersNest | cweb/ctangle.c:753-755 | The same for every name in every program the first phase can leave |
| TangleDefs.FileNestsExactly | cweb/ctangle.c:552-557 | The markers of an output file nest if and only if its name is defined or no section is left over from before |
| TangleDefs.FilesNestIffDefined | cweb/ctangle.c:654-670 | Behind the C file the markers of an output file nest if and only if its name is defined |
| TangleChains.ChainsAreDefinitions | cweb/ctangle.c:1449-1460 | A name's chain lists exactly the texts that define it, in source order; so does the unnamed chain |
| TangleChains.DefiningExactly | cweb/ctangle.c:1388-1460 | Chains increase; a text is on the chain of its own name and on no other, a macro on none |
| TangleChains.ProgramIsValid | cweb/ctangle.c:1449-1460 | Links lead forwards and stay among the C texts, so that walking a chain ends |
| TangleChains.AppendAtLast | cweb/ctangle.c:1449-1460 | Linking a text behind the last of its chain gives the links of the longer program |
| TangleChains.ChainExpands | cweb/ctangle.c:567-579 | Expansion by links equals the expansion said of the source alone: every text of a name in order between its markers, each reference replaced by its own expansion |
| TangleDefs.RunFile | cweb/ctangle.c:654-670 | A file's run emits the expansion of its name; for a name without definition it emits the closing marker of the section left over and then the unnamed program; it leaves the last section behind |
| TangleDefs.FileEndsExactly | cweb/ctangle.c:654-670 | For every program that the first phase can leave, the run of a file ends if and only if its name or the unnamed program is defined |
| TangleMain.DefinitionsFirst | cweb/ctangle.c:625-640 | If no text asks for them with `@h`, the C file holds one definition for each macro, in order, each with the macro's tokens but for a newline at the end, all before the first section marker; then comes the program from its first section on, without definitions, and a newline |
| TangleMain.ProgramFirst | cweb/ctangle.c:625-640 | If some text does, the file begins with the program |
| TangleReading.TextReadsBack | cweb/ctangle.c:547-589 | What comes out for a text without references tells its tokens, marks and line numbers included; newlines in strings come out as newlines |
| TangleReading.OtherFilesAre | cweb/ctangle.c:654-670 | There is one file for each name that was asked for, in that order; if the name is defined it is the expansion of the name and a newline |
| TangleTexts.Texts.StoreItem | cweb/ctangle.c:1205-1283 | Writes exactly the bytes of the item behind the token memory, or reports that they do not fit, and notes whether it asks for the macro definitions |
| TangleTexts.Texts.AddMacro | cweb/ctangle.c:1388-1406 | Stores a macro as a text of its own on no chain; succeeds if and only if there is room |
| TangleTexts.Texts.AddPart | cweb/ctangle.c:1436-1460 | Stores a C text behind the number of its section and puts it at the end of its name's chain; succeeds if and only if there is room |
| TangleOutput.Expander.PushLevel | cweb/ctangle.c:514-526 | Saves the state and enters the text, or overflows at the stack's end |
| TangleOutput.Expander.PopLevel | cweb/ctangle.c:531-542 | Goes on with the continuation of the text, or back to the saved state |
| TangleOutput.Expander.OutputDefs | cweb/ctangle.c:682-717 | Emits all macro definitions in source order and restores the interrupted state |
| TangleOutput.Expander.GetOutput | cweb/ctangle.c:547-589 | One call is one or more steps of the machine |
| TangleOutput.Expander.PhaseTwo | cweb/ctangle.c:609-677 | Wherever `FileEndsExactly` says that every file ends: writes the C file that `DefinitionsFirst` and `ProgramFirst` describe and the files of `OtherFilesAre`, with definitions in front unless a text of the source asks for them, or overflows if and only if an expansion needs more stack than there is |
| ChangeMerge.CheckLoopDoes | cweb/common.c:443-507 | Checking a change takes as many web lines as there are lines to match, counts those that differ, and ends at `@y`, at the end of the web file or at the end of the change file |
| ChangeMerge.ReadingMerges | cweb/common.c:542-605 | For any two files, the lines delivered, the mismatches reported and the line that waits at the end are those of the recursive merge |
| ChangeText.InputIsPortion | cweb/common.c:366-383 | One call reads up to the next newline, or as much as the buffer holds; it finds a line unless the file ends and only blanks are left of it, and complains exactly if the line is too long |
| ChangeText.LinesArePortions | cweb/common.c:366-383 | The lines of any text are the pieces between its newlines, in portions that fit, without blanks at their ends, and without the last if it is blank |
| ChangeText.LinesKeepSeen | cweb/common.c:366-383 | The lines of any text hold all its characters but blanks and newlines, in order |
| ChangeText.LinesAreTrim | cweb/common.c:366-383 | No line holds a newline, is longer than the buffer or ends in a blank |
| ChangeText.LinesCount | cweb/common.c:366-383 | If the buffer holds every line there are as many as newlines, and one more if and only if something other than blanks follows the last newline |
| ChangeFile.WrittenIsRead | cweb/common.c:388-438 | A change file written with comments, `@x`, blank lines, lines to match, `@y`, their replacement and `@z`, any number of times, is read as exactly these changes |
| ChangeRemarks.ReadingRemarks | cweb/common.c:388-605 | For any two files the complaints, in order, are those that follow from their lines alone, and there are as many about lines that are too long as lines were cut |
| ChangeRemarks.CutsOfText | cweb/common.c:366-383 | In a whole file as many lines are cut as it has more portions than pieces between newlines |
| ChangeLaws.BlocksAreProper | cweb/common.c:388-438 | Every block of a change file starts with a line that is not blank, and every block but the last has its `@y` |
| ChangeLaws.PartsAreUnique | cweb/common.c:443-507 | A web file divides in one way only into stretches and changed lines, each change at the first line equal to its first |
| ChangeLaws.MergeOfParts | cweb/common.c:673-682 | These parts say what the merge is; something waits at the end if and only if a change was left over (or a blank line was to match where the file ends) |
| ChangeLaws.CopiedLinesDiffer | cweb/common.c:461-506 | Lines copied from the web file are reported as different if and only if one after the first begins with a control code in capitals |
| ChangeLaws.CapitalExample | cweb/common.c:461-506 | A change file with `@D` that is applied and reported |
| ChangeLines.LinesAreGenuine | cweb/common.c:542-605 | A delivered line is the line of its file that the counter tells, or an empty line delivered by the very call in which the change file ended before `@y`; if it does not follow the one before, print_where was raised |
| ChangeLines.EveryLineIsGenuine | cweb/common.c:512-605 | The same for every line of every run from `reset_input` on |
| ChangeLoss.LostExactly | cweb/common.c:443-507 | For any two files, some call delivers an empty line in place of a web line if and only if a block that the merge applies whole has no `@y`, the change file does not end inside a line, and the last web line it matches is not empty |
| ChangeLoss.LossExample | cweb/common.c:443-507 | Two files of one and two lines for which that happens |
| ChangeLoss.CompleteLosesNothing | cweb/common.c:443-507 | It does not happen if every block has its `@y` or the change file ends inside a line |
| ChangeEngine.Engine.InputLine | cweb/common.c:366-383 | Reads a line without trailing blanks, splits one that is too long, and tells the end of the file |
| ChangeEngine.Engine.LinesDiffer | cweb/common.c:56-58 | True if and only if the line and the change line differ |
| ChangeEngine.Engine.PrimeBuffer | cweb/common.c:388-438 | Finds the next change block |
| ChangeEngine.Engine.CheckChange | cweb/common.c:443-507 | The loop over the lines to match, in place |
| ChangeEngine.Engine.FromWebFile | cweb/common.c:580-598 | The comparison of lengths and first characters misses no match |
| ChangeEngine.Engine.NextLine | cweb/common.c:542-605 | The next line, as the function on values says |
| ChangeEngine.Engine.Complete | cweb/common.c:673-682 | Complains if and only if a line still waits for a match |
| ChangeEngine.ReadAll | cweb/common.c:512-682 | Reading everything delivers the merge, and complains at the end if and only if something waits |
| SectionNames.CompareMeans | cweb/common.c:798-809 | What each verdict of `web_strcmp` says of the two strings |
| SectionNames.ChunksAreText | cweb/common.c:962-991 | Comparing piece by piece gives the verdict of one comparison with the whole name and its completeness, and finds where the rest of the query begins |
| SectionTree.PrefixesIncomparable | cweb/common.c:884-906 | In a sorted tree no stored prefix begins another |
| SectionTree.InsertSorted | cweb/common.c:914-916 | Inserting a name that matches no prefix keeps the order |
| SectionTree.ShortenSorted | cweb/common.c:932-933 | Shortening a prefix to a query that matches no other keeps the order |
| SectionTree.RealizesInsert | cweb/common.c:836-840 | Linking the new node where the search ended is inserting it |
| SectionDictionary.LookedKeeps | cweb/common.c:869-957 | Every lookup keeps prefixes pairwise incomparable, and beginnings of their names |
| SectionDictionary.LongerText | cweb/common.c:869-957 | After a lookup without complaint the text is the longer of the old one and the query, a complete query is the complete name, and other names are as before |
| SectionDictionary.ComplaintExactly | cweb/common.c:922-955 | A lookup complains of an ambiguous prefix if and only if two or more names match; of a prefix, if and only if a complete query is a proper beginning of the one that does; of an extension, if and only if that name is complete and a proper beginning of the query; of an incompatible name, if and only if neither begins the other. Then nothing changes; else text, completeness and prefix are as told |
| SectionDictionary.LookAgain | cweb/common.c:869-957 | Looking a name up again finds the same name, changes nothing and raises no complaint |
| NameMeaning.StoredIsProper | cweb/common.c:814-840 | The names in memory are always a dictionary of this kind |
| NameTable.Directory.CompareAt | cweb/common.c:798-809 | Compares part of the query with bytes in memory |
| NameTable.Directory.Search | cweb/common.c:884-906 | Finds the one name whose prefix is comparable with the query, the place of a new name if there is none, or that there are two or more |
| NameTable.Directory.CompareName | cweb/common.c:962-991 | The walk over the pieces in memory gives the verdict |
| NameTable.Directory.AddSection | cweb/common.c:814-840 | Adds exactly the new name, if and only if there is room |
| NameTable.Directory.ExtendName | cweb/common.c:845-864 | Lengthens exactly that name, if and only if there is room |
| NameTable.Directory.SectionLookup | cweb/common.c:869-957 | Does to the names what the dictionary says of a lookup, and leaves the identifiers alone |
| NameTable.Directory.PrintSection | cweb/common.c:762-780 | Returns the whole text of the name |
| NameTable.Directory.IdLookup | cweb/common.c:687-736 | Returns the identifier that is spelled so, or adds it; other identifiers and all section names are as before |
| NameTable.Directory.IdsAreDistinct | cweb/common.c:712-717 | Whatever the memory holds, no two identifiers in it are spelled the same |
| IdTable.AddIdOk | cweb/common.c:712-717 | A new identifier is on the chain of its hash and on no other |
| IdTable.SameEntryIffSameText | cweb/common.c:687-736 | In any history of lookups of identifiers and of section names, two lookups of identifiers give the same entry if and only if the texts are the same |
| IndexOrder.CollateRank | cweb/cweave.c:888-911 | The collating table has a place for every folded character but 127 |
| IndexOrder.IndexIsSorted | cweb/cweave.c:4002-4104 | The index is ordered by folded characters with end of name first (as far as 255 characters tell), has no name twice, and has a name if and only if 127 does not stand first in it or where another name agrees so far |
| IndexOrder.DeleteExample | cweb/cweave.c:888-911 | A name with 127 that is in the index alone, but not beside a name that agrees with it so far |
| IndexOrder.NothingLost | cweb/cweave.c:4002-4104 | Without that character the index is a permutation of the names |
| IndexAlphabet.IndexIsAlphabetic | cweb/cweave.c:888-911 | Of two names in the index that differ in lower case within 255 characters, the first to end or to have the character of the earlier kind stands first: blank, control characters, punctuation by code, `_`, letters, digits, characters from 128 on |
| IndexAlphabet.LettersInOrder | cweb/cweave.c:888-911 | Names of letters stand in the order of dictionaries, whatever their cases |
| IndexSort.StackHeight | cweb/cweave.c:4145-4153 | The stack never holds more lists than there are names |
| IndexSort.Sorter.Deal | cweb/cweave.c:4083-4099 | Distributes a linked list into the buckets and touches no other list |
| IndexSort.Sorter.Unbucket | cweb/cweave.c:4138-4154 | Puts the nonempty buckets on the stack, first in the index on top, and empties them, if and only if there is room |
| IndexSort.Sorter.Sort | cweb/cweave.c:3979-4104 | Ends with exactly the index, unless the stack overflows; that it does if and only if for some name the nonempty buckets after its own, at all depths together, and the one that holds it are at least as many as the entries; it takes more names than entries |
| XrefLists.NewXrefKeeps | cweb/cweave.c:1009-1026 | As sections go by, an identifier's list decreases, has one entry a section, and a definition absorbs a use |
| XrefLists.NewSectionXrefKeeps | cweb/cweave.c:1031-1045 | A section name's list stays the file flag, then increasing definitions, citations and uses, without duplicates |
| XrefLists.SetFileFlagKeeps | cweb/cweave.c:1050-1060 | So it does when the file flag is set |
| XrefLists.UnderlineRecorded | cweb/cweave.c:2107-2125 | A recorded reference becomes a definition and nothing else changes |
| XrefLists.UnderlineUnrecorded | cweb/cweave.c:2115-2133 | One that was not recorded goes to its place if and only if no use in an earlier section precedes the first definition in one |
| XrefLists.UnderlineExample | cweb/cweave.c:2115-2133 | A list of one use that an unrecorded definition puts out of order |
| XrefLists.UseAfterCitation | cweb/cweave.c:1037-1042 | A use after a citation is recorded as a use if and only if the citation was new in its section |
| XrefMemory.Memory.NewXref | cweb/cweave.c:1009-1026 | Changes exactly that identifier's list so, unless nothing is to be recorded, and tells what is left of `xref_switch` |
| XrefMemory.Memory.NewSectionXref | cweb/cweave.c:1031-1045 | Changes exactly that section name's list so, and tells the new switch |
| XrefMemory.Memory.SetFileFlag | cweb/cweave.c:1050-1060 | Puts the flag in front unless it is there |
| XrefMemory.Memory.UnderlineXref | cweb/cweave.c:2107-2138 | Moving the numbers up is inserting the entry where the walk stops |
| LineBreaker.BreakShortens | cweb/cweave.c:1749-1775 | Breaking shortens the buffer if and only if it is not stuck |
| LineBreaker.StuckLine | cweb/cweave.c:1712-1716 | A buffer that begins with `%\` and has no other place to break is stuck |
| LineBreaker.StuckStays | cweb/cweave.c:1712-1716 | Breaking a stuck buffer writes a line with only `%` and leaves the buffer as it is |
| LineBreaker.BlankIsLost | cweb/cweave.c:1706-1711 | A line broken at a blank ends in a backslash if and only if only blanks stand between one and the place of the break |
| LineBreaker.BlankExample | cweb/cweave.c:1706-1711 | A buffer whose first line ends in a backslash without its blank |
| LineBreaker.BreakOutKeeps | cweb/cweave.c:1749-1775 | The line fits; without `%` nothing but the blanks at its end is lost; only a forced break can come between a backslash and a character that is kept |
| LineBreaker.OutAllKeeps | cweb/cweave.c:1739-1744 | Any stream without `%` comes out whole in lines of at most 80 characters |
| LineBreaker.BreakIsLast | cweb/cweave.c:1755-1775 | A line is broken at the last blank or backslash where that is allowed, and is forced only if there is none |
| LineReading.ReadAsPutOut | cweb/cweave.c:1701-1775 | TeX reads the lines and the buffer as the text that was put out, with one blank for every run of them, if and only if no line is empty or has a backslash before the `%` at its end; for all text without `%` |
| LineReading.ReadExactly | cweb/cweave.c:1701-1775 | Text without two blanks or 79 backslashes in a row is read as it is, character by character |
| LineReading.PutOut | cweb/cweave.c:1739-1744 | So are the lines that a fresh buffer has written in place |
| LineComments.CommentsStayComments | cweb/cweave.c:1710-1717 | Of a text with a comment, what stands before it is read exactly, and nothing of the comment, wherever the lines are broken |
| LineBreaker.Buffer.FlushBuffer | cweb/cweave.c:1701-1719 | Writes the line and moves the rest of the buffer down in place |
| LineBreaker.Buffer.BreakLine | cweb/cweave.c:1749-1775 | Breaks in place where the function on values does |
| LineBreaker.Buffer.PutChar | cweb/cweave.c:183 | The macro `out`; the character goes beyond the buffer if and only if the buffer is full and stuck |
| LineBreaker.Buffer.OutStr | cweb/cweave.c:1739-1744 | A whole text without `%` is put out character by character |
| LineBreaker.FinishFlushes | cweb/cweave.c:1724-1737 | The end of an input line empties the buffer, without carrying a comment over; nothing but blanks at the end is dropped |
| LineBreaker.Buffer.FinishLine | cweb/cweave.c:1724-1737 | Writes exactly one line, the buffer without blanks at its end; from an empty buffer only for a blank input line |

## Left out

- The character scanners of both programs (`get_next`, `skip_TeX`, `copy_TeX`, `scan_repl` below tokens): the model starts from scraps, from tokens and, for the change file, from the characters of the files.
- Files, include files and their search paths, command-line options, terminal messages other than the complaints named in the models, statistics.
- `make_output` and the spelling of CWEAVE's TeX macros; `out_char`'s spelling of operators and of translated characters (events stand for them).
- `make_underlined` and `app_scrap` inside the parser; the cross-reference they make is `XrefMemory.Memory.UnderlineXref`.
- TangleTexts.Texts.AddPart: section numbers from 12288 on, which the source lets wrap around in sixteen bits, are excluded; the array of text starts has the one slot more that the source writes to.
- TangleOutput.Expander.OutputDefs: a macro whose text asks for the macro definitions stops CTANGLE with a message; such macros are excluded.
- TangleTexts.Texts.StoreItem: `@h` outside the texts of macros and sections, which CTANGLE reports as improper, also counts for `output_defs_seen` there.
- ChangeEngine.Engine.NextLine: one web file, no `@i`; the marks for changed sections (`changed_section`, `change_pending`) are not kept.
- NameTable.Directory.SectionLookup: characters are compared as unsigned, where the source compares `char`; queries are as the scanner makes them (a complete name does not end in a blank, a prefix is not empty). Wordings of complaints and the `equiv` and `xref` fields of names are not part of this model.
- NameTable.Directory.IdLookup: CTANGLE's `names_match`; CWEAVE's, which also compares categories, is not modelled.
- IndexSort.Sorter.Sort: the names come as the list in which the hash table yields those with references.
