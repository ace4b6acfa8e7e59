# LuaPP: static checks, control flow, scoping and values, verified

LuaPP is a tree-walking interpreter for Lua. Before a run, `SyntacticAnalyzer` walks the parse tree: it
checks `break`, `goto` and labels, and prepares tables. `Interpreter` then runs the tree with three stacks
(`_blocks`, `_local_values`, `_functions`), two hand-off flags, and C++ exceptions for `break`, `goto` and
`return`. This project models that machinery and proves what holds in every run, then five smaller pieces of
the value layer.

Conditions, values, iteration counts and the functions an expression calls are nondeterministic, so a
contract of the interpreter speaks about every run. Call depth is bounded by a parameter (`Overflow` when it
is reached); every bound is covered, and loops are not bounded.

## Main results

- **Static and dynamic checks together** (`Program.Interpret`). In every run of an accepted program whose
  breaks have an enclosing loop in their own function, no break and no goto leaves a function or the
  program. Every run ends in a way that the text of the program allows, in which a goto is caught by the
  innermost enclosing block of its function that directly holds the label.
- **What every run does** (`Traces`). A block that is visited runs its statements in their order, each from the memory
  that the one before it left, with jumps only behind the target of a goto whose label the block holds; a statement
  runs exactly once in a visit that ends normally, or it is jumped over (`RunsOrIsSkipped`). Every statement has its
  effect: a `local` declares its names, a function statement makes the closure of its own parameters and body and
  binds its name to a new cell, a `do` and an `if` run the block they should, a loop runs its body in the order of
  evaluation, body and condition that its kind demands, and a call gives the parameters new cells and runs the body of
  the function that is called. Every run of the interpreter that ends without an error is such a run
  (`VisitBlock`, `VisitStat`, `CallFunction`), whether there are leftovers on the stack or not.
- **Cells.** Different names that are bound together get different cells, and no new cell is in use anywhere: all
  cells of locals, closures and globals stay below the next one in every run (`BindNames`, `EnterCall`,
  `NewCellsAreUnused`).
- **The loop variable.** The first visit of the body of a numeric `for` finds exactly its variable, in a new cell. A
  later visit finds exactly this variable with this cell if and only if no statement of an iteration took it away:
  a caught break, a goto caught from a nested block, or a declaration of the name (`LoopVariable`). So it always does
  if no statement of the body itself can do that (`Steady`, `SteadyVariable`, `ProcessForLoop`).
  `InnerBreakLosesVariable` and `RedeclarationLosesVariable` are bodies that lose it.
- **What every run keeps** (`Loose`). Every statement, block and call leaves the stack below it, the frames and
  the running functions as they were, however it ends. There is one frame more than running functions.
- **Stack discipline.** As long as no return was caught in the wrong place in an activation (`misplaced`), a block,
  statement or call that completes in it restores `_blocks` exactly, an abrupt end leaves the old stack followed
  only by blocks nested in its top, every catcher restores it, the stores of the frame belong only to active
  blocks, "Unbalanced blocks" is never thrown, and the block that catches a goto is on the stack where it should
  be. A return is caught correctly exactly when the calling block is not open again in the callee (`CallReturns`,
  `CutRestores`), so the first wrong one needs a function called from one of its own blocks. Every activation
  starts without leftovers, and a call that restores the stack leaves the caller as it was.
- **Recursion.** `Recursion` follows the stack in every run until it throws. A return restores the whole state of the
  caller exactly when the calling block is not on the stack above it, a normal end exactly when nothing but the
  callee's block is (`OutermostCallRestores`); so a return does if no function of the caller is entered meanwhile
  (`CallerNotReentered`). `ReenteredCaller` is a run where it does not. As long as no function ends on leftovers
  that do not end with its caller's block, no end of a block throws (`NeverUnbalanced`); after such an end, the end
  of the caller's block throws (`UnbalancedExactly`), the program's own block included (`SelfCallUnbalances`).
  `LeftoversArise` says which events make leftovers, and `OtherFunctionSeesLeftovers` that a caller of
  another function is always affected.
- **The fate of locals.** Every statement keeps all locals of its block that it does not declare, except a loop
  that was ended by a caught break. That is every `for in` that ends normally, and the other loops exactly when
  a break was caught; they lose all locals of the block (`Fate`, `LocalsSurvive`, `ForInErasesLocals`). A goto
  caught from a nested block erases them too, one that stands in the block itself does not (`CatchGoto`).
- **A stack-free semantics.** `Flow.BlockCan` says how a block can end, from the text of the program alone:
  statements in order, caught gotos, loops that consume breaks. Every run of the stack machine ends in one of
  these ways (`RanCan`), and these ways respect the static notions of escaping gotos and free breaks.
- **The validator is exact, on the text.** A program is accepted exactly when no break stands outside all loops, no
  block holds a label twice, and every goto has its label before it in a block around it, or ahead with no declaration
  between the goto and the nearest one (`Launch`, `TextLegal`); otherwise the verdict names such a place of the text,
  and the names that are crossed are those declared there, in their order (`RejectedText`). `TreeRules` derives this
  from the lists that the analyser builds, statement by statement (`LocalsListed`, `TextAgrees`). An accepted goto
  has a visible label that brings no new local into scope. The label that *catches* it does so too, except for one
  exactly described family (`FunctionGotosEnterNoLocal`, `HiddenLocalIsEntered`).
- **The listener builds a forest** of disjoint functions, and tables that are right for every block.
- **Names.** A lookup finds a local whenever the activation has one. It is the local of the innermost active
  block that holds the name exactly when the index of the current block lists that block again behind what it
  inherited, which a `local` of the block does, or no other active block holds the name (`LookupName`,
  `FindsInnermost`); so it always is in programs where no `for` variable hides a visible local of its function.
  `ForVariableHidden` is a program where it is not.
- **Closures.** In a later call, a name that is not local there stands for a cell of the closure exactly when it
  was a local where the function was made, and then for that very cell (`ClosureResolves`). Names the maker
  itself found in its own closure are lost (`NestedClosureLosesName`), and a `local function` does not find
  itself (`LocalFunctionMissesItself`).
- **Values.** Reference counts never let a held cell be freed; multiple assignment is simultaneous;
  declarations are too exactly when no expression reads a name declared before it; the numeric `for` runs its
  computed number of times whatever the body writes; seven maps refine one; curried calls; floor division
  through doubles.

## Files

| file | content |
|---|---|
| `Helpers.dfy` | options, the range of an `int` |
| `Syntax.dfy` | parse tree: blocks, statements, their nested blocks and function bodies |
| `Scoping.dfy` | the index and the scope chain |
| `Control.dfy`, `Steps.dfy` | stacks, outcomes, the invariants of a run and how each step keeps them |
| `Recursion.dfy` | the stack of blocks when functions call themselves |
| `Flow.dfy` | the ends that the text of a program allows, without stacks |
| `Traces.dfy` | what runs, in which order and with which effect on locals, function values and globals |
| `Interpreter.dfy` | the interpreter as a class |
| `Scopes.dfy`, `Tabling.dfy`, `Forest.dfy` | what the listener builds, and its shape |
| `GotoRules.dfy` | the validator and the meaning of its verdicts |
| `TreeRules.dfy` | the rules for gotos and labels on the parse tree, and that the lists say the same |
| `Analyzer.dfy` | the listener as a class |
| `Program.dfy` | analysis and run together |
| `Lifetime.dfy`, `Assignment.dfy`, `NumericFor.dfy`, `Tables.dfy`, `Curried.dfy`, `FloorDivision.dfy` | cells and values |

`dafny verify dfyconfig.toml` checks everything.

## Where the code differs from its documentation

The model follows the code.

- `function f` statements count as locals for a goto, and there is no exemption for labels at the end of a
  block (section 3.3.4 of the Lua 5.3 Reference Manual has both the other way).
- A break is accepted inside a function body when the function is defined inside a loop
  (`BreakOutOfFunctionPasses`).
- A caught break, or a goto caught from a nested block, also erases the locals of the block it returns to. A
  `for in` ends by a break of its own, so it always erases the locals around it when it ends normally.
- The variable of a numeric `for` is lost when a break is caught in the body, since this erases the locals of the
  body (`for i = 0, 10 do while true do break end; print(i) end`), and replaced when the body declares the same
  name without a value for it.
- A function made inside another one captures the locals of its maker only, not what the maker has captured.
- The search for the target of a caught goto goes forward only and compares the bare name with the text of
  the label statement, colons included. So it finds nothing, and the rest of the block is skipped up to its
  return statement (`TargetIsNeverFound`).
- `local a, b = b, a` over existing locals of the same block does not swap (`SwapInADeclarationFails`).
- A table keeps integers and doubles apart as keys, and `#t` counts integer entries that hold nil.
- `//` rounds down but `%` truncates, so they fit together only as `DivisionLaw` says.
- A host function without parameters can never be called.
- A numeric `for` whose step is not positive does not count downwards.

## Model

| member | source | states |
|---|---|---|
| `Program.Interpret` | interpreter.cpp:61-127 | a program with enclosed breaks runs iff its text is legal; every run ends normally, by a return, or in an error; unless it ends in an error it is a run of the text from an empty memory, in order and with the effect of every statement, and never in a goto or a break; "Unbalanced blocks" needs a function called from one of its own blocks; every logged goto satisfies `JumpOk`; no function can end with a goto or a break |
| `Program.NothingLeaves` | interpreter.cpp:91-106 | no function of an accepted program with enclosed breaks can end with a goto or a break, without looking at any stack |
| `Program.Launch` | syntactic_analyzer.cpp:166-177 | for every program: lonely break iff the walk meets a break outside all loops; accepted iff, moreover, every goto and label of every function is legal by the text; a rejection names a goto or a label of the text and its reason; after acceptance the tables are right and no goto leaves its function |
| `Interpretation.Interpreter.VisitChunk` | interpreter.cpp:61-69 | a program is run statement by statement from an empty memory; it ends without a pending goto or break, with one frame and no function; normally with an empty stack unless there are leftovers |
| `Interpretation.Interpreter.VisitBlock` | interpreter.cpp:71-127 | in every run that is no error the statements of the block were run in order and with their effects (`Visited`), the stack below, frames and functions are kept and the end is one that `BlockCan` allows; without leftovers, a normal end restores the stack exactly (a `for` body stays), an abrupt end leaves base, block, then blocks nested in it, only blocks on the stack hold locals, an escaping goto has no label on the way, and it is never unbalanced |
| `Interpretation.Interpreter.PushBlock` | interpreter.cpp:72-80 | the block is pushed unless a call or a `for` has done so |
| `Interpretation.Interpreter.PopBlock` | interpreter.cpp:114-124 | throws iff another block is on top; otherwise the block is erased and popped unless it is the body of a `for` |
| `Interpretation.Interpreter.RunStats` | interpreter.cpp:84-112 | the statements run in order, each from the memory the one before it left, with jumps only behind the target of a caught goto; the position invariant is kept, and a goto gets out only if the block does not hold its label |
| `Interpretation.Interpreter.RunNext` | interpreter.cpp:84-112 | the block goes on behind the statement, or behind the target of a goto whose label it holds, and otherwise ends as the statement did |
| `Interpretation.Interpreter.RunStat` | interpreter.cpp:85-90 | one statement: it has had its effect (`StatRan`), its end is one that `StatCan` allows, everything below the block is kept, and the locals of the block are kept unless a break was caught |
| `Interpretation.Interpreter.CatchGoto` | interpreter.cpp:90-106 | the block keeps a goto iff it holds the label, records the jump, and the stack stands at the block again; its locals are kept iff the goto stands in the block itself, and lost otherwise |
| `Interpretation.Interpreter.FindLabel` | interpreter.cpp:93-102 | finds the target of the reference semantics |
| `Interpretation.Interpreter.VisitStat` | interpreter.cpp:129-170 | the effect of any statement on locals, function values, globals and cells, and the blocks it visits (`StatRan`), on stacks, frames and stores; names it does not declare keep their cells, unless it is a loop ended by a caught break, which loses them all; its end is one that `StatCan` allows, so a break, goto or return is raised as such |
| `Interpretation.Interpreter.EvalExp` | interpreter.cpp:1450-1506 | whatever an expression looks up, defines or calls, the stacks are as before, up to leftovers |
| `Interpretation.Interpreter.CallFunction` | interpreter.cpp:1450-1506 | the body of the function was run, with its parameters in new cells (`Called`); no goto or break leaves a call, returns are caught, frames and functions are restored and the stack is still there; without new leftovers all stacks are restored |
| `Interpretation.Interpreter.EndCall` | interpreter.cpp:1492-1505 | the frames, functions and activations of the caller are back; if its own stack is not, the callee had leftovers or the caller's block belongs to it |
| `Interpretation.Interpreter.EnterCall` | interpreter.cpp:1455-1490 | pushes block, frame and function; the new frame holds the parameters only, different ones in different cells, none of which is in use anywhere; the activation starts without leftovers |
| `Interpretation.Interpreter.RunFunction` | interpreter.cpp:1455-1494 | enters a function and visits its body, from a memory in which only its parameters are local |
| `Interpretation.Interpreter.BindNames` | interpreter.cpp:1466-1479 | every name gets a new cell, different names different ones; other names, stores and frames are unchanged |
| `Interpretation.Interpreter.LeaveCall` | interpreter.cpp:1492-1505 | cuts the stack after a return and pops frame and function |
| `Interpretation.Interpreter.StabilizeBlocks` | interpreter.cpp:1410-1426 | cuts at the topmost occurrence and erases from there, the target block included |
| `Interpretation.Interpreter.FindBlock` | interpreter.cpp:1412-1415 | the downward search ends at the last occurrence |
| `Interpretation.Interpreter.EraseFrom` | interpreter.cpp:1417-1419 | exactly the stores of the blocks from a position on are erased |
| `Interpretation.Interpreter.EraseBlock` | interpreter.cpp:1428-1431 | one store of the current frame is erased, all else kept |
| `Interpretation.Interpreter.LookupName` | interpreter.cpp:1352-1392 | result is the last holder in the index, then closure, then global; without leftovers a local iff the activation has one; the innermost holder iff `FindsInnermost` for this name at this position, and always in plain programs |
| `Interpretation.Interpreter.VisitVar` | interpreter.cpp:594-617 | the cell a name stands for; a name that stands for nothing becomes a global with a new cell if it is a target, and nothing changes if it is read |
| `Interpretation.Interpreter.ScanStores` | interpreter.cpp:1358-1366 | a scan without early exit finds the last holder |
| `Interpretation.Interpreter.CloseFunction` | interpreter.cpp:1440-1448 | succeeds iff no name is held by two of the listed blocks; then captures for each visible local the cell a scope walk finds |
| `Interpretation.Interpreter.CloseOver` | types.cpp:80-87 | fails iff a name is already captured, otherwise adds the whole store |
| `Interpretation.Interpreter.DefineFunction` | interpreter.cpp:1338-1345 | a function value records its captured cells and may be called later |
| `Interpretation.Interpreter.ProcessIf` | interpreter.cpp:1043-1061 | ends as one of its branches, or normally if there is no else; stack restored or extended only by its own blocks |
| `Interpretation.Interpreter.ProcessWhile` | interpreter.cpp:1021-1030 | a break ends the loop with the stack at its block and the locals of the block lost; otherwise they are kept; other exits pass |
| `Interpretation.Interpreter.ProcessRepeat` | interpreter.cpp:1032-1041 | the same for `repeat` |
| `Interpretation.Interpreter.RunLoopBody` | interpreter.cpp:1024-1029 | an iteration of a `while` or a `repeat`: a break ends the loop, other exits pass |
| `Interpretation.Interpreter.ProcessForLoop` | interpreter.cpp:1182-1267 | the same for the numeric `for`, whose body is pushed once for all iterations; its first visit finds the variable alone in a new cell, every later one what the iteration before left of it (`LoopRan`), and if the body is `Steady` all visits find exactly the variable with the same cell |
| `Interpretation.Interpreter.RunForLoop` | interpreter.cpp:1220-1264 | the same for the iterations |
| `Interpretation.Interpreter.EnterForLoop` | interpreter.cpp:1185-1220 | pushes the body on top of the old stack; its store holds the loop variable and nothing else, and no other store has changed |
| `Interpretation.Interpreter.RunForBody` | interpreter.cpp:1225-1242 | the body is visited from the memory as it is; an iteration leaves it on the stack with exactly the cells that the names to keep had at its end, or ends the loop; the locals around the loop are lost iff a break was caught |
| `Interpretation.Interpreter.EndIteration` | interpreter.cpp:1232-1242 | the store of the body keeps exactly the loop variable, with its cell |
| `Interpretation.Interpreter.KeepNames` | interpreter.cpp:1232-1242 | the store is restricted to the names, whose cells are unchanged |
| `Interpretation.Interpreter.BindCounter` | interpreter.cpp:1195-1198 | the variable is in the store of the body, in a new cell, when the step is evaluated |
| `Interpretation.Interpreter.LeaveForLoop` | interpreter.cpp:1263-1264 | the body is popped and erased, and the locals around the loop are kept |
| `Interpretation.Interpreter.ProcessForIn` | interpreter.cpp:1112-1180 | in each iteration the iterator is called, every name gets a cell of its own, and the body is visited; the end of the loop, raised as a break after a last call, restores the stack and always loses the locals of the enclosing block |
| `Interpretation.Interpreter.NextForIn` | interpreter.cpp:1133-1166 | after the call of the iterator, the names have new cells, different ones for different names |
| `Interpretation.Interpreter.FinishForIn` | interpreter.cpp:1132-1137 | after the last call of the iterator the loop ends as if by a break |
| `Interpretation.Interpreter.EndForIn` | interpreter.cpp:1177-1179 | the catch of the raised end restores the stack and empties the block's store |
| `Interpretation.Interpreter.CatchBreak` | interpreter.cpp:1027-1029 | catching a break restores the stack of the loop's block and empties the block's store |
| `Interpretation.Interpreter.ProcessLocalVariables` | interpreter.cpp:1273-1336 | after its expressions, the store of the block is that of a `Declaration` of the names; all other names and stores are unchanged |
| `Interpretation.Interpreter.DeclareNames` | interpreter.cpp:1283-1335 | the store afterwards is that of `Declaration`: names with a value keep their cell, the others get a new one |
| `Interpretation.Interpreter.ProcessLocalFunction` | interpreter.cpp:1338-1345 | the closure of the statement's own parameters and body captures the locals as they were before its name was bound to a new cell, and nothing else changes; an error iff a name is held twice |
| `Interpretation.Interpreter.ProcessFunction` | interpreter.cpp:1269-1271 | stacks and stores are unchanged; the closure of the statement's own parameters and body captures the locals of the place, and the global name gets a new cell; an error iff a name is held twice |
| `Flow.TargetIsNeverFound` | interpreter.cpp:93-102 | for every name that does not begin with a colon, the search runs to the end of the block |
| `Flow.BlockEndsAreStatic` | interpreter.cpp:84-112 | a goto that can end a block is one no block on the way up holds, and a break one that no loop encloses |
| `Flow.StatEndsAreStatic` | interpreter.cpp:129-170 | the same for a statement |
| `Traces.RanCan` | interpreter.cpp:84-112 | a block that was run, statement by statement, has ended in a way that the stack-free semantics allows |
| `Traces.StatRanCan` | interpreter.cpp:129-170 | the same for a statement |
| `Traces.SkippedDoNotRun` | interpreter.cpp:90-106 | statements run in their order and at most once in a visit, and none that a caught goto jumps over |
| `Traces.RunsOrIsSkipped` | interpreter.cpp:84-106 | in a visit that ends normally a statement runs exactly once iff no caught goto jumps over it |
| `Traces.CaughtGotoSkipsTheRest` | interpreter.cpp:93-102 | after a caught goto nothing but the return statement runs, for every name that does not begin with a colon |
| `Traces.StatGrows` | interpreter.cpp:129-170 | no statement takes back a function value, a global or a cell |
| `Traces.BrokeBreaks` | interpreter.cpp:1027-1029 | a loop is ended by a break only if its body can end with one |
| `Traces.VisitKeeps` | interpreter.cpp:84-112 | a local has its old cell after a visit iff it had it before and no statement took it away |
| `Traces.LoopVariable` | interpreter.cpp:1195-1242 | the first visit of the body of a numeric `for` finds its variable alone in a new cell, a later one exactly this variable with this cell iff no statement of an iteration took it away |
| `Traces.SteadyVariable` | interpreter.cpp:1227-1242 | so it does in every visit if no statement of the body can take it away |
| `Traces.InnerBreakLosesVariable` | interpreter.cpp:1027-1029 | a body that loses the variable by a break that is caught in it |
| `Traces.RedeclarationLosesVariable` | interpreter.cpp:1331-1334 | a body that replaces the variable by a declaration |
| `Traces.BoundStore` | interpreter.cpp:1466-1479 | names that are bound together get new cells, different names different ones, and other names keep theirs |
| `Scoping.DeclarationMeaning` | interpreter.cpp:1283-1334 | by its last occurrence, a declared name without a value gets a new cell, one with a value keeps the cell it may have |
| `Control.NewCellsAreUnused` | interpreter.cpp:1466-1479 | a cell that is allocated now is that of no local of a running function, no name of a closure and no global |
| `Control.CutRestores` | interpreter.cpp:1410-1426 | cutting restores the old stack iff its top does not occur again above it |
| `Control.SelfCallLeavesABlock` | interpreter.cpp:1500-1501 | a well-formed function whose inner call returns from a nested block leaves one block too many, and its normal end leaves a foreign block on top for its caller |
| `Control.CallReturns` | interpreter.cpp:1492-1505 | the stacks after a call equal those before iff it ended normally or the calling block is not open in the callee |
| `Control.CatchRestores` | interpreter.cpp:1410-1426 | a catcher whose block is not among the abandoned ones restores the stack; nothing changes if there are none, and otherwise its store is emptied |
| `Control.LocalsSurvive` | interpreter.cpp:1410-1426 | the locals of a block survive a loop that ends normally iff it was not ended by a caught break, or there were none |
| `Control.ForInErasesLocals` | interpreter.cpp:1177-1179 | a program whose local is gone after a `for in` |
| `Recursion.CutIsStabilized` | interpreter.cpp:1410-1426 | the cut of this module is the one of the interpreter |
| `Recursion.ReturnIsEnded` | interpreter.cpp:1497-1505 | a return of this module does to the stack what the end of a call does in the interpreter |
| `Recursion.StepHeld` | interpreter.cpp:1410-1506 | every event that does not throw keeps one segment per activation in which everything in progress stands in order, and changes the segments as `Segments` says |
| `Recursion.RunsHeld` | interpreter.cpp:1410-1506 | the same for every run, and the activations below are as before |
| `Recursion.OutermostCallRestores` | interpreter.cpp:1450-1506 | in every run, whatever was left over: the stack at a call stays below; a return restores the whole state iff the calling block is not on the stack above it, a normal end iff only the callee's block is |
| `Recursion.CallerNotReentered` | interpreter.cpp:1497-1505 | a return restores the state of the caller if no function of the caller is called meanwhile |
| `Recursion.ReenteredCaller` | interpreter.cpp:1497-1505 | a run in which an outer return leaves seven blocks instead of three |
| `Recursion.StepSound` | interpreter.cpp:1410-1506 | every event but an end on leftovers keeps all segments in good order and never throws |
| `Recursion.RunsSound` | interpreter.cpp:1410-1506 | the same for every run |
| `Recursion.NeverUnbalanced` | interpreter.cpp:118-120 | without an end on leftovers no end of a block finds the stack unbalanced |
| `Recursion.UnbalancedExactly` | interpreter.cpp:118-120 | the next end of a block, the program's own included, throws iff the event before it was an end on leftovers |
| `Recursion.LeftoversArise` | interpreter.cpp:1492-1505 | a caller has leftovers after a return iff it had some or its block was on the stack above it, after a normal end iff it or the callee had some; no other event changes this |
| `Recursion.OtherFunctionSeesLeftovers` | interpreter.cpp:118-120 | a function called by another one ends on leftovers iff it has any |
| `Recursion.SelfCallUnbalances` | interpreter.cpp:118-120 | a self-calling function called by the program, after which the end of the program throws |
| `Control.CapturedIsLastHolder` | interpreter.cpp:1440-1448 | what is captured is what the innermost holder has |
| `Control.CapturedByChain` | syntactic_analyzer.cpp:141-143 | closing over all listed parents equals closing over the active blocks of the function |
| `Control.ClosureResolves` | interpreter.cpp:1371-1376 | in a later activation a name that is not local resolves to the closure iff it was local where the function was made, and then to the very cell it had |
| `Control.NestedClosureLosesName` | interpreter.cpp:1440-1448 | a program whose inner function does not find a name its maker found in its own closure |
| `Control.LocalFunctionMissesItself` | interpreter.cpp:1338-1345 | a `local function` finds its name in its closure iff an active block held that name before |
| `Scoping.IndexAgreesWithScopeChain` | interpreter.cpp:1352-1368 | index scan and scope walk find the same block |
| `Scoping.ForVariableFound` | syntactic_analyzer.cpp:42-46 | where the body of a `for` is entered, its variable is found iff no block listed for the name at the loop holds it |
| `Scoping.IndexFindsInnermost` | syntactic_analyzer.cpp:33-50 | in any program, the scan of a block's index finds the innermost active holder iff that block appended the name behind what it inherited, or is the only holder |
| `Scoping.ScanFindsInnermost` | interpreter.cpp:1358-1366 | the same for a layered list of entries |
| `Scoping.EnteredLayers` | syntactic_analyzer.cpp:36-49 | entering a block puts its own `for` variables or parameters in front of what it inherits |
| `Scoping.AppendKeepsLayers` | syntactic_analyzer.cpp:89-100 | `local` statements append behind it |
| `Scoping.ForVariableHidden` | syntactic_analyzer.cpp:42-46 | a program whose loop variable is hidden by a local outside the loop |
| `Scoping.AnalyzedIsReady` | syntactic_analyzer.cpp:20-52 | the analyser's tables suffice for a run of every nested block and function |
| `Scoping.SubKeepsOrder` | syntactic_analyzer.cpp:33-50 | entering a nested block keeps index entries outermost first, unless a `for` variable hides a visible local |
| `Scoping.OwnIsNew` | interpreter.cpp:71-81 | a block is never pushed while it is open in the same path |
| `Analysis.SyntacticAnalyzer.WalkChunk` | syntactic_analyzer.cpp:8-160 | accepts iff no break is outside all loops; then one exact scope per function, exact tables, and `_blocks` and `_loop_blocks` empty |
| `Analysis.SyntacticAnalyzer.WalkBlock` | syntactic_analyzer.cpp:20-69 | a walked block leaves the stacks as before, removes itself from `_loop_blocks`, and is listed once in its parent |
| `Analysis.SyntacticAnalyzer.WalkStat` | syntactic_analyzer.cpp:71-129 | `_loop_blocks` after a statement is what it was; accepts iff its breaks pass |
| `Analysis.SyntacticAnalyzer.WalkNode` | syntactic_analyzer.cpp:132-160 | a function body is listed in a scope of its own, never in that of its parent |
| `Analysis.SyntacticAnalyzer.EnterBlock` | syntactic_analyzer.cpp:20-52 | the new block is appended to its parent's list and inherits the index, after its own head names |
| `Analysis.SyntacticAnalyzer.ExitBlock` | syntactic_analyzer.cpp:54-69 | never unbalanced; pops the block and forgets it as a loop |
| `Analysis.SyntacticAnalyzer.EnterStat` | syntactic_analyzer.cpp:71-129 | exact effect on lists, tables and `_loop_blocks`, where `LocalsListed` says what the list gets; fails iff a break meets no open loop |
| `Analysis.SyntacticAnalyzer.EnterLabel` | syntactic_analyzer.cpp:162-164 | a label is appended to the current list |
| `Analysis.SyntacticAnalyzer.EnterFuncbody` | syntactic_analyzer.cpp:132-150 | parameters indexed, all open blocks recorded as parents, a fresh scope opened |
| `Analysis.SyntacticAnalyzer.ExitFuncbody` | syntactic_analyzer.cpp:153-160 | the enclosing scope is current again |
| `Analysis.SyntacticAnalyzer.ValidateGotos` | syntactic_analyzer.cpp:166-177 | accepts iff every scope has unique labels and legal gotos; otherwise names a witness |
| `Analysis.PassingBreaks` | syntactic_analyzer.cpp:123-128 | all breaks have a loop in their own function iff the walk passes and no nested function has a free break |
| `Analysis.EnclosedBreaksPass` | syntactic_analyzer.cpp:123-128 | programs with enclosed breaks pass |
| `Analysis.BreakOutOfFunctionPasses` | syntactic_analyzer.cpp:123-128 | a break of a function inside a loop passes, and the function can end with it |
| `Analysis.AcceptedStays` | syntactic_analyzer.cpp:196-263 | no goto leaves an accepted function |
| `Forest.ListedIsBelow` | syntactic_analyzer.cpp:24-28 | lists name only blocks of their own function and never its root |
| `Forest.Listed` | syntactic_analyzer.cpp:24-28 | every block but the root stands in a list |
| `Forest.ListedOnce` | syntactic_analyzer.cpp:24-28 | and at exactly one position of one list |
| `Forest.FuncsApart` | syntactic_analyzer.cpp:131-160 | functions have pairwise disjoint blocks |
| `Forest.LabelsListed` | syntactic_analyzer.cpp:162-164 | the labels in a block's list are exactly those standing in it |
| `TreeRules.LocalsListed` | syntactic_analyzer.cpp:89-104 | the part of a block's list that belongs to a statement has a name as a local iff the statement declares it |
| `TreeRules.PartPlace` | syntactic_analyzer.cpp:71-129 | the parts of a list follow each other in the order of the statements |
| `TreeRules.PartMeaning` | syntactic_analyzer.cpp:84-104 | where locals, labels and gotos stand in the part of a statement |
| `TreeRules.SiteOfWay` | syntactic_analyzer.cpp:196-229 | every goto of the text is a goto of the lists |
| `TreeRules.WayOfSite` | syntactic_analyzer.cpp:196-229 | and the other way round |
| `TreeRules.LegalAgrees` | syntactic_analyzer.cpp:196-263 | a goto is legal by the lists iff it is legal by the text |
| `TreeRules.RejectedText` | syntactic_analyzer.cpp:231-263 | a rejection names a goto of the text and its reason, with the names crossed in their order |
| `TreeRules.RepeatsAgree` | syntactic_analyzer.cpp:265-282 | a list repeats a label iff a block of the text does |
| `TreeRules.TextAgrees` | syntactic_analyzer.cpp:166-177 | the lists of a function are legal iff its text is |
| `TreeRules.LegalEntersNoLocal` | syntactic_analyzer.cpp:196-263 | for a legal goto there is a label of its name with no declaring statement between the way to the goto and the label |
| `TreeRules.CaughtEntersNoLocal` | syntactic_analyzer.cpp:196-263 | at the label that catches a legal goto, a declaration stands in between only if the label stands earlier on the chain as well |
| `GotoRules.ValidateGoto` | syntactic_analyzer.cpp:231-263 | accepts iff the nearest level with the label ahead has no local before it; invisible iff no level has it; crossed names are exactly those in between |
| `GotoRules.ScanLevel` | syntactic_analyzer.cpp:244-257 | finds the first such label of a level and the locals before it |
| `GotoRules.ExploreContext` | syntactic_analyzer.cpp:196-229 | accepts only if every goto below is legal; a rejection names a goto that has no earlier label and is invisible or crosses exactly those locals |
| `GotoRules.RejectedIsNotLegal` | syntactic_analyzer.cpp:196-263 | no goto is both legal and rejected, so the two directions are exact |
| `GotoRules.ValidateLabels` | syntactic_analyzer.cpp:265-282 | accepts iff no block repeats a label; each block is scanned once |
| `GotoRules.RepeatedIsNotUnique` | syntactic_analyzer.cpp:271-272 | a reported label really is repeated |
| `GotoRules.AcceptedEntersNoLocal` | syntactic_analyzer.cpp:196-263 | an accepted goto has a visible label where every local in scope is in scope at the goto |
| `GotoRules.FunctionGotosEnterNoLocal` | syntactic_analyzer.cpp:196-263 | the same at the label that catches it, iff not both an earlier label is on the chain and a local stands between |
| `GotoRules.HiddenLocalIsEntered` | syntactic_analyzer.cpp:212-214 | an accepted goto whose catching label enters the scope of a local |
| `GotoRules.PathBlocks` | syntactic_analyzer.cpp:223-226 | a way down visits each block of the function at most once, so the recursion ends |
| `GotoRules.EscapingSite` | interpreter.cpp:91-106 | a goto that would leave its function is one without a label on its chain |
| `GotoRules.LegalGotosStay` | syntactic_analyzer.cpp:196-263 | legal gotos stay in their function |
| `Lifetime.CellHeap.Run` | types.cpp:631-644 | over every sequence of operations: a name is held by a store iff the last operation that concerns it declared it, by a closure iff the last one captured it; closing twice is reported iff it happens; the zero-count error is unreachable and held cells are alive; counts are exact iff no entry was lost, that is overwritten or dropped with its frame |
| `Lifetime.StoreHeld` | interpreter.cpp:1428-1438 | an entry of a store is held iff the last operation that concerns it declared it, and then with the cell of this declaration |
| `Lifetime.ClosureHeld` | types.cpp:80-87 | an entry of a closure is held iff it was captured and the function not destroyed since, and then with the cell the local had |
| `Lifetime.CellHeap.RemoveReference` | types.cpp:635-644 | fails iff the cell has no reference; frees at zero |
| `Lifetime.CellHeap.DeclareLocal` | interpreter.cpp:1332-1334 | a fresh cell with one reference |
| `Lifetime.CellHeap.Close` | types.cpp:80-87 | shares the cell and counts it; an error iff already closed under the name |
| `Lifetime.CellHeap.Release` | interpreter.cpp:1433-1438 | giving up entries one by one never fails |
| `Lifetime.CellHeap.DropFrame` | interpreter.cpp:1492-1503 | the entries a frame still has when it is popped are lost, and their references with them |
| `Lifetime.ForgetAll` | interpreter.cpp:1492-1503 | losing entries keeps enough references, and exact counts iff nothing is lost |
| `Lifetime.ExactHasNoLeak` | types.cpp:64-70 | with exact counts nothing is left once nothing is held |
| `Lifetime.DropOne` | types.cpp:635-644 | dropping a holder with its reference keeps the counts |
| `Assignment.Machine.ProcessStatVarList` | interpreter.cpp:958-1011 | memory is the left-to-right update by the pre-state values adjusted to the targets; stops exactly at a target that is no cell |
| `Assignment.AdjustedIsExpanded` | interpreter.cpp:958-1011 | the value for a target is that of the list of first values and all values of the last expression, or nil behind its end |
| `Assignment.WrittenMeaning` | interpreter.cpp:966-974 | every cell ends with the value for its last occurrence, or unchanged |
| `Assignment.MorphedReads` | interpreter.cpp:962-964 | after morphing, later writes do not change what is read |
| `Assignment.Machine.ProcessLocalVariables` | interpreter.cpp:1273-1336 | every name gets the value for its last occurrence, in the store of `Declaration`; all other names and cells unchanged |
| `Assignment.DeclaresSimultaneously` | interpreter.cpp:1283-1293 | these are the adjusted pre-state values, for every memory, iff no expression reads a name declared before it |
| `Assignment.SwapInADeclarationFails` | interpreter.cpp:1283-1293 | a swap in a declaration gives one value to both names |
| `NumericFor.ProcessForLoop` | interpreter.cpp:1218-1243 | iteration k begins with start + k * step whatever the body wrote; exact condition for each way to end |
| `NumericFor.RunUpward` | interpreter.cpp:1220-1243 | a step of at least 1: ends by itself iff the body lets it and the counter fits, after exactly max(0, floor((limit - start) / step) + 1) iterations |
| `NumericFor.RunDownward` | interpreter.cpp:1220-1223 | a step of at most 0: ends by itself iff the body never runs |
| `NumericFor.DueMeansTrips` | interpreter.cpp:1220-1223 | the iterations that are due are exactly the first ones of that number |
| `Tables.Table.Run` | types.cpp:161-311 | over every sequence of operations the seven maps answer as one map with nil as default, so nil entries inserted on demand never show |
| `Tables.Table.Step` | types.cpp:161-311 | the same for one operation, errors for nil and ellipsis keys included |
| `Tables.ReadsLastWrite` | types.cpp:161-311 | after any operations a key reads as the value written last under it, by index or by name; a key nothing was written under reads as before |
| `Tables.NilKeysFail` | types.cpp:190-311 | exactly nil and the ellipsis are errors as keys, and nothing is stored under them |
| `Tables.Table.SetField` | types.cpp:190-218 | changes exactly one key; nil and the ellipsis change nothing |
| `Tables.Table.Subscript` | types.cpp:223-311 | no value changes; with set_nil the reference is the key's own slot, never the shared nil |
| `Tables.Table.Dot` | types.cpp:165-177 | behaves as the subscript by the string |
| `Tables.Table.Border` | types.cpp:133-159 | the end of the first run of consecutive positive keys, 0 without any |
| `Tables.Table.Length` | types.cpp:133-159 | a border iff the first run of consecutive positive keys does not end with a nil field; so always if no integer field holds nil |
| `Tables.EndIsBorder` | types.cpp:133-159 | the end of the first run is a border iff no first run of keys ends with a nil field |
| `Tables.NilEntriesCount` | types.cpp:133-159 | two tables with the same fields and different results |
| `Tables.VisitFieldlist` | interpreter.cpp:772-797 | the pairs of a constructor in order, positional fields numbered on their own |
| `Tables.ConstructorMeaning` | types.cpp:119-123 | every key of a constructed table has the value of the last field for it |
| `Tables.PositionalKeys` | interpreter.cpp:784-790 | a positional constructor stores exactly its non-nil values at their positions |
| `Tables.PositionalBorder` | types.cpp:133-159 | the result is the length of the leading non-nil part iff the first value is not nil or all are |
| `Tables.ConstructPositional` | interpreter.cpp:762-797 | both together for a table that is really built |
| `Curried.CallCFunction` | interpreter.cpp:1508-1519 | the function runs once, on the converted arguments, iff counts match and all convert; overflow, unbounded call, first failing conversion and the case without parameters exactly |
| `Curried.CurriedFunction.BindNext` | function_abstraction.h:38-48 | binds the first unbound stage; a failed conversion changes nothing |
| `Curried.CurriedFunction.Call` | function_abstraction.h:54-60 | runs the function iff every stage is bound |
| `Curried.VariantTakesOwnType` | types.h:495-511 | a variant takes a value iff its own type is an alternative and converts, whatever the order |
| `Curried.PlainTakesRegistered` | types.h:479-490 | a plain parameter takes a value iff a conversion is registered for its type and yields something, which it receives |
| `FloorDivision.OperatorComputesFloor` | interpreter.cpp:386-389 | for all 32-bit operands with a non-zero divisor the result is the mathematical floor and fits unless the minimum is divided by -1 |
| `FloorDivision.FloorIsExact` | interpreter.cpp:361-388 | the floor of any correctly rounded quotient is the floor of the quotient |
| `FloorDivision.OneFloor` | interpreter.cpp:386-389 | the floor is unique |
| `FloorDivision.DivisionLaw` | interpreter.cpp:378-388 | quotient and remainder recombine iff the divisor divides the dividend or the signs agree |
| `FloorDivision.RemainderMeaning` | interpreter.cpp:378-381 | `%` is the one number that is smaller than the divisor, has the sign of the dividend and leaves a multiple of the divisor |

## Left out

- Parsing: the model starts from a tree whose statement kinds are known. The text-prefix tests (`starts_with`) that select them are not modelled.
- Interpretation.Interpreter.VisitStat: in an activation with leftovers, which block is on top of the stack, and so gets the locals of a declaration (`at` of a step), is not described; the effect of the declaration on this block, the order of statements, the frames and the stack below are.
- Interpretation.Interpreter.VisitBlock: of a run that ends in an error, the statements before the error are not recorded, and calls inside an expression are described by `CallFunction` but not part of the record of a block.
- Recursion.StepHeld: an event is not tied to a place in a program, beyond blocks being entered below their parents.
- Program.Interpret: assumes that every break has an enclosing loop in its own function, which the walk does not ensure (`BreakOutOfFunctionPasses`).
- Interpretation.Interpreter.ProcessIf: which branch is taken is left open, since conditions have no values here.
- Interpretation.Interpreter.ProcessWhile: how often the body runs is left open, for the same reason.
- Interpretation.Interpreter.ProcessRepeat: the same.
- Interpretation.Interpreter.ProcessForLoop: the same; `NumericFor` counts iterations on its own.
- Interpretation.Interpreter.ProcessForIn: every name gets a cell in each iteration; which values they get is not modelled, because the index for surplus names is not initialised on one path.
- Interpretation.Interpreter.EvalExp: an expression is any sequence of lookups, function definitions, calls and errors; operators and values are not tracked there, so any expression can raise an error.
- Empty stores that `operator[]` inserts in a frame during a lookup: a block without a store and one with an empty store are the same in the model.
- Varargs and `Elipsis` values, in assignments, calls and `for in`.
- Lifetime.CellHeap.Run: works on the operations of the interpreter as a sequence; it is not woven into the control-flow machine.
- Numeric `for` with a fractional start or step; limits that are not a number.
- Doubles are real numbers, and the division is any value with relative error at most 2^-53 that is exact for integer quotients. Table keys that are not a number are not considered.
- `Curried`: the registered conversions are arbitrary partial functions.
- The count map `GC` for Lua values.
- Equality, string conversions, power, floating remainder and printing.
- Function statements with dotted names, test hooks, the environment file runner, the playfield program, command-line parsing, messages of exceptions, and the templates in `meta_types.h`.
