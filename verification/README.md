# Verified models of the Lua compiler, op verification and assembly formats

This project models three parts of the repository and proves what they are for.

**The Lua compiler.** `lua/luac.py` generates structured ops (`cond_if`, `loop_while`, `repeat`, `numeric_for`,
`generic_for`, `function_def`) from Lua statements and rewrites them step by step into flat blocks with branches,
functions with explicit captures, and argument and return packs that live in two global buffers. Values are cells: an SSA
name is bound to the location of a cell, and `lua.copy` writes a cell. Execution is a function with fuel; a run has an
outcome when some amount of fuel gives it, and diverges when none does.

- `LuaIr`, `LuaLowering`, `LuaClone`, `LuaOwnership`, `LuaControlFlow`, `LuaLowerAll`: structured control flow to blocks.
- `LuaDangling`: which `repeat` loops that lowering leaves intact.
- `LuaGenerator`, `LuaBlockStack`, `LuaCompiled`, `LuaNumbered`: statements to structured ops, the block stack that the
  generator moves, statements to flat blocks, and the numbering of values that lowering needs.
- `LuaCalls`, `LuaPacks`, `LuaPackMemory`, `LuaAssign`: calls that pass lists of values, the same calls through the two
  shared buffers, the buffers themselves, the elided packs, assignments.
- `LuaClosures`, `LuaConversion`, `LuaConfluence`, `LuaClosureRun`, `LuaCapture`, `LuaConvertAll`: closure conversion, with
  bodies cloned onto fresh block arguments.
- `LuaScopes`, `LuaScopeFacts`, `LuaScopeNames`, `LuaScopeVisitor`: name resolution through the flat worklist.
- `LuaCells`, `LuaUntouched`, `LuaLoops`, `LuaNumericFor`, `LuaForBodies`, `LuaGenericFor`, `LuaGenericRun`,
  `LuaGenericBodies`, `LuaForLowered`: the two `for` loops as the ops that their patterns build, and which bodies they are
  right for.
- `LuaPower`: integer power.

**Op specs and dynamic ops.** A spec is verified, registered as a list of traits, and concrete ops are verified by running
the traits in order. The verdict `Trap` stands for a failed assertion or a range that leaves its list.

- `ValueGroups`, `ValueSides`, `ConstraintLists`: cutting values into groups, type checks, region and successor lists.
- `OpVerify`, `OpAccept`, `OpSafety`, `OpExact`: registration, verification, exactly which ops are accepted, and for
  exactly which specs no op can trip an assertion.

**Grammars and assembly formats.**

- `SpecGrammar`, `SpecParser`: the lists inside an op spec, printed and parsed.
- `FormatLexer`, `FormatGrammar`, `FormatAccepted`, `FormatSpelling`, `FormatParser`, `FormatResolve`, `FormatExact`,
  `FormatCrash`: from characters to an accepted format, and exactly which texts are formats of which elements.
- `FormatCode`, `FormatIndent`, `FormatNames`: the parser generated for it, its indentation and its names.
- `FormatSpacing`, `FormatPrinter`, `FormatPrinted`, `FormatShown`: the printer generated for it, what it prints of a
  concrete op, and the blanks between.
- `FormatGen`: the generators that write both.
- `FormatWords`, `FormatQuirks`, `FormatTouching`: formats written out as text, and what becomes of them.

Where the source changes state in place, so does the model: the generator's block stack, the scope map and worklist, the
argument and return buffers, a dynamic op's trait list, the spec and format parsers, the lexer and the code generator's
stream are classes whose methods are proved against functions, and the theorems are about those functions.

## What turned out not to hold

Each of these has a lemma with an input, or with a family of them, and beside it the condition under which the code is
right. The condition is exact, but for bodies of `for` loops that write the loop's own cells in other ways than the ones
named.

- A `repeat` whose condition reads a value defined in its body is lowered to a use of a value that is erased with the
  `repeat`, because the condition is cloned with a mapping of its own: the result is no valid graph
  (`LuaDangling.UntilReadingBodyDangles`; exactly these conditions: `LuaDangling.RepeatDangles`).
- `a, b = b, a` gives both variables the value of `b`: the elided pack hands out the cells themselves, which are then
  overwritten one after the other (`LuaAssign.SwapFails`; `LuaAssign.AssignExact`).
- `return v, g()` fills the return buffer with copies of the listed values instead of the results of `g`, since the tail is
  copied front to back within one buffer (`LuaPacks.MixedReturnWrong`; `LuaPacks.MixedReturnExact`).
- The numeric `for` goes round again when the value after the last one does not fit 64 bits, and never counts down
  (`LuaLoops.OverflowingLoop`, `LuaLoops.DownwardLoop`; `LuaNumericFor.NumericForRuns`).
- The lowered numeric `for` counts in the cell of the loop variable and reads the variable its limit came from in every
  turn, so `for i = 1, n do n = z end` may end too early or go on (`LuaForBodies.LimitAssigned`;
  `LuaForBodies.LimitAssignedExact`, and for `i = z` `LuaForBodies.VariableAssignedExact`); on every run on which neither
  cell is written the loop is right (`LuaNumericFor.NumericForCorrect`).
- The lowered generic `for` reads the iterator and its state from their variables in every turn: after `f = z` in the body
  of `for v in f, s do` it calls `z`, and may end where the manual's loop runs for ever
  (`LuaGenericBodies.IteratorAssigned`); here too it is right on every run that leaves the two cells alone
  (`LuaGenericRun.GenericForCorrect`).
- `ipow` is exact only when the half power fits an `int` (`LuaPower.IPowOverflows`; `LuaPower.IPowExact`), and ignores the
  sign of the exponent, which is right for the bases 1 and -1 alone (`LuaPower.IPowInverse`;
  `LuaPower.IPowNegativeExact`).
- A spec with an equal-size trait and no variadic entry, or with a user-given lower bound below the fixed entries, can pass
  all checks and be registered although some op trips an assertion (`OpExact.SlipsWithoutVariadic`,
  `OpExact.SlipsByWrapping`, `OpExact.SlipsByRegions`; `OpExact.SpecExact`).
- An op type with two operands or two results of one name is parsed "successfully" into no type at all
  (`SpecGrammar.RepeatedNames`; `SpecGrammar.OpTypeRoundTrip`).
- `attr-dict type(operands)` is accepted although the operands are parsed nowhere, and so is `attr-dict successors`, whose
  list is appended to before it exists (`FormatQuirks.TypesOnly`, `FormatQuirks.SuccessorsOnly`; `FormatNames.NamesExact`);
  `attr-dict ($a^)? type(operands)` generates a block with nothing in it (`FormatQuirks.LoneOperand`;
  `FormatIndent.PythonExact`).
- A group that ends in an opening bracket makes the printer leave out the blank before what follows, even when the group
  itself is not printed: two words run together (`FormatTouching.WordsTouch`; `FormatPrinted.SpacingExact`).
- `symbol(` at the end of a format fails an assertion (`FormatQuirks.SymbolAtEnd`; `FormatCrash.CrashExact`).
- The lexer takes the byte 255 outside a literal for the end of the file (`FormatLexer.OnesEndLexing`;
  `FormatLexer.EndExact`).

## Model

| member | source | states |
|---|---|---|
| `LuaIr.RunsDeterministic` | lua/luac.py:866-948 | A function run from one state has at most one outcome, so "diverges" and "returns" exclude each other |
| `LuaLowering.WhileFwd` | lua/luac.py:898-924 | Every outcome of a `loop_while` and the code after it is an outcome of the evaluate, body and after blocks |
| `LuaLowering.WhileBwd` | lua/luac.py:898-924 | Every outcome of those blocks is an outcome of the `loop_while` and the code after it |
| `LuaLowering.RepeatFwd` | lua/luac.py:926-948 | Every outcome of a `repeat` with its condition spliced in is an outcome of the blocks that replace it |
| `LuaLowering.RepeatBwd` | lua/luac.py:926-948 | Every outcome of those blocks is an outcome of the `repeat` |
| `LuaLowering.CondIfFwd` | lua/luac.py:866-896 | A `cond_if` and the code after it, returns from inside either arm included, has the outcome of the two branch blocks |
| `LuaLowering.CondIfBwd` | lua/luac.py:866-896 | What the two branch blocks do is what the `cond_if` does |
| `LuaLowering.SplicedSame` | lua/luac.py:866-948 | Splicing one op anywhere in the graph gives every entry block exactly the outcomes it had |
| `LuaClone.RenRunCode` | lua/luac.py:780-785 | Code copied with fresh names for what it defines has the same outcome on states that agree up to the renaming |
| `LuaOwnership.SplicedOwn` | lua/luac.py:866-948 | After splicing, values defined in a region are still used only inside that region |
| `LuaOwnership.RenOwnCfg` | lua/luac.py:780-785 | Copying keeps region values private to their regions |
| `LuaControlFlow.CloneRenamesGraph` | lua/luac.py:780-785 | Copying the regions of one op is a renaming of the whole graph that touches no input of the function |
| `LuaControlFlow.SameRunsSameDivergence` | lua/luac.py:866-948 | Functions with the same outcomes diverge on the same states |
| `LuaControlFlow.LowerAtCorrect` | lua/luac.py:866-948 | One lowering step at any op of any block (copy, then splice) keeps all outcomes, whatever the ordinary ops do to cells and to the outside world |
| `LuaControlFlow.LowerAtReady` | lua/luac.py:866-948 | And leaves a graph on which the next step is right too: closed under branches, names in range, region values private |
| `LuaLowerAll.LowerManyCorrect` | lua/luac.py:866-948 | After any sequence of steps, in any order of positions, the graph has the outcomes of the original function |
| `LuaLowerAll.LowerAtSmaller` | lua/luac.py:866-948 | Each step leaves less structured control flow than before, so lowering ends |
| `LuaLowerAll.LowerControlFlow` | lua/luac.py:866-948 | Applying the patterns until none applies gives a graph of flat blocks with exactly the original outcomes, and succeeds when regions end in the terminators the patterns know |
| `LuaDangling.RepeatCopyClosed` | lua/luac.py:926-948 | The copies of a `repeat`'s body and condition mention no original value of either if and only if the condition reads no value defined in the body |
| `LuaDangling.RepeatDangles` | lua/luac.py:926-948 | In any graph whose names are all inputs or defined, lowering a `repeat` leaves every name defined if and only if its condition reads no value of its body; otherwise a use is left whose definition went with the `repeat` |
| `LuaDangling.UntilReadingBodyDangles` | lua/luac.py:926-948 | `repeat local x = true until x` becomes a branch on the erased value of the body, which nothing in the lowered graph defines |
| `LuaCompiled.GeneratedMeans` | lua/luac.py:116-128 | A function generated from statements ends as the statements end: same outcomes, and divergence with divergence |
| `LuaCompiled.CompiledMeans` | lua/luac.py:866-948 | Generated ops lowered by any sequence of steps in any order have exactly the outcomes of the statements they came from |
| `LuaCompiled.Compile` | lua/luac.py:866-948 | Generating a function and lowering it always succeeds, leaves flat blocks, and these mean the statements in every semantics of the ordinary ops, calls that fail or never return included |
| `LuaNumbered.NumberedReady` | lua/luac.py:116-128 | A generated function whose ops get new values in the order in which they are created, and read only values that are visible where they stand, meets what lowering asks: region values stay inside their regions |
| `LuaNumbered.NumberedMeans` | lua/luac.py:866-948 | So every function numbered in this way, in which no `until` reads a value of its body, means the same after any sequence of lowering steps in any order |
| `LuaGenerator.GeneratedRuns` | lua/luac.py:174-211 | For every statement list, state and fuel, running the generated ops is running the statements |
| `LuaGenerator.GeneratedChunk` | lua/luac.py:116-128 | A block with or without a return statement becomes a region block that returns or ends as the block does |
| `LuaGenerator.GeneratedArms` | lua/luac.py:467-493 | The nested `cond_if`s run the branch of the first true condition and evaluate no later condition; with none true they run what follows `else` |
| `LuaGenerator.GeneratedWhile` | lua/luac.py:495-505 | A generated `loop_while` runs as the while statement |
| `LuaGenerator.GeneratedRepeat` | lua/luac.py:507-517 | A generated `repeat`, its condition inside the body's terminator, runs as the repeat statement |
| `LuaBlockStack.Generator.PushBlock` | lua/luac.py:106-109 | Saves the current block and moves insertion to the start of the new one |
| `LuaBlockStack.Generator.PopBlock` | lua/luac.py:111-114 | Restores the saved block and inserts at its end |
| `LuaBlockStack.Generator.GenBlock` | lua/luac.py:174-177 | Leaves block stack and insertion block as they were, appends to the current block exactly the ops of the statements, and finishes every region block it began with one terminator |
| `LuaBlockStack.Generator.GenStat` | lua/luac.py:179-211 | The same for one statement: the regions it leaves read as the structured op that means the statement |
| `LuaBlockStack.Generator.BlockAndRet` | lua/luac.py:124-128 | The current block becomes a finished region block: statements, then one return or end |
| `LuaBlockStack.Generator.IfBlock` | lua/luac.py:467-476 | Adds a `cond_if` with a finished first region, and leaves the empty second region current with exactly one block pushed |
| `LuaBlockStack.Generator.ConditionalChain` | lua/luac.py:482-493 | For any number of `elseif` arms, with or without `else`: every push is undone, each region block has one terminator, and the op appended is the nested `cond_if` |
| `LuaBlockStack.Generator.CloseArms` | lua/luac.py:490-492 | One pop and one end per `elseif` finish the nested second regions from the inside out |
| `LuaBlockStack.Generator.WhileLoop` | lua/luac.py:495-505 | Both regions of the loop are finished and the block stack is as before |
| `LuaBlockStack.Generator.RepeatLoop` | lua/luac.py:507-517 | The body ends in an `until` whose own region holds the condition; the block stack is as before |
| `LuaBlockStack.CloseLevel` | lua/luac.py:490-493 | A block ending in a `cond_if` with both regions finished is finished by its end, and reads as the nested arm |
| `LuaPacks.InsertAllApart` | lua/lib.mlir:283-296 | Between two buffers the tail arrives whole behind the listed values, and both the listed values and the tail's buffer keep theirs |
| `LuaPacks.InsertAllSelf` | lua/lib.mlir:283-296 | Copying a return pack onto itself (`return g(x)`) changes nothing |
| `LuaPacks.InsertAllOverlap` | lua/lib.mlir:283-296 | Copying a tail behind listed values in its own buffer repeats the listed values periodically |
| `LuaPacks.BuildExact` | lua/luac.py:1105-1128 | Building a pack in a shared buffer leaves exactly the listed values and then the tail's in it, except for listed values with a tail in one buffer; it fails exactly when there are more than the buffer holds |
| `LuaPacks.MixedReturnExact` | lua/luac.py:1158-1162 | `return` of listed values and a call's results yields the right pack if and only if nothing is listed or the results repeat the listed values |
| `LuaPacks.MixedReturnWrong` | lua/luac.py:1158-1162 | `return 1, g()` where `g` has returned 2 and 3 leaves 1, 1, 1 in the return buffer |
| `LuaPacks.CallShared` | lua/luac.py:1105-1162 | For every program without such returns, every call, nesting and recursion: one argument and one return buffer give what `LuaCalls.RunCall` gives, where a call passes a list of values, each parameter names a new cell with its value or nil, and the results are a list: same results, heap and failures |
| `LuaPacks.CallEnters` | lua/luac.py:787-804 | At entry, for distinct names, parameter i names a cell of its own with element i of the caller's values (the listed cells' values, then what the tail call left in the return buffer), nil past the end, and capture j names the j-th captured cell; no other cell has changed, and the call is the run of the body from there |
| `LuaPacks.CallWithShared` | lua/luac.py:1130-1138 | A callee that unpacks the argument pack at entry does what it does on the list of values that the pack holds, whatever it calls itself |
| `LuaPacks.StatsShared` | lua/luac.py:1105-1162 | The same for statement lists, early returns included |
| `LuaPacks.ExpShared` | lua/luac.py:1150-1156 | The same for expressions that nest calls to any depth |
| `LuaPackMemory.PackBuffers.InsertAll` | lua/lib.mlir:283-296 | The copy loop leaves in the buffer what the front-to-back specification says, within one buffer too, and does not touch the other |
| `LuaPackMemory.PackBuffers.Concat` | lua/luac.py:1105-1128 | Fills the buffer with the listed values and then the tail, giving what the specification gives, or changes nothing when they do not fit |
| `LuaPackMemory.PackBuffers.Unpack` | lua/luac.py:1130-1138 | Reads each index in turn, nil past the end, for any number of wanted values |
| `LuaPackMemory.ElideConcatAndUnpack` | lua/luac.py:694-712 | For all lengths, the elided `unpack(concat(vals, tail), n)` gives the n values that the path through the argument buffer gives |
| `LuaAssign.InOrderIsTogether` | lua/luac.py:742-751 | Copying cell by cell is the simultaneous assignment whenever no source is an earlier, changed target |
| `LuaAssign.AssignExact` | lua/luac.py:141-148 | For distinct targets, elided assignment is right on every heap if and only if no source is an earlier, changed target |
| `LuaAssign.SwapFails` | lua/luac.py:141-148 | `a, b = b, a` leaves the value of `b` in both |
| `LuaClosures.CaptureSetExact` | lua/luac.py:670-678 | The operands used inside but defined outside are exactly the free values of the function |
| `LuaClosures.FreeBetween` | lua/luac.py:670-678 | Whatever is used but not defined inside is free, and whatever is free is used inside |
| `LuaConversion.ConvReads` | lua/luac.py:670-692 | Converted code reads exactly the new names of what it read before, so converting inner functions changes no captured set but for names |
| `LuaConfluence.ConvIsolated` | lua/luac.py:670-692 | Every converted body, copied onto its entry arguments, reads nothing else from outside |
| `LuaConfluence.ConvTransitive` | lua/luac.py:670-692 | Converting some functions and then some more, each time with fresh names, is one conversion of the original program |
| `LuaConfluence.ConversionConfluent` | lua/luac.py:670-692 | Two complete conversions of one program, in whatever order and with whatever fresh names, differ by a renaming and the order of captures, entry arguments permuted along |
| `LuaClosureRun.SlotsReadBack` | lua/luac.py:1179-1198 | Filling the capture object index by index and reading it index by index gives back each captured cell at its own position |
| `LuaClosureRun.CapturesFound` | lua/luac.py:1179-1198 | Entry argument i of a closed function finds the cell of capture i, and the parameters follow from position `len(captures)` on |
| `LuaClosureRun.CapturedRel` | lua/luac.py:670-692 | An open function and its conversion, made where old and new names agree, find the same cell for every value their bodies read from outside |
| `LuaClosureRun.ClosedRel` | lua/luac.py:787-804 | So do a closed function and a further copy of it under other names |
| `LuaClosureRun.ConversionPreserves` | lua/luac.py:670-692 | A program and its conversion with fresh names throughout, run on the same cells, agree on heap, output, failures, early returns and, function by function, on closures, for every fuel; with `while`, `repeat` and both `for` loops, whose variables closures may capture |
| `LuaClosureRun.CallEnters` | lua/luac.py:787-804 | In these runs a call starts the body where parameter i, for distinct names, stands for a new cell with argument i or nil, and every other name for the cell that the closure found outside |
| `LuaClosureRun.CallBinds` | lua/luac.py:1130-1138 | And result i of a call is put into a new cell under the i-th name of the op, nil where there are fewer |
| `LuaClosureRun.CallPreserves` | lua/luac.py:787-804 | Calls of related closures with the same arguments do the same |
| `LuaClosureRun.BodyPreserves` | lua/luac.py:787-804 | Running related closures, captured cells first and argument cells after them, returns the same values |
| `LuaCapture.AddOperands` | lua/luac.py:672-677 | Adds exactly the operands defined outside |
| `LuaCapture.Walk` | lua/luac.py:565-570 | The in-order walk collects the operands of every nested op that are not defined inside |
| `LuaCapture.MapArguments` | lua/luac.py:685-689 | Maps the i-th value of a list to entry argument `first + i` |
| `LuaCapture.CopyInto` | lua/luac.py:780-785 | Clones op after op, each under the mapping as it stands after the results before it, and ends with the mapping of the whole block |
| `LuaCapture.CloneConverts` | lua/luac.py:780-785 | A copy is a conversion that converts nothing: operands follow the mapping, results are fresh, regions and nested functions included |
| `LuaCapture.CloneSingle` | lua/luac.py:780-785 | A copy defines each of its values once, all of them new |
| `LuaCapture.ExplicitCapture` | lua/luac.py:670-692 | The new op captures exactly the free values, each once, in some order; its body is the clone of the old body in which capture i is entry argument i and parameter i is entry argument `len(captures) + i` |
| `LuaCapture.ArgPackFunctionDef` | lua/luac.py:787-804 | The packed function keeps the captures in order, and its body is the clone in which the first arguments are the values read from the capture object and the others those unpacked from the argument pack |
| `LuaConvertAll.ConvertAll` | lua/luac.py:760-764 | Applying the pattern until no `function_def` is left, taking inner or outer functions first at every one, yields a complete conversion under the identity for everything around the functions |
| `LuaConvertAll.InnerFirst` | lua/luac.py:760-764 | Converting the functions inside first and then the enclosing one |
| `LuaConvertAll.OuterFirst` | lua/luac.py:760-764 | Converting the enclosing function first and then the functions inside the copy ends in a conversion of the same kind |
| `LuaConvertAll.ConvertedRuns` | lua/luac.py:760-764 | What this yields runs as the original program on every start state and with every fuel, and its bodies are closed |
| `LuaConvertAll.PackedConverts` | lua/luac.py:787-804 | Packing the arguments of a converted function is one more such conversion |
| `LuaScopes.WalkIsResolve` | lua/luac.py:572-664 | For every program, the flat worklist with markers resolves names, allocates globals and ends in scopes as the recursive environment-passing resolver does |
| `LuaScopeFacts.WalkCorrect` | lua/luac.py:602-664 | The walk never pops the global scope and ends with it alone, each name gets at most one global allocation, and every resolved value is defined before and visible at its use |
| `LuaScopeFacts.ResolveOk` | lua/luac.py:609-664 | The same for one op in any context: what it resolves is usable there, and what it adds is usable by the ops after it |
| `LuaScopeFacts.ResolveGlobals` | lua/luac.py:630-636 | Below the top level only global allocations enter the global scope |
| `LuaScopeNames.WalkExact` | lua/luac.py:602-664 | For every program, the walk replaces each use of a name by its latest visible binding (local allocation, parameter, or assignment to an op that asked for the name, where the tests allow it) and else by the name's global allocation; so a value never stands for another name |
| `LuaScopeNames.ResolveExact` | lua/luac.py:609-664 | One op at any place keeps that: it binds for the ops after it the name it allocates, or the name its own target asked for, and no binding leaves the region it was made in |
| `LuaScopeNames.ExactStand` | lua/luac.py:630-664 | Under lexical scoping every use stands for its own name: `Global(name)`, an allocation of the name, an argument whose parameter has the name, or what was assigned to an op that asked for or allocated it |
| `LuaScopeVisitor.ScopedMap.Contains` | lua/luac.py:541-545 | True exactly when some scope has the name |
| `LuaScopeVisitor.ScopedMap.Lookup` | lua/luac.py:547-551 | The value of the innermost scope that has the name, or the error |
| `LuaScopeVisitor.ScopedMap.SetLocal` | lua/luac.py:553-554 | Changes the innermost scope only |
| `LuaScopeVisitor.ScopedMap.SetGlobal` | lua/luac.py:556-557 | Changes the outermost scope only |
| `LuaScopeVisitor.AllocVisitor.AddRegion` | lua/luac.py:579-581 | Appends the flattening of the region, scope markers in balance |
| `LuaScopeVisitor.AllocVisitor.CheckWork` | lua/luac.py:587-600 | Loops and functions open their scope before they are visited, other ops open one per region after it |
| `LuaScopeVisitor.AllocVisitor.VisitOp` | lua/luac.py:609-664 | One visit changes scopes, allocations and resolutions as the specification says and marks exactly the replaced ops |
| `LuaScopeVisitor.AllocVisitor.VisitAll` | lua/luac.py:602-607 | The whole pass succeeds, is the specified walk, skips no op that must be visited, and replaces every use by a value that is visible there, is the one of lexical scoping, and stands for the name |
| `LuaUntouched.MildLeaves` | lua/luac.py:806-826 | Code in which no op writes through the given names, started where no other name leads to their cells, leaves these cells alone, however it branches and loops and whatever else it writes |
| `LuaNumericFor.LoweredRuns` | lua/luac.py:806-826 | The ops that the pattern builds, run as ops over cells with any body, go round as the loop that adds with wrap-around and tests `i <= upper`, on every run on which no turn of the body writes the loop cell or the limit |
| `LuaNumericFor.NumericForCorrect` | lua/luac.py:806-826 | Where `LoopFits`, and the manual's run of the body leaves those two cells alone, the built ops end as the loop of section 3.3.5 of the Lua 5.3 Reference Manual, body runs lower, lower+step, ... in order, returns, failures and divergence of the body included |
| `LuaForBodies.MildForCorrect` | lua/luac.py:806-826 | In particular for every body that writes through neither the loop variable nor the limit's name, where no other name leads to their cells; it may assign any variable from outside |
| `LuaForBodies.SumLoop` | lua/luac.py:806-826 | The ops built for `for i = lower, upper, step do s = s + i end` end with the sum of the manual's values added to `s`, wrapped to 64 bits |
| `LuaForBodies.LimitAssigned` | lua/luac.py:806-826 | With the body `n = z`, where `n` is the limit's variable and `z` holds less than the second value, the built loop ends after one turn while the manual's goes on |
| `LuaForBodies.LimitAssignedExact` | lua/luac.py:806-826 | With that body and any `z` the two loops end for the same amounts of fuel if and only if `z` allows for as many further turns as the old limit |
| `LuaForBodies.VariableAssignedExact` | lua/luac.py:820-824 | With the body `i = z` they do if and only if the manual's loop runs once and the value after `z` exceeds the limit |
| `LuaNumericFor.NumericForRuns` | lua/luac.py:806-826 | For 64-bit bounds and any step but zero, the wrapping loop is the manual's for every body, state and fuel if and only if `LoopFits` (upward: nothing to run or the value after the last fits; downward: one value only and the next one wraps) |
| `LuaLoops.NumericForExact` | lua/luac.py:806-826 | The values that the 64-bit recurrence visits are lower, lower+step, ... as often as the manual says, and it ends then, if and only if `LoopFits` |
| `LuaLoops.NumericForOverflow` | lua/luac.py:820-824 | When the next value wraps, the body runs more often than the manual says |
| `LuaLoops.OverflowingLoop` | lua/luac.py:820-824 | `for i = 2^63 - 1, 2^63 - 1, 1` runs its body a second time |
| `LuaLoops.DownwardLoop` | lua/luac.py:806-826 | `for i = 3, 1, -1` runs its body not at all, and three times in the manual |
| `LuaGenericRun.GenericForCorrect` | lua/luac.py:828-856 | The ops that the pattern builds, with cells for the control value, the first and the next results, make the iterator calls and body runs of section 3.3.5 of the Lua 5.3 Reference Manual with the same values and the same outcome, on every run on which neither a call nor the body writes the cells of the iterator and its state |
| `LuaGenericBodies.MildForCorrect` | lua/luac.py:828-856 | In particular for every body that writes through neither of their names, where no other name leads to their cells; it may assign its loop variables and variables from outside |
| `LuaGenericBodies.VariableAssigned` | lua/luac.py:828-856 | So a body that assigns the first loop variable changes no control value: the calls stay those of the manual |
| `LuaGenericBodies.IteratorAssigned` | lua/luac.py:845-850 | With the body `f = z`, where calls of `f` never yield nil and calls of what `z` holds do, the built loop ends and the manual's runs for ever |
| `LuaForLowered.NumericWf` | lua/luac.py:806-826 | What the numeric pattern builds is what the control-flow patterns expect, so both compose |
| `LuaForLowered.GenericWf` | lua/luac.py:828-856 | And so is what the generic pattern builds |
| `LuaPower.IPowExact` | lua/impl.cpp:194-202 | For every 64-bit base and exponent from zero up, the result is the power if and only if `Fits` |
| `LuaPower.IPowInt` | lua/impl.cpp:194-202 | In particular for every power that fits an `int`: no intermediate product overflows |
| `LuaPower.IPowNegative` | lua/lib.mlir:58-69 | The sign of the exponent is ignored |
| `LuaPower.IPowNegativeExact` | lua/lib.mlir:58-69 | For a negative exponent the result is the inverse of the power if and only if the base is 1 or -1 |
| `LuaPower.IPowOverflows` | lua/impl.cpp:194-202 | 2^32 overflows, although 64 bits hold it |
| `LuaPower.IPowInverse` | lua/lib.mlir:58-69 | 2^-1 comes out as 2 |
| `ValueGroups.EqualSizesCut` | lib/Traits/SpecTraits.cpp:18-41 | With enough values, the divisibility check passes if and only if the quotient sizes use up all the values |
| `ValueGroups.WrappedSum` | lib/Traits/SpecTraits.cpp:18-35 | With too few values the unsigned subtraction wraps; if the check still passes, the groups reach past the list by 2^32 |
| `ValueGroups.Partition` | lib/Traits/SpecTraits.cpp:102-114 | Groups 0 to n-1 joined are the value list, and group i has the i-th size |
| `ValueGroups.GettersAgree` | lib/Traits/SpecTraits.cpp:115-133 | The equal-size getter and the segment getter agree on every index if and only if the attribute lists the quotient sizes |
| `ValueGroups.GetAttrValueGroup` | lib/Traits/SpecTraits.cpp:102-133 | The captured size iterator yields, for every index, the range of prefix sums, and the empty range past the last type |
| `ValueGroups.CheckVariadicSegments` | lib/Traits/SpecTraits.cpp:43-60 | Together with the base check, accepts exactly the sizes that cut the list: one per type, unity for fixed ones |
| `ValueGroups.VerifyVariadicTypes` | lib/Spec/SpecTypeImplementation.cpp:45-66 | The loop over groups decides, or trips its assertions, as the specification by groups |
| `ValueGroups.GroupedIsPointwise` | lib/Spec/SpecTypeImplementation.cpp:45-66 | On sizes that cut the list the grouped check never traps and succeeds if and only if the expanded constraint list matches value by value |
| `ValueSides.VerifyTypeRange` | lib/Spec/SpecTypeImplementation.cpp:29-43 | The loop over both lists decides, or trips its assertion, as the flat specification |
| `ValueSides.RangeExact` | lib/Spec/SpecTypeImplementation.cpp:29-43 | For lists of one length it succeeds if and only if every value has its type, and never traps |
| `ValueSides.TypeCheckSafe` | lib/Spec/SpecTypeImplementation.cpp:68-98 | After size and count traits have passed on a safe side, the type check picked by the traits never traps |
| `ValueSides.TypeCheckMeaning` | lib/Spec/SpecTypeImplementation.cpp:68-98 | And it succeeds if and only if the expanded constraints hold value by value |
| `ValueSides.DispatchPartitions` | lib/Python/OpAsm.cpp:16-64 | On such an op, the groups Python sees are the groups the type checker used, and they partition the values |
| `ValueSides.GetGroupByName` | lib/Python/OpAsm.cpp:16-64 | Finds the first entry of the name and gives its group; only an unknown name fails |
| `ValueSides.SideExact` | lib/Traits/SpecTraits.cpp:18-41 | A registered side traps on no value list, attribute or constraint meaning if and only if it is safe: no admitted count below the fixed entries divides after wrapping |
| `ConstraintLists.VerifyConstraintList` | lib/Spec/SpecOps.cpp:231-255 | Accepts exactly the lists of valid constraints with no variadic before the last |
| `ConstraintLists.VerifyConstraintsLastVariadic` | lib/Spec/SpecRegion.cpp:97-119 | The two iterators decide, or trip the assertion, as the specification |
| `ConstraintLists.ListExact` | lib/Spec/SpecRegion.cpp:97-119 | Accepts if and only if each fixed constraint holds at its position and the final variadic one for all the rest; traps if and only if entries run out while all so far hold |
| `OpVerify.DynamicOperation.GetTrait` | lib/Dynamic/DynamicOperation.cpp:55-61 | The first trait of the name, or none |
| `OpVerify.DynamicOperation.AddOpTrait` | lib/Dynamic/DynamicOperation.cpp:47-53 | Appends the trait unless its name is taken, and then changes nothing |
| `OpVerify.DynamicOperation.VerifyOpTraits` | lib/Dynamic/DynamicOperation.cpp:107-114 | Runs the traits in insertion order and stops at the first that does not succeed; `OpAccept.AcceptExact` says for which ops none fails |
| `OpAccept.AcceptExact` | lib/Dynamic/DynamicOperation.cpp:107-114 | For every verified, registered and safe spec, all traits of an op succeed if and only if the user's counts and other traits hold; operands and results can be cut into one group per declared value, of the attribute's or of equal sizes where a trait says so, with every value meeting its group's type constraint; each region and successor meets its own or the final variadic constraint; and the attributes do |
| `OpAccept.SideExactly` | lib/Spec/SpecTypeImplementation.cpp:29-98 | Once the traits before have passed, the type check of a side succeeds if and only if the values can be so grouped and each meets its constraint; the grouping is unique |
| `OpAccept.ListExactly` | lib/Spec/SpecRegion.cpp:97-119 | Where the counts hold, the list check succeeds if and only if entry i meets constraint i, or the last one past the end |
| `OpVerify.AddUserTraits` | lib/Spec/DialectGen.cpp:29-42 | Succeeds exactly when all known traits have good arguments and distinct names, and then these are the traits |
| `OpVerify.AddCount` | lib/Spec/DialectGen.cpp:44-89 | Adds the exact count for a list without variadic, else a lower bound unless the user gave one; fails exactly on a name clash |
| `OpVerify.RegisterOp` | lib/Spec/DialectGen.cpp:25-96 | Registration succeeds exactly when the specified trait list exists, and leaves it on the op: user traits, counts, constraints |
| `OpSafety.NeverTrips` | lib/Spec/DialectGen.cpp:25-96 | For a verified and registered spec that satisfies `SpecSafe`, verifying any concrete op trips no assertion |
| `OpSafety.CoveredNeverTrips` | lib/Spec/DialectGen.cpp:25-96 | In particular when the user's lower bounds cover the fixed entries and equal-size traits stand on lists with a variadic entry, which can be read off the spec |
| `OpExact.SpecExact` | lib/Spec/SpecOps.cpp:258-330 | A verified and registered spec, whatever counts the user gave, can be tripped by no op if and only if it satisfies `SpecSafe` or the traits that run before contradict each other, so that every op is refused |
| `OpExact.ShutNeverTrips` | lib/Dynamic/DynamicOperation.cpp:107-114 | If some list has no length that meets the traits in front of the first assertion that would fail, every op is refused before it |
| `OpExact.FittingExact` | lib/Spec/SpecOps.cpp:258-330 | Where the user gave lower bounds only, on lists with a variadic entry and within 32 bits, no traits contradict each other and `SpecSafe` alone decides |
| `OpSafety.TrapAt` | lib/Dynamic/DynamicOperation.cpp:107-114 | If verification traps, it is in one trait, and all traits before it succeeded |
| `OpExact.SlipsWithoutVariadic` | lib/Traits/SpecTraits.cpp:18-26 | An equal-size trait without variadic operand passes verification and registration, and some op trips the assertion |
| `OpExact.SlipsByWrapping` | lib/Traits/SpecTraits.cpp:18-35 | So does a lower bound below the fixed operands, through the wrapped subtraction: some op trips an assertion |
| `OpExact.SlipsByRegions` | lib/Spec/SpecRegion.cpp:97-119 | So does a lower bound below the fixed regions: some op trips an assertion |
| `SpecGrammar.RegionRoundTrip` | lib/Spec/SpecRegion.cpp:136-186 | A region constraint nested to any depth, with 32-bit sizes, is read back and the rest of the input untouched |
| `SpecGrammar.RegionOnlySpelling` | lib/Spec/SpecRegion.cpp:136-186 | Whatever is read as a region constraint is its printed form, sizes cut to 32 bits |
| `SpecGrammar.SuccessorRoundTrip` | lib/Spec/SpecSuccessor.cpp:49-70 | The same for successor constraints |
| `SpecGrammar.RegionListRoundTrip` | lib/Spec/Parsing.cpp:138-191 | Region lists with unique names, the empty one printed as nothing included, are read back and the rest untouched |
| `SpecGrammar.RegionListSpelling` | lib/Spec/Parsing.cpp:138-178 | Only what prints as the input is ever read as a region list, and its names are unique |
| `SpecGrammar.SuccessorListRoundTrip` | lib/Spec/Parsing.cpp:199-251 | The same round trip for successor lists |
| `SpecGrammar.SuccessorListSpelling` | lib/Spec/Parsing.cpp:199-238 | And its converse |
| `SpecGrammar.TraitListRoundTrip` | lib/Spec/Parsing.cpp:86-135 | Trait lists with parameters are read back and the rest untouched |
| `SpecGrammar.TraitListSpelling` | lib/Spec/Parsing.cpp:86-120 | And its converse |
| `SpecGrammar.ValueListRoundTrip` | lib/Spec/Parsing.cpp:259-300 | Operand and result lists, empty ones included, are read back and the rest untouched |
| `SpecGrammar.ValueListSpelling` | lib/Spec/Parsing.cpp:259-278 | And its converse |
| `SpecGrammar.OpTypeRoundTrip` | lib/Spec/Parsing.cpp:280-307 | An op type is read back if and only if its operand names and its result names are unique; otherwise parsing succeeds with no type |
| `SpecGrammar.RepeatedNames` | lib/Spec/Parsing.cpp:280-307 | `(a: t, a: t) -> ()` is read successfully as no type at all |
| `SpecParser.Parser.ParseOpRegion` | lib/Spec/Parsing.cpp:138-155 | Reads and consumes what the grammar says, or fails where it fails |
| `SpecParser.Parser.ParseOptionalRegionList` | lib/Spec/Parsing.cpp:162-178 | The do-while loop reads exactly the region list of the grammar |
| `SpecParser.Parser.ParseOptionalSuccessorList` | lib/Spec/Parsing.cpp:221-238 | The do-while loop reads exactly the successor list of the grammar |
| `SpecParser.Parser.ParseOptionalParameterList` | lib/Spec/Parsing.cpp:26-42 | Reads an optional parameter list, or nothing without a `<` |
| `SpecParser.Parser.ParseOptionalOpTraitList` | lib/Spec/Parsing.cpp:100-120 | Reads an optional trait list |
| `SpecParser.Parser.ParseValueList` | lib/Spec/Parsing.cpp:260-278 | Reads a value list whose first item is found by its keyword |
| `SpecParser.Parser.ParseOpType` | lib/Spec/Parsing.cpp:280-291 | Reads both lists; succeeds without a type when a name repeats |
| `SpecParser.Parser.NamesUnique` | lib/Spec/OpType.cpp:32-46 | The scan with a set of names succeeds exactly when all names differ |
| `FormatLexer.Lexer.GetNextChar` | lib/Embed/FormatUtils.cpp:71-95 | The character read, how far the position moves, newline pairs read as one, NUL inside the buffer and the byte 255 |
| `FormatLexer.Lexer.LexToken` | lib/Embed/FormatUtils.cpp:97-140 | The next token of the buffer from any position, blanks skipped, and the position left at its end |
| `FormatLexer.Lexer.LexLiteral` | lib/Embed/FormatUtils.cpp:142-151 | A literal runs to the next backtick, or is an error |
| `FormatLexer.Lexer.LexVariable` | lib/Embed/FormatUtils.cpp:153-161 | A variable is the longest name after `$`, or an error |
| `FormatLexer.Lexer.LexIdentifier` | lib/Embed/FormatUtils.cpp:163-183 | The longest identifier, or the keyword it spells |
| `FormatLexer.LexAll` | lib/Embed/FormatUtils.cpp:97-140 | Lexing a whole buffer ends, with the tokens of the specification |
| `FormatLexer.TokensAreSlices` | lib/Embed/FormatUtils.cpp:97-183 | The spellings are ordered, disjoint, non-empty slices of the buffer with only blanks between them and after the last |
| `FormatLexer.EndExact` | lib/Embed/FormatUtils.cpp:71-140 | Lexing that meets no error reads the buffer to its end if and only if every byte 255 stands inside a literal, that is after an odd number of backticks |
| `FormatLexer.WithoutOnes` | lib/Embed/FormatUtils.cpp:71-140 | A buffer without a byte 255 is read to its end, or lexing meets an error |
| `FormatLexer.OnesEndLexing` | lib/Embed/FormatUtils.cpp:71-95 | Of `a`, byte 255, `b` only the first is ever read |
| `FormatGrammar.LexedEnds` | lib/Embed/FormatUtils.cpp:97-140 | Whatever the buffer holds, its tokens end with the one that ends lexing, no other does, and all before it have a spelling: what every theorem about formats asks of a token list |
| `FormatLexer.LexedAgain` | lib/Embed/FormatUtils.cpp:97-183 | The spellings joined by single spaces lex to the same kinds and spellings again |
| `FormatWords.WordsExact` | lib/Embed/FormatUtils.cpp:97-183 | In every buffer a token is one of the nine keywords or six marks if and only if it is spelled as that one |
| `FormatLexer.ValidLiteralsParse` | lib/Embed/FormatUtils.cpp:12-63 | Every valid literal has a parser call and no two have the same |
| `FormatParser.Parser.ParseVariable` | lib/Embed/OpFormatGen.cpp:1488-1546 | The fields and tokens change as the grammar's state does, or it fails where that fails |
| `FormatParser.Parser.ParseDirective` | lib/Embed/OpFormatGen.cpp:1548-1576 | The same for directives |
| `FormatParser.Parser.ParseAttrDictDirective` | lib/Embed/OpFormatGen.cpp:1702-1715 | At top level and for the first time only, and then remembered |
| `FormatParser.Parser.ParseOperandsDirective` | lib/Embed/OpFormatGen.cpp:1738-1746 | Refused at top level where operands have been seen, and marks all as seen |
| `FormatParser.Parser.ParseSuccessorsDirective` | lib/Embed/OpFormatGen.cpp:1758-1769 | At top level only, and only if no successor has been seen |
| `FormatParser.Parser.ParseTypeOperand` | lib/Embed/OpFormatGen.cpp:1786-1819 | The same for the operand of a type directive, which marks whose types have been seen |
| `FormatParser.Parser.ParseOptional` | lib/Embed/OpFormatGen.cpp:1591-1646 | The same for optional groups: first element, anchor, and types only of operands inside |
| `FormatParser.Parser.ParseChild` | lib/Embed/OpFormatGen.cpp:1648-1700 | The same for one element of a group and its anchor |
| `FormatParser.Parser.ParseFunctionalType` | lib/Embed/OpFormatGen.cpp:1718-1736 | The same for functional types |
| `FormatParser.Parser.ParseSymbol` | lib/Embed/OpFormatGen.cpp:1821-1832 | The same for symbol directives, the failed assertion at the end of the file included |
| `FormatParser.Parser.ParseElements` | lib/Embed/FormatUtils.cpp:202-211 | The loop reads all elements of the grammar, or fails where it fails |
| `FormatParser.Parser.HandleSameTypesConstraint` | lib/Embed/OpFormatGen.cpp:1437-1460 | Binds every value without a type of its own to the first value that has one |
| `FormatParser.Parser.VerifyResults` | lib/Embed/OpFormatGen.cpp:1341-1383 | The loop gives each result the specified type source, or fails |
| `FormatParser.Parser.VerifyOperands` | lib/Embed/OpFormatGen.cpp:1290-1339 | The loop gives each operand the specified type source, continuing the builder table, or fails |
| `FormatParser.Parser.VerifySuccessors` | lib/Embed/OpFormatGen.cpp:1385-1402 | The loop succeeds if and only if the parsed elements, groups included, name every successor or have `successors` |
| `FormatParser.Parser.VerifyRegions` | lib/Embed/OpFormatGen.cpp:1404-1418 | The loop succeeds if and only if the parsed elements name every region |
| `FormatParser.Parser.Parse` | lib/Embed/OpFormatGen.cpp:1182-1222 | Parsing and all checks, in their order, accept exactly the formats that `ParseFormat` accepts, which are those of `FormatExact.AcceptedExact` |
| `FormatSpelling.ElementsExact` | lib/Embed/OpFormatGen.cpp:1470-1832 | For every op and token list, reading gives these elements if and only if the tokens spell them in order (variables by the first entry of their name, groups with their anchor's caret, both arguments of a functional type in their places) and each may stand after those before it; the rules are said of the elements |
| `FormatSpelling.ElementSpelled` | lib/Embed/OpFormatGen.cpp:1470-1832 | What is read of one element is its spelling, and the element is allowed there |
| `FormatSpelling.ElementRead` | lib/Embed/OpFormatGen.cpp:1470-1832 | And an allowed element is read back from its spelling, whatever follows: no directive is refused for another reason |
| `FormatSpelling.FunctionalRead` | lib/Embed/OpFormatGen.cpp:1718-1736 | `( a , b )` after `functional-type` is read as the functional type from `a` to `b` |
| `FormatExact.AcceptedExact` | lib/Embed/OpFormatGen.cpp:1182-1460 | For every op and token list, the format is accepted if and only if the tokens spell allowed elements that have an attribute dictionary, no colon after an attribute without type, all operands, successors and regions, and a source for every type; each source is then the value's own list, else the first typed value where a trait says they are alike, else a built type |
| `FormatExact.ResolversExact` | lib/Embed/OpFormatGen.cpp:1437-1460 | A name is bound to a value of known type if and only if one of the two traits covers an untyped value of that name, and then to the first typed operand, or result where results count |
| `FormatExact.SourceUnique` | lib/Embed/OpFormatGen.cpp:1290-1383 | The format leaves only one source for each type |
| `FormatCrash.CrashExact` | lib/Embed/OpFormatGen.cpp:1821-1832 | For every op and every token list, reading fails an assertion if and only if the list ends in `symbol(` and nothing before is rejected; a list that ends so is never accepted |
| `FormatCrash.CrashEndsInSymbol` | lib/Embed/OpFormatGen.cpp:1488-1501 | So a format that does not end in `symbol(` never fails one |
| `FormatCrash.CrashAfterElements` | lib/Embed/OpFormatGen.cpp:1821-1832 | For every op and all tokens that are read as elements by themselves: with `symbol(` after them reading fails an assertion |
| `FormatAccepted.ElementsParsed` | lib/Embed/OpFormatGen.cpp:1470-1700 | Over the whole element loop, the parser's flags say exactly which variables and types occur in the elements, and every element has a form the generators know |
| `FormatAccepted.ElementParsed` | lib/Embed/OpFormatGen.cpp:1470-1486 | One element of any kind keeps that invariant |
| `FormatResolve.VerifyAttributes` | lib/Embed/OpFormatGen.cpp:1224-1288 | The walk with an explicit iterator stack succeeds exactly when no attribute that may be followed by a type is followed by a colon |
| `FormatResolve.AcceptedIsSound` | lib/Embed/OpFormatGen.cpp:1182-1383 | For every accepted format, each operand and each result has exactly one type source, which is a list that is parsed or an entry of a builder table without repetitions |
| `FormatResolve.ResultsResolved` | lib/Embed/OpFormatGen.cpp:1341-1383 | The sources given to results are valid for any starting table |
| `FormatResolve.OperandsResolved` | lib/Embed/OpFormatGen.cpp:1290-1339 | So are those given to operands, and every operand has been seen |
| `FormatCode.BlocksExact` | lib/Embed/OpFormatGen.cpp:497-639 | The lines of the generated parser nest correctly (each opened block has a line one level deeper) if and only if no optional group has a single element |
| `FormatIndent.PythonExact` | lib/Embed/OpFormatGen.cpp:497-639 | Python, which keeps a stack of open levels, accepts the indentation of the generated parser if and only if no optional group has a single element |
| `FormatCode.LeafMentions` | lib/Embed/OpFormatGen.cpp:519-614 | The lines that parse an element touch exactly the names that belong to it: the list of that operand or successor, that region, the type list of that value or of all operands or results |
| `FormatCode.ResultResolved` | lib/Embed/OpFormatGen.cpp:704-713 | In the generated parser, line i of the results uses the name that holds the type of result i's own source |
| `FormatCode.OperandResolved` | lib/Embed/OpFormatGen.cpp:715-769 | Operand i is resolved with its own list, with the type of its own source and, unless it is built, its own location; where operands or types are resolved at once, its list or type stands at place i |
| `FormatNames.StoragePass` | lib/Embed/OpFormatGen.cpp:469-494 | After the storage pass every list and location that an element parser fills has been assigned |
| `FormatNames.CleanIsDefinite` | lib/Embed/OpFormatGen.cpp:616-813 | For formats that satisfy `Clean`, no generated line uses a name before it is assigned, whatever branches are taken |
| `FormatNames.NamesExact` | lib/Embed/OpFormatGen.cpp:616-813 | With distinct operand names, that holds if and only if the format is `Clean`: operands are parsed and no successor list is used |
| `FormatGen.PythonGenStream.ChangeIndent` | lib/Embed/PythonGen.cpp:30-44 | Moves the indentation, which must not become negative |
| `FormatGen.GenElementParserStorage` | lib/Embed/OpFormatGen.cpp:469-494 | Writes exactly the storage lines of an element |
| `FormatGen.GenElementParser` | lib/Embed/OpFormatGen.cpp:497-614 | For every element of an accepted format, writes its parser lines without reaching an unreachable case, and indentation ends where it began |
| `FormatGen.GenTypeResolution` | lib/Embed/OpFormatGen.cpp:641-770 | Writes the resolution lines: builder table, results, operands |
| `FormatGen.GenSuccessorResolution` | lib/Embed/OpFormatGen.cpp:772-791 | Writes the successor lines |
| `FormatGen.GenParser` | lib/Embed/OpFormatGen.cpp:616-639 | The whole parser of any accepted format is written, from indentation zero to zero |
| `FormatGen.GenTypeOperandPrinter` | lib/Embed/OpFormatGen.cpp:876-900 | Without a failed cast, asks for the types that `FormatShown.TypesShow` shows to be those of the argument |
| `FormatGen.UsedAttributes` | lib/Embed/OpFormatGen.cpp:823-836 | The two loops collect the attributes of variables, also inside groups, and of symbols, in order |
| `FormatGen.GenAttrDictPrinter` | lib/Embed/OpFormatGen.cpp:820-848 | Writes the one line that prints the dictionary without these attributes and, where they apply, the group sizes |
| `FormatGen.GenLiteralPrinter` | lib/Embed/OpFormatGen.cpp:852-873 | Writes the literal, with a blank before it except around brackets, and leaves the flags for what comes next |
| `FormatGen.GenElementPrinter` | lib/Embed/OpFormatGen.cpp:903-1016 | For every element of an accepted format, without a failed cast or unreachable case: exactly its printer lines, each with the accessor it calls, and the flags, which a group changes even if it will not be printed |
| `FormatGen.GenPrinter` | lib/Embed/OpFormatGen.cpp:1018-1030 | The whole printer of any accepted format is written, indentation back where it began |
| `FormatPrinter.ElidesExact` | lib/Embed/OpFormatGen.cpp:820-848 | The dictionary leaves out an attribute if and only if another element prints it, or it holds the group sizes of operands that are not printed as one list |
| `FormatPrinter.PrinterIndented` | lib/Embed/OpFormatGen.cpp:903-1030 | Python accepts the indentation of every generated printer |
| `FormatPrinted.RunIsPieces` | lib/Embed/OpFormatGen.cpp:903-1030 | The lines of the printer, run with any outcome of their tests and blocks passed over by indentation, make the calls of one element after the other; what these print is `FormatShown.PrinterShows` |
| `FormatShown.PrinterShows` | lib/Embed/OpFormatGen.cpp:903-1030 | Run on any op whose values are grouped as declared, the printer prints, blanks apart, the op's name and then what each element denotes: literals, the attribute, the values of the operand, successor or region of that name, all of them, the types of all operands, of all results, of the group or the value named, both sides of a functional type, and the attributes no element prints; a group exactly when its own anchor is present |
| `FormatShown.AcceptedShows` | lib/Embed/OpFormatGen.cpp:1018-1030 | So it is for every accepted format, with nothing asked of the names of the op |
| `FormatShown.TypesShow` | lib/Embed/OpFormatGen.cpp:876-900 | The accessor written for an argument yields the types of all operands, of all results, of the operand or result group, or of the one value |
| `FormatShown.TestIsAnchor` | lib/Embed/OpFormatGen.cpp:909-933 | The test of a group succeeds if and only if its own anchor is there: a non-empty operand group, or the attribute |
| `FormatShown.RegionShows` | lib/Embed/OpFormatGen.cpp:987-996 | A region is fetched by its name, and its arguments are printed exactly when it has blocks |
| `FormatSpacing.TouchesExact` | lib/Embed/OpFormatGen.cpp:850-873 | Two words touch if and only if some piece ends in a letter or digit, a later one begins with one, and all between them may be empty |
| `FormatPrinted.SpacingExact` | lib/Embed/OpFormatGen.cpp:850-1030 | For every accepted format: in no run of the printer, whichever groups are printed, do two words touch if and only if one pass over the elements finds no place for it |
| `FormatPrinted.ClosedApart` | lib/Embed/OpFormatGen.cpp:850-1030 | And the pass finds none in any format none of whose groups ends in an opening bracket |
| `FormatTouching.WordsTouch` | lib/Embed/OpFormatGen.cpp:903-933 | The text ``attr-dict ($a^ `(`)? `b` type(operands)`` is accepted, and in a run that leaves the group out `b` is printed right after the name of the op |
| `FormatQuirks.TypesOnly` | lib/Embed/OpFormatGen.cpp:1786-1819 | The text `attr-dict type(operands)`, lexed and parsed, is accepted although the operand is nowhere in the format |
| `FormatQuirks.SuccessorsOnly` | lib/Embed/OpFormatGen.cpp:394-410 | The text `attr-dict successors` is accepted although its list is never created |
| `FormatQuirks.LoneOperand` | lib/Embed/OpFormatGen.cpp:497-517 | The text `attr-dict ($a^)? type(operands)` is accepted although its group generates an empty block |
| `FormatQuirks.SymbolAtEnd` | lib/Embed/OpFormatGen.cpp:1821-1832 | The text `symbol(` is neither accepted nor refused, whatever the op |

## Left out

- LuaControlFlow.LowerAtCorrect: stated for graphs in which values defined inside a region are used only inside it, so a `repeat` condition that reads its body is excluded; `LuaDangling.RepeatDangles` covers that case.
- LuaCompiled.CompiledMeans: values defined in the body of a loop or a branch are used only there (`LuaControlFlow.Ready`), which `LuaNumbered.NumberedReady` derives for values numbered as they are created; a `for` is no op of `LuaIr`, so a `for` inside other statements is not carried through lowering, its two patterns are proved by themselves.
- LuaPacks.CallShared: excludes functions that return listed values together with a call's results; `LuaPacks.MixedReturnExact` says exactly when such a return is right. Multiple assignment copies cell by cell on both sides; `LuaAssign.AssignExact` says when that is the manual's assignment.
- LuaAssign.AssignExact: the source cells are those read when the assignment starts; expressions that allocate new cells are no targets and need no condition.
- LuaNumericFor.NumericForCorrect: the run of the body writes neither the cell of the loop variable nor that of the limit, and each added op writes one cell of its own, reused from turn to turn; closures that capture the loop variable are not modelled here. For bodies that write the two cells, `LuaForBodies` has the exact condition for assignments of one variable only.
- LuaGenericRun.GenericForCorrect: nothing on the run writes the cells of the iterator function and the state; the cell of the control value belongs to the loop, which overwrites it; closures that capture the per-iteration variables, which the lowered loop shares between iterations, are not modelled.
- LuaScopes.WalkIsResolve: whether an assignment renames its target in the scope (single use, same parent op) is a parameter; the claim holds for every answer, and the renaming as a meaning-preserving step is not modelled.
- LuaClosureRun.ConversionPreserves: calls pass value lists; packs are the subject of `LuaPacks`. The `for` ops run as in the manual, over unbounded numbers and with new cells for the loop variables in every turn; what their patterns make of them is the subject of `LuaNumericFor` and `LuaGenericRun`.
- LuaGenerator.GeneratedRuns: bodies of `while` and `repeat` have no return statement, since the generator asserts that; break, goto, labels and enclosed blocks raise an error in the source and are not modelled.
- OpExact.SpecExact: value lists have fewer than 2^32 entries; the meanings of single constraints range over all predicates, while one spec has one of them.
- ValueGroups.GetAttrValueGroup: prefix sums are taken modulo 2^32; the source accumulates them in an `int`, which is the same bits but negative from 2^31 on.
- SpecGrammar.RegionListRoundTrip: an empty list prints as nothing, so what follows must not itself begin a list; the same for successor and trait lists.
- FormatNames.NamesExact: operands have distinct names; `FormatNames.CleanIsDefinite` needs no such condition. Names that the generated code uses for its own temporaries are not tracked.
- FormatShown.PrinterShows: attributes, values, types, successors and regions are numbers; how MLIR writes one of them, the type of a typed attribute and the body of a region included, is not modelled, and blanks are the subject of `FormatPrinted.SpacingExact`.
- FormatPrinted.SpacingExact: which calls of the printer may print nothing, and which begin or end with a letter or digit, is fixed in `FormatSpacing` by what the printer of MLIR does; the texts themselves are not modelled.
- FormatCrash.CrashAfterElements: the front consists of whole elements; `symbol(` inside a group or a type directive fails in the same way, which `FormatCrash.CrashExact` covers.
- The LLVM conversion, the pattern driver and its order of work, and dialect conversion in MLIR: each pattern is proved correct on its own and in any order.
- The SSA-style renaming in `visitAssign` and `elideAssign`, and `knownCallUnpack`, as meaning-preserving steps.
- The merging of `convert_bool_like` with the conditional branch, which here both ask for the truth of a cell.
- The number of elements in a pack beyond 16: building a larger one is an error in the model of the buffers.
- Values other than nil, booleans, numbers and functions: tables and strings, and Lua's dynamic typing in arithmetic.
- The base check of the segment traits (sizes that add up to the number of values), which is assumed, and single type, attribute and region constraints, which are parameters.
- Printing and parsing whole op specs, width lists, `AllOfType`, alias and type registries, format reparsing and enum attributes.
- Round trips through generated parsers and printers: accepted formats may be ambiguous.
- The Python bindings apart from the lookup of value groups, and everything that loads or runs generated code.
