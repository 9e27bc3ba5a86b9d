# Blade, modelled and proved in Dafny

Blade is a small bytecode language. A single-pass compiler reads tokens and writes bytes, with no
tree in between; a stack machine runs the bytes; closures share variables through up-values; a
mark-sweep collector and open-addressing tables hold everything together. This project models those
parts and a few of the library's codecs, and proves what they are for.

| module | what it is |
|---|---|
| `Basics`, `Values`, `Bytecode`, `Syntax` | values, opcodes, fragments of code, source trees |
| `Semantics` | what source programs mean: big-step, with fuel for loops |
| `Grammar`, `Precedence`, `Printing` | the token grammar as a reference parser; the layered grammar it reads; printing with the fewest parentheses |
| `Codegen`, `Decoding`, `CodeShape` | the code of a tree, and that it decodes instruction by instruction |
| `Machine` | the dispatch loop over bytes, one step at a time |
| `ExprCorrectness`, `StmtCorrectness`, `CompilerCorrectness` | compiled code does what the source means |
| `Emission`, `Compiler`, `EndToEnd` | the single-pass compiler itself, from tokens to bytes, and its theorem |
| `Tidiness`, `Heights`, `Balance` | which programs keep the stack in order, and static stack heights |
| `Resolution`, `UpValues` | lexical resolution at compile time and shared cells at run time |
| `Table`, `Collector` | the hash table and the garbage collector |
| `Sorting` | `sort_values` |
| `Json`, `JsonTrace`, `JsonMembers` | the two-pass JSON reader as a state machine, what it does to memory, and what it counts |
| `JsonMemory`, `JsonLayout`, `JsonFree` | what it allocates and writes, when that fits, and the release of its trees |
| `JsonText`, `JsonDocuments`, `JsonBuilt` | documents by the grammar of RFC 8259, that they are read as written, and that what is built is the document |
| `Pack`, `PackLayout`, `Unpack`, `Base64`, `Utf8` | `struct.pack`/`unpack`, base64 and UTF-8 |

`dafny verify dfyconfig.toml` checks the whole project.

**How the compiler theorem fits together.** `Compiler.Parser` is the compiler as it is written: methods
that consume tokens, append bytes, patch jumps they could not resolve, keep the list of locals, save and
restore the innermost loop, and walk over their own output to turn `break` placeholders into jumps.
`Emission` says what has to come out from each point of the token stream, in terms of the reference
grammar and of `Codegen`, which computes the code of a tree with every size known in advance. Each method
is proved to reach its goal, or to report an error exactly when there is none. `CompilerCorrectness` proves
that the code `Codegen` describes behaves as `Semantics` says. `EndToEnd.CompileFunction` puts the two
together: from tokens to runs.

**Printing** puts in a pair of parentheses only where leaving it out would change what is read. A step such as
`x++` needs them only where assignment is not allowed: at the left end of an expression `x++ + 1` reads as
`(x++) + 1`, although assignment binds loosest (src/compiler.c:1369-1405).

Number arithmetic other than addition, subtraction, multiplication and comparison is a parameter
(`Values.World`), as are the truth of objects and the built-in globals; numbers are reals. Truth follows
`is_false`: negative numbers are false, zero is true.

## Findings

Properties the code does not have, each with a concrete input, and the condition under which it has them.

- `break` discards no locals (src/compiler.c:2369-2371). `Tidiness.BreakLeaks` compiles a function whose
  source returns 2 and whose bytes return 1. `while` and `do` record no scope depth of their own
  (src/compiler.c:2297-2349), so `continue` in them pops everything back to the surrounding `iter`, or to
  the callee. `Balance.ContinueLeaks` compiles `(x) { while true continue }`: the source never ends, the
  machine pops the parameter, then the callee, then reads below the stack. Exact condition:
  `Balance.BalancedIff`, static stack heights exist if and only if the function is neat, a count of
  declarations between each jump and its loop.
- The walk that patches breaks counts no operand bytes for the instruction that reads a parent method, which
  has two (src/compiler.c:167, 1002). `Compiler.ParentMethodMisread` runs the walk: after `var a = parent.x`
  and then `break`, the placeholder is still there, whatever follows. `Compiler.ParentMethodInStep` runs it on
  `parent.x` as a statement, where it gets back in step. A sufficient condition, not an exact one: the walk is
  right on every code whose instructions have the operands it counts (`Compiler.Parser.EndLoop`,
  `Compiler.SweptRegular`), and all compiled code of the modelled language is such (`CodeShape.StmtShape`).
- The JSON reader keeps the size of an object's entries in an `int` (packages/json/json-parser.c:123, 154-162), 24
  bytes for each member, although it accepts far more members. `JsonLayout.LargeObjects` gives two texts of less than
  2^31 bytes: with 178956971 members the size becomes 8 and the names overlie the entries; with 89478486 it becomes
  negative and a valid text is refused for lack of memory. Exact condition: `JsonLayout.SafeIff`, in every accepted
  text, what is written to an object's block lies inside it, names and entries apart, if and only if the entries
  take less than 2^31 bytes.
- The JSON reader sets bit 16 of a surrogate pair's character where it should add it (packages/json/json-parser.c:348),
  so in every other plane it gets the character 65536 places before. `JsonText.WrongPlane`: U+20000 is read as
  U+10000. Exact condition: `JsonText.TakenAsMeant`, a string is read as it is meant if and only if it has no pair of an
  even plane.
- A JSON number whose whole part does not fit 64 bits is a double before its point comes, and a double takes no point
  (packages/json/json-parser.c:776-810). `JsonText.LongFraction`: 10000000000000000000.5. Exact condition:
  `JsonDocuments.DocRuns`, a document is refused if and only if it has such a number or something in it is longer than
  32 bits can count.
- `pack` computes the size of its buffer as `outputsize + 1` in `int` (src/standard/struct.c:480), and the size of
  a hexadecimal field as `(arg + (arg % 2)) / 2` (src/standard/struct.c:408). `Pack.TopOfRange` gives the formats
  that overflow each: "x2147483647", for which the allocation fails, and "h2147483647", which is refused
  although it needs 2^30 bytes. Exact conditions: `Pack.Pack` and `Pack.RefusedIff`.
- The base64 decoder looks at the last two characters of its text before it knows that there are any
  (src/standard/base64.c:78-80), and indexes its table with a character that may be negative
  (src/standard/base64.c:90-97). So decoding the encoding of no bytes reads before the text. Exact conditions:
  `Base64.RoundTrip`, every other input comes back, and `Base64.Decode`.

## Model

| member | source | states |
|---|---|---|
| `EndToEnd.CompileFunction` | src/compiler.c:1456-1488 | the single-pass compiler accepts exactly the token streams the grammar reads as a function free of compile errors; its bytes and constants are those of that function; and if every jump out of a loop is neat, running the bytes ends in a state exactly when the source call does |
| `Compiler.Parser.Function` | src/compiler.c:1473-1488 | parameters and body compiled in one pass give exactly the code and constants of the function the grammar reads, or an error exactly when there is none |
| `Compiler.Parser.Statement` | src/compiler.c:2444-2490 | from any sound parser state: an error if and only if the grammar reads no statement here or its code has a compile error; otherwise exactly that statement's code is appended, locals, scope and innermost loop are as before, and the position is after it |
| `Compiler.Parser.IfStatement` | src/compiler.c:1978-1995 | the two back-patched jumps make exactly the code of the tree's `if`, with or without `else`, and the first arm's jump is refused exactly when the arm is too long |
| `Compiler.Parser.WhileStatement` | src/compiler.c:2297-2321 | the emitted loop, after its breaks are patched, is the loop of the tree; the surrounding loop is restored |
| `Compiler.Parser.DoWhileStatement` | src/compiler.c:2323-2349 | the same for `do`, whose test follows its body |
| `Compiler.Parser.IterStatement` | src/compiler.c:1674-1735 | initializer, test, increment before the body and body make the code of the `iter` loop in its own scope; `continue` goes to the increment |
| `Compiler.Parser.UsingStatement` | src/compiler.c:1894-1976 | cases read in one pass, with their jumps patched at the end, give the code, constants and jump table of the tree's `using`, later labels overriding earlier ones |
| `Compiler.Parser.PatchCases` | src/compiler.c:1966-1969 | the jumps at the ends of the cases, patched in order of their recorded places, each lead past everything after them; an error exactly when one does not fit |
| `Compiler.Parser.BlockStatement` | src/compiler.c:1423-1431 | declarations and statements up to the brace, then one pop for each local of the block; the locals afterwards are those before |
| `Compiler.Parser.VarList` | src/compiler.c:1603-1628 | declared names in order, each listed but unusable while its initializer is compiled; an error exactly for a clash in the same scope, a full table or a faulty initializer |
| `Compiler.Parser.ContinueStatement` | src/compiler.c:2351-2362 | pops for every local deeper than the recorded scope, then back to the loop; refused exactly outside loops and when too far |
| `Compiler.Parser.BreakStatement` | src/compiler.c:2364-2373 | a placeholder of three bytes and no pops; refused exactly outside loops |
| `Compiler.Parser.EndLoop` | src/compiler.c:586-600 | walking over the emitted bytes visits only instruction boundaries, ends, and turns exactly the placeholders of this loop into jumps to its end; an error exactly when a jump does not fit |
| `Compiler.Parser.EndScope` | src/compiler.c:556-570 | exactly the locals of the scope that ends are dropped, with one pop each |
| `Compiler.Parser.ParsePrecedence` | src/compiler.c:1369-1405 | the Pratt loop, emitting as it goes, reads the expression the precedence table defines and emits exactly its tree's code, or reports an error exactly when there is no such tree or it has a compile error |
| `Compiler.Parser.Conditional` | src/compiler.c:1239-1262 | `?:` with a greedy second arm: both jumps patched to make the tree's two-way choice |
| `Compiler.Parser.OrOperator` | src/compiler.c:1228-1237 | the two jumps of `or` and a right-nested operand make the tree's code |
| `Compiler.Parser.Assignment` | src/compiler.c:737-838 | assignment, compound assignment and steps load, combine and store the resolved place in the tree's order |
| `Compiler.Parser.PatchJump` | src/compiler.c:365-375 | only the two operand bytes change, to the distance to the end of the code; an error exactly when it exceeds 16 bits |
| `CompilerCorrectness.CompilerCorrect` | src/vm.c:1393-1735 | for every world, arguments and globals, the machine ends in a state (result, globals, echoed values, or failure) if and only if the source call, given enough fuel, does |
| `CompilerCorrectness.DivergenceAgrees` | src/vm.c:1393-1735 | the machine runs for ever if and only if the source call never finishes |
| `StmtCorrectness.StmtRuns` | src/compiler.c:1632-2373 | running any statement's code from the state of a store reaches what executing the statement gives, including `break`, `continue`, return, failure, and running on when the fuel is spent |
| `ExprCorrectness.ExprRuns` | src/compiler.c:616-1262 | running an expression's code, with any values below, pushes its value and changes variables as evaluating it does, or fails exactly when that does; `and`, `or` and `?:` evaluate only what they should |
| `ExprCorrectness.ResolveIsLookup` | src/compiler.c:418-430 | the newest listed local of a name is the innermost open declaration of that name, although locals are numbered by stack height |
| `StmtCorrectness.CasesRun` | src/vm.c:2436-2450 | from the table's target for any value, the body of the last `when` that lists it runs, else the default, else nothing, and control reaches the exit |
| `StmtCorrectness.TableMatches` | src/compiler.c:1926-1955 | the jump table has an entry for a value exactly when some `when` lists it |
| `Balance.BalancedIff` | src/compiler.c:470-584 | for every function without compile errors: there is one stack height per instruction, right on every path, equal to the number of locals at the beginning and end of every statement, with every jump landing on an instruction, if and only if the function is neat |
| `Balance.HeightsExist` | src/compiler.c:470-584 | such a map of heights exists for every accepted function |
| `Balance.RunsBalanced` | src/vm.c:1393-1735 | in every run, after any number of steps, the machine stands on an instruction of the map with exactly its height, and never reads outside code, stack or constants |
| `Balance.StmtHeights` | src/compiler.c:1632-2373 | wherever a statement's code is in place, it starts and ends with one value per local, and so do all statements in it and the places `continue` and `break` lead to |
| `Balance.ContinueLeaks` | src/compiler.c:2351-2362 | for every parameter name: the source of a `while` with `continue` never ends, and its bytes pop the argument, then the callee, and then read below the stack |
| `Heights.StepSafe` | src/vm.c:1616-1735 | the successors computed from the code alone cover every step the machine can take, and none of them reads out of bounds |
| `Tidiness.AcceptedIff` | src/compiler.c:572-584 | a function without compile errors leaves every loop with the stack the loop expects if and only if a count of declarations between each jump and its loop is zero |
| `Tidiness.BreakLeaks` | src/compiler.c:2364-2373 | a function whose source returns 2 and whose compiled code returns the 1 that `break` left behind |
| `Decoding.FlatPatch` | src/compiler.c:141-244 | patching the placeholders of a fragment and patching the list of its decoded instructions are the same, and they fit together |
| `Compiler.SweptRegular` | src/compiler.c:586-600 | the walk, defined on any bytes whatever, makes exactly the right patch on code whose instructions have the operands it counts |
| `Compiler.ParentMethodMisread` | src/compiler.c:167-167 | after the instruction that reads a parent method, a placeholder survives the walk, for every regular code that follows and is itself patched |
| `Compiler.ParentMethodInStep` | src/compiler.c:167-167 | with any instruction of one byte between, the walk is back in step and patches all of the regular code that follows |
| `CodeShape.StmtShape` | src/compiler.c:141-244 | all code emitted for a statement decodes into the instructions meant, and outside loops no placeholder is left |
| `Bytecode.PatchLeavesAlone` | src/compiler.c:586-600 | an enclosing loop never touches code whose placeholders an inner loop has already claimed |
| `Precedence.ParsesIff` | src/compiler.c:1264-1405 | for every token list, the precedence table reads an expression exactly if the layered grammar, with the operators of each layer named, derives it from those tokens and a token that ends it follows |
| `Printing.RoundTrip` | src/compiler.c:1264-1405 | parsing the printed form of any expression, between any tokens, consumes exactly its tokens and gives the expression back |
| `Printing.PrintedIsShortest` | src/compiler.c:1264-1405 | no shorter text reads as the same expression: every pair of parentheses printed is needed |
| `Resolution.Nest.NamedVariable` | src/compiler.c:861-877 | in every nest of functions, the access chosen for a name leads, through the descriptors of all functions between, to the innermost visible declaration of that name, or the name is global; an error if and only if that declaration is in its own initializer or a function between neither captures it yet nor has room to |
| `Resolution.Nest.ResolveUpValue` | src/compiler.c:452-468 | the capture found or added at each level denotes the innermost declaration outside that function; an error exactly as for `NamedVariable`; functions further in are untouched, and all captures there were keep their meaning |
| `Resolution.Nest.AddUpValue` | src/compiler.c:432-450 | the descriptor is found or added, never listed twice; an error if and only if it is new and the table is full |
| `Resolution.CapturesDiffer` | src/compiler.c:432-468 | two captures of one function that lead to the same declaration are the same capture |
| `Resolution.DenotesStays` | src/compiler.c:432-468 | adding captures and marks anywhere in the nest changes the meaning of no capture |
| `Resolution.Nest.EndFunction` | src/compiler.c:1456-1471 | a finished function hands over its captures; every local it captured is marked in the enclosing function |
| `Resolution.Nest.DeclareVariable` | src/compiler.c:484-504 | a new local, unusable yet, unless the name is taken in its scope or the table is full; nothing at depth 0; no capture changes meaning |
| `Resolution.ClosureGetsItsCells` | src/vm.c:1967-2000 | a closure made in a frame that matches the compiler's tables holds, for each capture, the very cell of the declaration it denotes |
| `Resolution.ScopeExitEnabled` | src/compiler.c:556-570 | in a frame whose captured slots the compiler has marked, the instructions that end a scope never pop a captured slot plainly |
| `UpValues.Machine.Execute` | src/vm.c:808-839 | over any run of pushes, pops, local and up-value reads and writes, closures, calls, closes and returns, the linked list of open up-values shows every program the values of shared mutable cells: each read gives the last value written to that variable by anyone |
| `UpValues.Machine.Perform` | src/vm.c:1672-1676 | one step keeps the list, the stack and the heap in agreement with the cells |
| `UpValues.Machine.CaptureUpValue` | src/vm.c:808-830 | the result is the one up-value of that slot's cell, shared if it already existed |
| `UpValues.Machine.CloseUpValues` | src/vm.c:832-839 | afterwards no open up-value is at or above the given slot, and every cell keeps its value |
| `UpValues.OneUpValuePerSlot` | src/vm.c:808-830 | the open list is strictly descending, with one up-value per slot |
| `Collector.Heap.CollectGarbage` | src/memory.c:391-404 | from a valid heap, the objects that stay, in the list and in memory, are exactly those reachable from the roots, in their old order; the string table keeps exactly its reachable keys; all survivors are white again and nothing dangles |
| `Collector.Heap.TraceReferences` | src/memory.c:349-354 | blackening ends, and then exactly the reachable objects are marked |
| `Collector.Heap.MarkRoots` | src/memory.c:320-347 | every root is marked and gray, and nothing unreachable is |
| `Collector.Heap.BlackenObject` | src/memory.c:97-189 | everything the object refers to, whatever its kind, is marked, and whatever was newly marked is gray |
| `Collector.Heap.Sweep` | src/memory.c:356-377 | the intrusive list is left with exactly the marked objects, in order |
| `Collector.Heap.AllocateObject` | src/object.c:12-26 | a new object heads the list, white, and the heap stays valid |
| `Collector.Heap.InternString` | src/object.c:163-176 | a string is put into the string table while it is on the stack; a collection in between takes neither it nor any other string still in memory out of the table |
| `Collector.Heap.Execute` | src/memory.c:391-404 | over any interleaving of allocations, interning, reads of fields and roots, writes, changes of roots and collections, the program sees a memory in which nothing was ever freed, and the string table lists exactly the interned strings still in memory |
| `Collector.RefsAreFields` | src/memory.c:97-189 | what an object refers to, for the collector, is exactly what one of its fields holds |
| `Collector.RootsArePlaces` | src/memory.c:320-347 | and the same for the roots |
| `Table.FindEntry` | src/table.c:41-79 | probing ends, at the key's entry if it is stored and else at the first reusable slot of its probe run |
| `Table.HashTable.Set` | src/table.c:130-148 | the contents become the old map with the key set, across tombstone reuse and resizing; `count` stays live entries plus tombstones and a vacant slot remains |
| `Table.HashTable.Delete` | src/table.c:150-164 | the contents lose exactly that key, which leaves a tombstone |
| `Table.HashTable.AdjustCapacity` | src/table.c:104-128 | rehashing keeps the contents and drops the tombstones |
| `Table.HashTable.AddAll` | src/table.c:166-173 | the contents become the union, the other table's values winning |
| `Table.HashTable.RemoveWhites` | src/table.c:254-261 | exactly the white keys go |
| `Table.Serve` | src/table.c:41-173 | any sequence of set, get, delete and add_all on any number of tables answers as finite maps do |
| `Table.MaskIsMod` | src/table.c:45-52 | masking a hash with a power of two less one is taking it modulo the capacity |
| `Sorting.Lists.Sort` | src/value.c:473-491 | the list, and every list reached from it, becomes a permutation of itself in ascending order: nil, false, true, numbers by value, objects by type, strings and file paths as in the dictionary, lists by their number of elements |
| `Sorting.OrderIsPlain` | src/value.c:422-468 | the order behind the comparison is that plain one, both ways |
| `Sorting.TurnPasses` | src/value.c:473-491 | the invariant of the two full-range loops: what each comparison and exchange makes true of the parts before and after it |
| `Sorting.MaxByOrder` | src/value.c:422-468 | the larger of two values is larger in one order on all values |
| `Sorting.Total` | src/value.c:422-468 | that order is total |
| `Sorting.Transitive` | src/value.c:422-468 | that order is transitive |
| `Json.PassesAgree` | packages/json/json-parser.c:278-935 | from every state between values, if the checking pass accepts the rest of the text then the filling pass, which only skips numbers, makes the same values, texts and keys in the same order |
| `Json.StepProper` | packages/json/json-parser.c:278-935 | every turn of the state machine keeps its nesting proper and moves forward |
| `JsonMemory.Parse` | packages/json/json-parser.c:238-960 | for every text: refused exactly if the checking pass rejects it; else, if no object's entries reach 2^31 bytes, every array, object and string is built to exactly the bytes counted for it, each entry leading to its name and value; else the first object too large decides, by the sign of the size computed for it, between running out of memory and a misplaced block |
| `JsonTrace.CountsRight` | packages/json/json-parser.c:118-208 | the counts of the first pass are the numbers of children, key bytes and text bytes of each value |
| `JsonMembers.NamesAndValues` | packages/json/json-parser.c:405-440 | in every accepted text, the names and values of each object take turns, names first, and none is left over, although only a flag records whose turn it is |
| `JsonMemory.FillingPass` | packages/json/json-parser.c:118-935 | with the counts of the first pass, each write of the second is inside what was allocated, and at the end nothing is missing or over, unless an object is too large for its `int` size |
| `JsonLayout.SafeIff` | packages/json/json-parser.c:123-162 | for every accepted text and every object in it: all bytes written to its block are inside, and none as both entry and name, if and only if its entries take less than 2^31 bytes |
| `JsonLayout.LargeObjects` | packages/json/json-parser.c:154-162 | two texts that are accepted and then misplace their names or run out of memory |
| `JsonBuilt.ReadDocument` | packages/json/json-parser.c:238-960 | for every document of the RFC 8259 grammar, written without white space: refused if and only if a number has a fraction behind a whole part beyond 64 bits or something is too long; built if and only if moreover no object is too large; and the memory built is the document, value by value, name by name, byte by byte |
| `JsonBuilt.ReadString` | packages/json/json-parser.c:296-440 | any bytes at all, quoted by section 7 of RFC 8259, are read back |
| `JsonBuilt.ReadName` | packages/json/json-parser.c:296-440 | and so are they as the name of a member |
| `JsonDocuments.DocRuns` | packages/json/json-parser.c:278-935 | a document as written makes exactly its values, texts, names and members in order, or is refused, exactly when it is not readable |
| `JsonText.TakenAsMeant` | packages/json/json-parser.c:306-393 | a string is taken as section 7 means it, with `\u` escapes as the UTF-8 of section 3 of RFC 3629, if and only if it has no surrogate pair of an even plane |
| `JsonText.WrongPlane` | packages/json/json-parser.c:348-348 | U+20000 is taken for U+10000 |
| `JsonText.LongFraction` | packages/json/json-parser.c:776-810 | a number that is legal and refused |
| `JsonFree.FreeTree` | packages/json/json-parser.c:986-1034 | on every tree with correct parent links, walking without a stack ends and releases the nodes and blocks of the tree in the order of a recursive walk, and nothing else |
| `JsonFree.ReleasedOnce` | packages/json/json-parser.c:986-1034 | in that order nothing is released twice |
| `JsonFree.AllReleased` | packages/json/json-parser.c:986-1034 | every value of the tree is released, and the block of every array, object and text |
| `Pack.Pack` | src/standard/struct.c:255-705 | an error exactly when the format does not fit the arguments or a directive is refused; out of memory exactly when the computed size is the largest int; otherwise the bytes the directives define, every write inside the sized buffer, every returned byte written, no argument past the last read |
| `PackLayout.PackWritten` | src/standard/struct.c:255-705 | any directives, written out as a format, are read back as themselves, and the buffer with its moving cursor comes to the simple meaning: each adds its field, takes bytes away, or cuts or fills up to a length |
| `PackLayout.ValueLaid` | src/standard/struct.c:543-700 | the layout of every code in numbers: how many bytes, in which order, of which remainder |
| `PackLayout.HexLaid` | src/standard/struct.c:505-542 | digit by digit, which half of which byte of a hexadecimal field is its value |
| `PackLayout.TextLaid` | src/standard/struct.c:490-503 | byte by byte, what a text field holds: text, then zeros or spaces, a final zero for `Z` |
| `PackLayout.StarReads` | src/standard/struct.c:313-332 | a star takes the whole text, and its zero for `Z` |
| `Pack.WritesFit` | src/standard/struct.c:400-705 | the writing cursor never passes the sizing cursor, and nothing is written beyond the computed size |
| `Pack.RefusedIff` | src/standard/struct.c:27-33 | a directive is refused exactly when it would move the cursor past the largest int, or is a hexadecimal field of exactly that many digits |
| `Pack.TopOfRange` | src/standard/struct.c:408-480 | the two formats at which int arithmetic overflows |
| `Pack.ReadFormat` | src/standard/struct.c:282-392 | the directives found take no more arguments than there are, or the format is refused |
| `Pack.WriteHex` | src/standard/struct.c:505-542 | digit by digit with an alternating shift, the field of whole bytes is written and nothing around it changes |
| `Unpack.ThereAndBack` | src/standard/struct.c:1018-1097 | for every integer code and every list of integers: whatever `pack` does not refuse `unpack` reads in full, and it is the list if and only if every integer is in the range of the code; `pack` refuses exactly from 2^31 - 1 bytes on |
| `Unpack.ValueRoundTrip` | src/standard/struct.c:142-151 | reading back the bytes of any integer, in any byte order, gives the integer of the code's range with the same low bytes, so the integer itself exactly if it is in range; all 64-bit codes have the range of a long |
| `Unpack.RangeIs` | src/standard/struct.c:1018-1097 | the range of every code in numbers |
| `Unpack.Reverse4` | src/standard/struct.c:52-57 | the shifts and masks reverse the bytes of a 32-bit number |
| `Unpack.Reverse8` | src/standard/struct.c:59-70 | the same for 64 bits |
| `Base64.RoundTrip` | src/standard/base64.c:38-111 | decoding the encoding of any bytes gives them back if and only if there are any; four letters for every group begun; two, one or no padding bytes, at the end only, by the length modulo three; all of it ASCII |
| `Base64.LettersAreStandard` | src/standard/base64.c:1-12 | the letters are those of table 1 of RFC 4648 in its order, and the padding is an equals sign |
| `Base64.Encode` | src/standard/base64.c:38-69 | whole groups and then overwriting the surplus gives the padded encoding |
| `Base64.Decode` | src/standard/base64.c:71-111 | for every text: refused exactly if its length is no multiple of four; out of bounds exactly if it is empty or not ASCII; else the groups' bytes cut at the length the padding says |
| `Utf8.DecodesBack` | src/util.c:82-123 | decoding the encoding of any character, whatever follows it, gives the character |
| `Utf8.Encode` | src/util.c:24-63 | the encoding of section 3 of RFC 3629 for every character, filled from its last byte |
| `Utf8.TextLength` | src/util.c:161-169 | the counted length of a text of nonzero characters is the number of characters |
| `Utf8.CharacterAt` | src/util.c:183-188 | slicing from a character to the next isolates its encoding, and decoding that gives the character |

## Left out

- The compiler stops at its first error; panic mode and `synchronize` (src/compiler.c:2375-2413), which go on to report more errors, produce no code that runs.
- Calls, indexing, property access, anonymous functions, list and dictionary literals, interpolation, `for`, `assert`, `die`, classes and imports are not in the compiled language; what they add is more opcodes of the same shapes.
- `~=` is not in the compiled language: the source emits a unary instruction where a binary one is due (src/compiler.c:786-787). `~` in infix position has a precedence but no rule (src/compiler.c:1313), so the source calls a null pointer where the grammar here reports an error.
- Functions are compiled outside any loop: the innermost loop is a field of the parser, not of the function, so a function declared inside a loop would see that loop.
- Compiled functions capture no variables; captures are modelled in `Resolution` and `UpValues`, where scope exit closes them.
- Compiler.Parser.UsingStatement: the number of cases is unbounded here; the source keeps the places of their jumps in an array of 256 that it does not check (src/compiler.c:1900-1918).
- `try`/`finally`: handler counts are not reset per frame and unwinding does not shorten the stack, so heights are not static there.
- NaN and the difference between 0.0 and -0.0: numbers are reals. `pow`, division, bit operations and string arithmetic are parameters.
- Passing too few or too many arguments to a call (src/vm.c:546-588) and variadic functions: calls here have the right number.
- Outside neat functions `CompilerCorrect` says nothing: a jump that loses the height may never be reached, so the behaviours can still agree.
- `Table.HashTable.Get`: a nil key is never found, as in the source, and the empty value is no key. Adding a table to itself.
- Finding strings by content (`table_find_string`), which stops at tombstones, and so the uniqueness of interned strings.
- The table of modules, whose whites are removed as well; it holds nothing the collector could take.
- What freeing an object does beyond unlinking it (src/memory.c:191-318), and when a collection is triggered: it may happen at any allocation.
- `Sorting.Lists.Sort`: lists that contain themselves, on which the source recurses without end, and the empty value.
- JsonMemory.Parse: stops at an object whose block is misplaced; the bytes written from there on, and what they overwrite, are not followed. Pointers take eight bytes and entries 24.
- JSON: allocation failure other than for a negative size, and the memory limit, the values of numbers, error messages and positions; characters are unsigned. White space between tokens and comments are modelled in `Json` but not in `JsonDocuments`, whose texts have none.
- `pack` and `unpack`: floating-point values are uninterpreted bytes; little-endian hosts only (the tables for 64-bit codes are not set up on others); the codes `X`, `@` and the text codes of `unpack`; the names under which `unpack` files its values; the rounding of a long of more than 53 bits to a number.
- Scanning of source text into tokens, files, sockets, processes, dates, regular expressions and the other library modules.
