# Nasal in Dafny

Nasal is a small language for embedding: a lexer, a parser, a compiler to 16-bit code, a stack
machine, hashes, vectors, strings and a stop-the-world collector in C, with a library partly in Nasal
itself. This project models its algorithms in Dafny and proves what they are for. `dafny verify
dfyconfig.toml` checks everything.

What is modelled, module by module:

- `Values`, `Syntax`, `Semantics`, `Laws`: values and their heap, the expression tree, and a big-step semantics
  with fuel. Evaluation ends with a value, a break or continue aimed at one of the enclosing loops, a
  return, an error, or out of fuel. `Fuel`: more fuel never changes an end.
- `Operators`, `Binding`, `Inheritance`, `Programs`: what the operations that semantics and machine share
  come to, each in terms of its own: operators and containers, the names of a called function,
  members and parents; and what some programs compute on every input.
- `Machine`, `Layout`, `Runs`, `Instructions`: the stack machine as a step function over an operand
  stack and a mark stack, and what code an expression has. `Simulation`, `Correspondence`,
  `Correctness`: the machine does on that code what the semantics says, from any stacks, errors and
  divergence included, and never underflows.
- `Heights`, `Typing`, `StackTyping`: the static operand and mark heights of every instruction, read off
  the layout; emitted code passes the check of them, and every state of every run has them, in the
  running call and in all suspended ones.
- `Stability`, `Codegen`: the code generator as a class over its code buffer, constants and loop stack,
  with its jump patching; what it produces is the code that the machine theorems are about.
  `Interpreter`: the interpreter loop over mutable stacks refines the step function.
- `Scopes`, `Namespaces`, `Symbols`: symbols are looked up by string object first and by text second; for
  which programs that gives the innermost binding by text, and a program for which it does not.
- `Protocol`, `Bottleneck`: the thread protocol around the collector as interleaved steps of any number of threads,
  with the lock and the counting semaphore. `Progress`: a collection always comes, but not every
  thread gets its turn. `Keeping`, `Losing`: which block pointers a thread may keep
  across it. `Marking`, `Pools`, `Collection`: mark and sweep over any
  heap graph, the pool allocator with the slices it hands out, and whole collections.
- `HashTable`: the open-addressed hash, against a finite map.
- `Blocks`, `Precedence`: the block parser and the operator precedence parser on token lists. `Ranks`,
  `Statements`: which operator takes an operand, and braces, structures and semicolons, told by
  the tokens alone.
- `Utf8`: the one to six byte codec (section 2 of RFC 2279).
- `Calendar`: epoch seconds and the proleptic Gregorian calendar.
- `GrowVec`, `Decimal`, `Numerals`, `Notation`: the growable vector with its copying cost, printing of whole
  numbers, the language of numerals with its parser, and the number each numeral stands for.
- `Basics`: what several of them share.

A few readings of the source that the models make explicit:

- A program is a table of functions with their parameter lists; a closure is a function's index and the
  addresses of the namespaces around it. Strings carry which object they are, as far as the lookup can
  tell: the interned symbol, a literal of a function's constants, or made at run time. The generator
  shares constants by text (`src/codegen.c:54-65`), so that a literal before a symbol of the same text
  takes its place, and the lookup by object (`src/code.c:395-412`) then passes the binding over:
  `Symbols.LiteralChangesMeaning`. `Symbols.SameByText` says for which programs it never matters.
- A break outside every loop, more than 65535 words of code and a break in a loop header are not checked
  by the generator; `Syntax.WellFormed` and `Codegen.Fits` exclude them, and `GenProgram` says so.
- In `src/hash.c:153` the shift for a table of size exponent 0 is by -1. The model does not shrink then.
- The comment at `src/gc.c:287-288` aims at a quarter to half of the objects being free after a
  collection. The code hands out the new block only and forgets what had come free until the next one;
  `Pools.Pool.Reap` states what the code does, and `Pools.QuarterOfferedIff` and
  `Pools.HalfOfferedIff` exactly when the two ends of the aim are met.
- `www/doc.html:167-170` promises that the interpreter can be called from many threads without
  corrupting its internals. The hash goes on with the record it has put in place (`src/hash.c:120-121`,
  used at `src/hash.c:141-143` and `src/hash.c:257-269`), and `src/hash.c:159-166` keeps the record over
  an append. If the dead buffer is full at that moment the thread may be put to sleep in between, other
  threads may replace the record again and free it, and the thread goes on with a block that is gone:
  `Losing.NewRecordIsLost` is such a run. `Losing.KeptIff` gives the exact condition under which a
  pointer survives the call, and `Keeping.ReadIsGood` says that reading the target again, as
  `src/vector.c:64` does, is always safe.
- The comment at `src/string.c:162` says that a bare sign is not parsed. The code parses it, and not in
  exponents only: `-+` and `+.` are numbers too. `Numerals.SignedStays` says when the reader of signs
  moves, and `Numerals.BareSignIff` which accepted strings hold a sign without digits.
- The third argument of `utf8.substr` is named as an end and used as a number of characters;
  `Utf8.Substr` follows the code.
- Bit operations of the codec and of the hash are written as division and remainder; the values of a
  byte, a word and a hash code are bounded where that matters. Numbers of the language are `real`:
  rounding is not modelled.

## Model

| member | source | states |
|---|---|---|
| `Correctness.RunMatches` | src/code.c:525-728 | For every program whose code is linked and every amount of fuel: if the evaluation of a function ends, the machine started on its code stops with exactly that value and heap, or that error; if the fuel runs out, the machine is still running after as many steps |
| `Correctness.SameResults` | src/code.c:525-728 | The machine can stop with a result or an error if and only if the source semantics has that result or error |
| `Correctness.SameDivergence` | src/code.c:646-655 | The machine runs forever if and only if no amount of fuel lets the evaluation end |
| `Correctness.NeverStuck` | src/code.c:519-728 | In every run, after any number of steps, no instruction has found too few operands or marks, left its code, missed a constant or met an unknown word |
| `Symbols.SameExpr` | src/code.c:395-412 | In a program in which no literal of a function spells one of its symbols, and no literal key of a call with named arguments a symbol of the program, every evaluation, with any fuel, ends as it ends when symbols are looked up by text alone, heap included |
| `Symbols.SameByText` | src/code.c:525-728 | So the machine, which tries the string object of a symbol first, stops with a result if and only if the program means that result with every symbol its innermost binding by text |
| `Symbols.LiteralChangesMeaning` | src/codegen.c:54-65 | A program for which it does not: the same three functions yield 10 when symbols are looked up by text and 20 when they are looked up as the interpreter does, because a literal comes before the symbol it spells |
| `Symbols.SameNamed` | src/codegen.c:264-283 | The hash that a call with named arguments builds is referred to by nothing but the call, and its entries for symbols are made under the symbols, whatever runs while its values are evaluated |
| `Namespaces.LookupSame` | src/code.c:395-412 | On namespaces that hold symbols under their own objects the pass by object answers what the pass by text answers |
| `Namespaces.EnterCallKeeps` | src/code.c:252-281 | A positional call makes a namespace whose entries are under the symbols, and no value refers to it |
| `Namespaces.EnterNamedSame` | src/code.c:283-304 | A call with named arguments finds its required arguments by object exactly when they are there by text, and turns the hash into a namespace in order |
| `Fuel.MoreExpr` | src/code.c:525-728 | An evaluation that ends within its fuel ends in the same outcome, heap included, with any more of it: for every expression, environment, heap and nest of loops |
| `Fuel.FuelIsOnlyABound` | src/code.c:525-728 | Two evaluations of one expression that both end have the same outcome, whatever fuel each had |
| `StackTyping.StacksAreTyped` | src/code.c:525-728 | Stack typing: after any number of steps of any run of linked code the address is an instruction boundary, and so is the resume address of every suspended caller; the operands of the running call are exactly as many as the layout gives that address, and no fewer than its instruction takes; the marks on the stack are as many as the static marks of the address and of all suspended callers together, those of the running call at their static heights; at a return the call has no mark left |
| `StackTyping.LinkedChecks` | src/codegen.c:285-311 | For every well-formed body and its layout: each word is an instruction or the argument of one, each instruction finds its operands, and every place it can go to has exactly the height it leaves; a return has given back the marks of all loops around it |
| `StackTyping.JumpsLand` | src/codegen.c:285-311 | Every jump in the code of a well-formed body lands on an instruction boundary of the same function, never on an argument, with the marks it left with |
| `StackTyping.StepHolds` | src/code.c:525-728 | Every kind of step keeps the static heights of the running call and of all suspended ones |
| `StackTyping.EnterHolds` | src/code.c:306-343 | A call starts its callee at the height of an empty function and leaves the caller to resume, one value up, at an instruction of that height |
| `StackTyping.MarkHolds` | src/code.c:689-717 | MARK, UNMARK, BREAK and BREAK2 move between marks exactly as the static heights say |
| `Typing.TypeExpr` | src/codegen.c:590-687 | The code of any well-formed expression, entered at any height inside any loops, passes the check of its heights: its net effect is one operand and no mark |
| `Typing.TypeLoop` | src/codegen.c:367-389 | In the loop code a break lands on the exit test and a continue on the continue jump at exactly the heights they leave, and the mark is gone behind the loop |
| `Typing.TypeUnwind` | src/codegen.c:477-497 | The unwinding words of a break or continue go down mark by mark, at any operand height, to the height of the loop meant |
| `Typing.TypeReturn` | src/codegen.c:629-634 | A return inside any nest of loops reaches its RETURN with no mark of the function left |
| `Correspondence.SimExpr` | src/codegen.c:590-687 | Main simulation: from any operand stack, any marks and any callers, the code emitted for an expression ends just past itself with the value pushed and everything beneath unchanged, or leaves as a break, a continue, a return or an error leaves, or runs on for as long as the fuel lasts |
| `Correspondence.SimShort` | src/codegen.c:313-321 | `and`/`or`: the left value is the result when it decides, and the right side is not run |
| `Correspondence.SimCond` | src/codegen.c:324-358 | `if`/`elsif`/`else` and `?:`: exactly one branch runs, and both ends meet with one value |
| `Correspondence.SimPlainAssign` | src/codegen.c:535-559 | An assignment runs its right side before the operands of its target, and its value is what was assigned |
| `Correspondence.SimMultiAssign` | src/codegen.c:535-559 | A list assignment runs the right sides from last to first and then stores from first to last; its value is the last one |
| `Correspondence.SimUnpack` | src/codegen.c:546-554 | Assigning from a vector stores its first elements in order, and fails on a short vector or another value |
| `Correspondence.SimOpAssign` | src/codegen.c:128-146 | `x op= e` reads the target before it evaluates `e`, evaluates the operands of the target once, and stores and yields the combined value |
| `Correspondence.SimWhile` | src/codegen.c:367-401 | A labelled `while` or `for`: any number of iterations, breaks and continues from any depth of the body or the update, ending in nil with the stacks as before |
| `Correspondence.SimLoop` | src/codegen.c:367-389 | One round of a loop, by induction on the fuel: test, body, update, jump back, with the mark kept and the operands cut back to it |
| `Correspondence.SimForEach` | src/codegen.c:437-466 | `foreach` and `forindex`: the elements in order, the size read anew each round, and the vector itself as the value of the loop |
| `Correspondence.SimEach` | src/code.c:467-481 | One round of `foreach`: the next element or index, or the end token when the index is past the end |
| `Correspondence.SimBreak` | src/codegen.c:477-497 | A break, with or without a label, from inside any expression and any inner loops: the marks of the inner loops are dropped, the operands cut back to the height of its loop, and the loop left through its exit test by the end token |
| `Correspondence.SimContinue` | src/codegen.c:477-497 | A continue: the same unwinding, then on to the update and the next test |
| `Correspondence.UnwindRuns` | src/code.c:712-717 | A row of BREAK2 and a BREAK drops just the marks of the inner loops and restores the operand height of the loop meant |
| `Correspondence.SimReturn` | src/codegen.c:629-634 | A return from inside any nest of loops leaves the marks exactly as they were when the function was entered |
| `Correspondence.UnmarkRuns` | src/codegen.c:632-633 | A row of UNMARK drops one mark for each enclosing loop and nothing else |
| `Correspondence.SimInvoke` | src/code.c:306-343 | A call: the callee runs in its own frame, and on return the caller goes on with the operands below the call, its marks and its frame untouched and the result pushed |
| `Correspondence.SimCall` | src/codegen.c:264-283 | A positional call evaluates the function and then the arguments from left to right |
| `Correspondence.SimMethodCall` | src/codegen.c:264-283 | A method call evaluates the object once and binds it to `me` |
| `Correspondence.SimNamedCall` | src/codegen.c:264-283 | A call with named arguments takes the given hash as the namespace of the callee |
| `Correspondence.SimNamedMethodCall` | src/codegen.c:264-283 | The same for a method, with `me` bound |
| `Correspondence.SimHashAppend` | src/codegen.c:232-253 | A hash literal enters its keys in order, a later one over an earlier |
| `Correspondence.SimMember` | src/codegen.c:657-662 | Member access, with the search through `parents` |
| `Correspondence.SimList` | src/codegen.c:217-230 | Arguments and elements are pushed from left to right |
| `Correspondence.SimReverse` | src/codegen.c:520-525 | The right sides of a list assignment are pushed from right to left |
| `Simulation.Compose` | src/code.c:525-728 | A part that ends as its evaluation does, run inside a larger one with more operands and marks, makes the larger one end as its own evaluation does |
| `Laws.ForEachYieldsItsVector` | src/codegen.c:463-465 | A `foreach` or `forindex` that completes, by running out or by a break, has the value of the vector expression of its header |
| `Laws.LoopYieldsNil` | src/codegen.c:387-388 | A `while` or `for` that completes has the value nil |
| `Laws.AssignYieldsFirstValue` | src/codegen.c:542-554 | A list assignment has the value that its last target got |
| `Laws.OpAssignReadsFirst` | src/codegen.c:128-146 | `x op= e` combines the value of `x` from before `e` ran with the value of `e` |
| `Laws.InnermostLoopIsMeant` | src/codegen.c:479-491 | A break or continue without a label is bound for the innermost loop around it, and is well formed exactly when the body or update of that loop has been entered |
| `Laws.LabelledLoopIsMeant` | src/codegen.c:480-489 | With a label it is bound for the innermost loop of that label, whatever labels the loops further out have |
| `Laws.NoLoopIsMeant` | src/codegen.c:480-489 | Outside every loop, or with a label of no loop around, it is an error and not well formed |
| `Programs.BreakLeavesInnerLoop` | src/codegen.c:477-497 | `while(1) { while(1) { break; } return 5; }` returns 5 |
| `Programs.BreakLeavesLabelledLoop` | src/codegen.c:477-497 | `while(name; 1) { while(1) { break name; } return 5; }` comes to its end without returning |
| `Programs.MachineLeavesInnerLoop` | src/code.c:525-728 | The machine running the compiled form of the first of these programs stops with 5 |
| `Programs.LoopAddsUp` | src/codegen.c:437-466 | `foreach(var x; v) s += x` adds up the elements of any vector of numbers, and `forindex` its indices; the last one is left in `x` and no other variable or object changes |
| `Programs.LoopCounts` | src/codegen.c:391-401 | `for(; i < n; i += 1) { if(i == k) continue; s += i; }` adds up the numbers below `n` without `k`, and with `break` those below `n` and `k`, for every `n` and `k` |
| `Programs.CallSubtracts` | src/code.c:261-263 | `func(x, y) { x - y }` called with two numbers yields the first less the second |
| `Programs.ComputesFactorial` | src/code.c:306-343 | `f = func(n) { n < 2 ? 1 : n * f(n - 1) }` called with any natural number yields its factorial, through as many nested calls |
| `Programs.ClosureCounts` | src/code.c:369-375 | A function made and called inside a namespace reads and assigns the variables of it: `func { x += 1 }` counts `x` up |
| `Programs.MethodSeesMe` | src/code.c:335-335 | A function called as a member of an object, its own or inherited, finds the object as `me` |
| `Programs.ListAssignmentSwaps` | src/codegen.c:535-559 | `(x, y) = (y, x)` exchanges two variables and changes nothing else |
| `Programs.UnpackingBinds` | src/codegen.c:546-554 | `(var x, var y) = v` takes the first two elements of a vector in order |
| `Programs.ShortCircuits` | src/codegen.c:313-321 | `and` yields the left value when it is false and `or` when it is true, without running the right side, and the right value otherwise |
| `Operators.OnNumbers` | src/code.c:548-565 | The arithmetic and comparison operators on two numbers, one by one; a comparison is 1 or 0, and division by zero is what the host says |
| `Operators.OnTexts` | src/code.c:71-80 | A string that spells a number acts as that number under every arithmetic operator, and any other operand is an error |
| `Operators.EqualIff` | src/misc.c:156-178 | Equal are a value and itself, strings of one text, and whatever stands for the same number |
| `Operators.EqualIsEquivalence` | src/misc.c:156-178 | Equality is reflexive, symmetric and transitive, numeric strings included |
| `Operators.TruthIff` | src/code.c:57-69 | False are nil, the end token, the empty string and zero, also when a string spells it; other numbers and strings are true, and a container or function is an error |
| `Operators.ElementAt` | src/code.c:110-123 | Indexing a vector or a string picks the element at the index truncated toward zero, counted from the back below zero |
| `Operators.GetFailsIff` | src/code.c:90-123 | Indexing fails for a key that is no number or string, for what is no container, and for an index of less than minus the size or not less than the size, and only then |
| `Operators.GetAfterSet` | src/code.c:125-135 | What was stored under a key or index is read back, and no other element, key or object changes |
| `Operators.KeysAreTexts` | src/code.c:110-135 | In a hash all strings of one text are one key; a number and a string are never the same key |
| `Operators.Joins` | src/code.c:351-365 | `~` joins two vectors into a new one, element by element, and numbers and strings into a new string; anything else is an error |
| `Operators.UnpacksInOrder` | src/code.c:483-489 | Unpacking leaves the first elements of a vector with the first one on top, and fails exactly for a shorter vector or another value |
| `Inheritance.MemberOfFamily` | src/code.c:435-459 | Among objects with fewer than 64 generations of parents a member is the one of the first object in line that has it: the object itself, then all of its first parent and what that inherits, then the second; and it is missing exactly when none in line has it |
| `Inheritance.OwnParentIsEndless` | src/code.c:435-451 | An object that is its own first parent is searched until the limit of 64 ends it with an error |
| `Inheritance.NoMembers` | src/code.c:435-459 | What is no object has no members, and the errors for parents that are missing or no vector |
| `Inheritance.SetsOwn` | src/code.c:625-629 | Assigning to a member sets the object's own, whatever its parents have, and changes nothing else |
| `Binding.CallFailsIff` | src/code.c:258-260 | A positional call fails exactly when the value is no closure or there are fewer arguments than required parameters |
| `Binding.CallStarts` | src/code.c:306-343 | It starts the code of the closure in a new namespace inside the namespaces of the closure, and changes no object that was there |
| `Binding.CallBinds` | src/code.c:261-272 | In the new namespace every required parameter holds the argument in its place, and every optional one its argument if there is one and its default otherwise |
| `Binding.CallCollects` | src/code.c:274-280 | The arguments left over are in a new vector under the last name, which is there exactly when the function declares it or there are any |
| `Binding.CallBindsMe` | src/code.c:329-335 | A method call binds `me` to its object, and nothing but `me` and the parameters is bound |
| `Binding.NamedFailsIff` | src/code.c:283-291 | A call with named arguments fails exactly when the value is no closure, the arguments are no hash, or a required one is not given under its own object |
| `Binding.NamedBinds` | src/code.c:283-304 | It runs in the hash it was given: `me` and the given entries stay, an optional parameter not given has its default, the rest is an empty vector if declared, and nothing else is bound or changed |
| `Codegen.CodeGenerator.GenExpr` | src/codegen.c:590-687 | Generating an expression appends its code, changes nothing before it, leaves the loop stack as it was, and for a well-formed expression that fits 16-bit addresses the words are the layout that the simulation is proved for; it fails only for an ill-formed expression or too many constants |
| `Codegen.CodeGenerator.GenLoop` | src/codegen.c:367-389 | The loop code with its jump over the continue slot, the patched continue, the jump back and the patched exit |
| `Codegen.CodeGenerator.GenForWhile` | src/codegen.c:391-401 | The header of a `while` or `for` before the loop code |
| `Codegen.CodeGenerator.GenForEach` | src/codegen.c:437-466 | The code of `foreach` and `forindex`, with the two pops that leave the vector |
| `Codegen.CodeGenerator.GenBreakContinue` | src/codegen.c:477-497 | Without a label: one BREAK and a jump to the exit, with an end token, or to the continue slot of the last entry of the loop stack. With a label: a BREAK2 for each loop inside the last entry of that label, a BREAK, and the jump to that entry; an error exactly when no entry has the label |
| `Codegen.CodeGenerator.GenReturn` | src/codegen.c:629-634 | The value, one UNMARK for each loop on the loop stack, and RETURN |
| `Codegen.CodeGenerator.GenEqOp` | src/codegen.c:128-146 | Target, load, right side, operator, exchange, store |
| `Codegen.CodeGenerator.GenMultiAssign` | src/codegen.c:535-559 | Right sides in reverse, targets in order, or an error when the counts differ |
| `Codegen.CodeGenerator.GenUnpack` | src/codegen.c:546-554 | Right side, UNPACK with the number of targets, targets in order |
| `Codegen.CodeGenerator.GenShortCircuit` | src/codegen.c:313-321 | The code of `and` and `or` with its one patched jump |
| `Codegen.CodeGenerator.GenIf` | src/codegen.c:324-339 | The code of a conditional with its two patched jumps |
| `Codegen.CodeGenerator.GenMethodCall` | src/codegen.c:264-283 | The code of a method call |
| `Codegen.CodeGenerator.GenUnary` | src/codegen.c:635-656 | NOT and NEG; a minus sign is folded into the number it stands before, but after another operator it is a NEG behind the constant |
| `Codegen.CodeGenerator.Emit` | src/codegen.c:17-27 | The buffer grows by the value cut to 16 bits |
| `Codegen.CodeGenerator.EmitJump` | src/codegen.c:298-305 | A jump with a dummy address, and where the address is |
| `Codegen.CodeGenerator.FixJumpTarget` | src/codegen.c:308-311 | One earlier word becomes the current end of the code, and no other changes |
| `Codegen.CodeGenerator.InternConstant` | src/codegen.c:44-65 | The index found or made holds the constant, earlier constants keep their index, and only more than 65536 of them fail; of one text only the first object is kept, so that a symbol may get the object of an earlier literal |
| `Codegen.GenCode` | src/codegen.c:702-721 | The code of a whole function body ends in RETURN; it is what the machine theorems ask for whenever the body is well formed and the code fits |
| `Codegen.GenProgram` | src/codegen.c:702-760 | Compiling every function of a program gives an image linked to it, so that the theorems about runs hold of what the generator produced; the image tells which string object each function has for each text, and that is the symbol unless one of the literals of the function spells it |
| `Codegen.PoolShares` | src/codegen.c:54-91 | The strings of a constant pool have different texts, so each text has one object in a function: the interned symbol for every text that no literal of the function spells |
| `Codegen.InternParams` | src/codegen.c:725-740 | The parameters are entered behind the constants of the body and leave its code as it is |
| `Codegen.Kept` | src/codegen.c:298-311 | Code emitted for a part is still its code after more is appended and jumps outside it are patched |
| `Stability.Stable` | src/codegen.c:308-311 | The layout of any expression depends only on its own words and the constants they name |
| `Interpreter.Context.Turn` | src/code.c:537-726 | One turn of the interpreter loop over its mutable stacks is the step of the machine |
| `Interpreter.Context.Run` | src/code.c:525-728 | The loop as a whole, followed for any number of turns, takes just the steps of the machine, until it stops or as far as the number goes |
| `Codegen.CodeGenerator.GenExprList` | src/codegen.c:689-700 | Statements in order, each value but the last dropped |
| `Interpreter.Context.SetupFuncall` | src/code.c:306-343 | Entering a function pushes its frame and cuts the operands, or reports the error |
| `Interpreter.Context.EvalEach` | src/code.c:470-481 | The mutable form of EACH and INDEX |
| `Interpreter.Context.DoMark` | src/code.c:704-717 | The mutable form of MARK, UNMARK, BREAK and BREAK2 |
| `Scopes.GetLocal` | src/code.c:395-412 | The lookup by identity and then by text finds what the two passes describe |
| `Scopes.GetLocal2` | src/code.c:377-393 | The lookup by text finds the innermost binding |
| `Scopes.SetSymbol` | src/code.c:414-429 | Assignment changes the innermost binding, or makes one in the locals |
| `Scopes.FastPathAgrees` | src/code.c:395-412 | With interned keys the pass by identity never changes the answer; nor does it when the two passes meet the same hash or the first finds nothing |
| `Scopes.FastPathCanMiss` | src/codegen.c:54-65 | A concrete chain where a key entered under a literal of the same text is passed over and the outer value is found |
| `Scopes.FastPathMissesIff` | src/code.c:395-412 | The answer differs exactly when a binding under another object lies inside the first one under the own object of the symbol |
| `Scopes.AssignedIsFound` | src/code.c:422-429 | After an assignment the symbol has the new value and every other symbol its old one, in both kinds of lookup when symbols are interned |
| `Scopes.MachineLooksUp` | src/code.c:395-412 | The lookup of OP_LOCAL, in the machine and in the semantics, answers what the two passes find on the namespaces of the call |
| `Scopes.MachineAssigns` | src/code.c:422-429 | The assignment of OP_SETSYM changes the namespaces of the call as the chain is changed |
| `Bottleneck.Exclusion` | src/gc.c:100-119 | In every run of any number of threads, while one frees dead blocks or collects, every other holder of the mod lock is parked between counting itself in and out, the collector owns the lock, and no step of another holder leaves the parked state |
| `Bottleneck.NoLostWakeup` | src/gc.c:104-119 | In every reachable state: with the bottleneck off there is a semaphore token for every sleeper, and when all holders sleep there is a token |
| `Bottleneck.NoDeadlock` | src/gc.c:79-124 | As long as a thread is inside the protocol, some thread inside it can take a step |
| `Bottleneck.AllAsleepResolves` | src/gc.c:87-119 | When all lock holders wait, at most three steps of one of them lead to a collection |
| `Progress.AlwaysCollects` | src/gc.c:87-124 | A bottleneck that is on leads to a collection in every run of any number of threads, however they are scheduled: as long as nobody collects there are only boundedly many steps, and three more for each step a thread takes about its own work |
| `Progress.PathRests` | src/gc.c:100-124 | The bound: while the bottleneck is on and nobody collects, every step of the protocol brings the threads nearer to sleep, and each token lets one of them go round once more |
| `Progress.SleepsAgainIff` | src/gc.c:104-108 | In every reachable state a waiter that has the lock again sleeps once more if and only if the bottleneck is on and some other holder is not parked; otherwise it returns or collects |
| `Progress.FairButStarved` | src/gc.c:100-119 | Fair scheduling does not give every thread its turn: a run of three threads without end in which all of them move again and again, and one stays inside `bottleneck` for good without ever collecting |
| `Bottleneck.FreedOnce` | src/gc.c:297-318 | In every run each block is in exactly one place, in its target, in the hand of one thread, in the dead buffer or freed; none is freed twice, the buffer never overflows, and what is in place in a target is neither dead nor freed |
| `Bottleneck.BlockAges` | src/gc.c:297-318 | Along any path a block once out of its target is never put in place again, so it is replaced at most once; once dead it stays so until it is freed; and what is freed stays freed |
| `Keeping.ReadIsGood` | src/gc.c:100-124 | A block that was in place when a thread read its target is not freed before that thread itself waits or collects in the bottleneck; re-reading the target, as the vector does after it grew, is therefore always safe |
| `Losing.KeptIff` | src/hash.c:104-144 | The exact condition for a pointer kept over a replacement, for every reachable state, any number of threads and any block: whatever the others do, it is still good when the call returns if and only if, when the call takes the lock, the dead buffer has room, or the block is the one replaced, or all other holders already wait and the block is not dead yet |
| `Losing.NewRecordIsLost` | src/hash.c:104-122 | A whole run of two threads in which the record that `resize` has put in place and is about to return is freed before the call returns |
| `Keeping.GuardedIsKept` | src/gc.c:309-318 | When the guard holds the block outlives the call on every path |
| `Losing.UnguardedIsLost` | src/gc.c:309-318 | When the guard fails the other threads can always go on so that the block is freed before the call returns |
| `Losing.LosesAsleep` | src/gc.c:100-119 | From every reachable state in which the replacing thread sleeps, the others can bring about that any block but the one it carries is freed before it returns |
| `Bottleneck.RunInv` | src/gc.c:79-124 | The invariant of the protocol holds in every state of every run |
| `Protocol.StepKeepsThreads` | src/gc.c:79-124 | Every kind of step keeps the counts, the lock, the tokens and the solitude of the collector |
| `Protocol.StepKeepsBlocks` | src/gc.c:309-318 | Every kind of step keeps every block in one place; that a swap replaces what nobody has replaced before is proved, not assumed |
| `Protocol.CollectorIsAlone` | src/gc.c:113-118 | A thread that collects is the only holder that is not parked |
| `Marking.LiveIsHeld` | src/gc.c:216-249 | What is reached from the roots is what a chain of fields leads to: the code, the namespace and the enclosing closure of a function, the source file and the constants of a code object, the elements of a vector, and the keys and values of the cells of a hash that are in use |
| `Marking.FollowsFields` | src/gc.c:226-249 | The collector follows the references in these fields and no others |
| `Marking.MarkRoots` | src/gc.c:36-61 | On any heap, cycles included, marking ends, changes nothing but marks, and marks exactly what a chain of fields leads to from a root; so every field of a marked object is marked, the enclosing closure of a function among them |
| `Marking.Mark` | src/gc.c:225-250 | The recursive walk keeps its invariant and marks what it is given |
| `Marking.MarkContent` | src/gc.c:236-249 | The walk through one object follows every reference of its kind |
| `Marking.MarkHash` | src/hash.c:168-177 | The walk through a hash follows keys and values of used cells |
| `Marking.ReachedInside` | src/gc.c:225-250 | Whatever is reached lies in every set that holds the roots and is closed under references |
| `Marking.LiveIsClosed` | src/gc.c:225-250 | The reachable objects hold the roots and are closed under references |
| `Pools.Pool.NewBlock` | src/gc.c:150-173 | A new block of zeroed objects, a new frame behind the used part of the buffer with as many of them as it holds, and the used part untouched |
| `Pools.Pool.Take` | src/gc.c:205-209 | A slice from the top of the frame, at least one object when any is asked for, disjoint from every slice handed out before; when the frame is used up, a block of an eighth of the pool is made first, of at least 32 objects |
| `Pools.Pool.HandedOutOnce` | src/gc.c:194-212 | No object is in two slices or in a slice and the frame, and none was kept by the last collection |
| `Pools.Pool.FrameIsUnused` | src/gc.c:194-212 | What is still to be handed out was neither kept nor handed out |
| `Pools.Pool.Visit` | src/gc.c:275-280 | One element of the sweep |
| `Pools.Pool.Sweep` | src/gc.c:274-280 | The sweep puts exactly the unmarked objects on the free list, in the order of the blocks, cleans them, leaves the others alone and clears every mark |
| `Pools.Pool.Reap` | src/gc.c:259-296 | The whole sweep of a pool: the free buffer holds exactly the unmarked objects and new ones, every mark is clear, the kept objects are untouched, there is room for the next request, and the size of a new block follows from what came free |
| `Pools.QuarterOfferedIff` | src/gc.c:287-295 | The comment aims at a quarter to a half of the objects being available after a collection. At least a quarter is on offer exactly when: a block is made, which is when less than a quarter, rounded down, came free, and the pool has at most 96 objects or about a ninth of it, at most, had come free; or no block is made and a quarter, rounded up, came free |
| `Pools.HalfOfferedIff` | src/gc.c:287-295 | At most half is on offer exactly when a block is made and the pool has at least 32 objects, or none is made and at most half came free |
| `Pools.SiftExact` | src/gc.c:274-280 | The freed row holds each unmarked object once and nothing else |
| `Pools.Pool.PoolSize` | src/gc.c:186-192 | The number of objects of a pool |
| `Pools.DistinctCount` | src/gc.c:186-192 | The blocks hold as many objects as places |
| `Collection.Collector.constructor` | src/code.c:163-176 | When the interpreter starts there are seven pools, one a kind, without objects, apart from each other, and the heap is ready for any allocation or collection |
| `Collection.Collector.Collect` | src/gc.c:36-77 | A collection keeps in use exactly what a chain of fields leads to from a root, as it was; every other object has let go of what it held, but for the fields of a function and the source file of a code object. It clears every mark, leaves room in every pool, resets the allocation count to half the objects, and leaves a heap from which the next one can start |
| `Collection.Collector.Engage` | src/gc.c:199-202 | The waiting loop of an allocation ends after one collection of its own |
| `Collection.Collector.Get` | src/gc.c:194-212 | An allocation hands out at least one object when any is asked for, from no earlier slice and none that the last collection kept; after a collection what it kept is what the roots reached |
| `Collection.Collector.ReachableIsNotHandedOut` | src/gc.c:194-212 | While roots and objects in use refer only to objects in use, nothing reachable is ever handed out again |
| `Collection.Collector.CollectedIsInUse` | src/gc.c:36-64 | Right after a collection the objects in use are exactly the reachable ones |
| `Collection.Collector.CollectedIsReady` | src/gc.c:36-77 | After a collection the heap is closed and unmarked again |
| `HashTable.ProbeCovers` | src/hash.c:77-82 | The odd step visits every cell of the table |
| `HashTable.OddInverse` | src/hash.c:77-78 | An odd step has an inverse modulo every power of two |
| `HashTable.ProbeIsLinear` | src/hash.c:77-79 | The cell of the nth probe |
| `HashTable.EmptyAhead` | src/hash.c:75-82 | At most half the cells are in use, so every probe sequence meets an empty one |
| `HashTable.Passes` | src/hash.c:79-81 | A probe that passes a used cell has not passed the key |
| `HashTable.StopsAtEmpty` | src/hash.c:79-81 | A probe sequence that meets an empty cell has shown the key absent |
| `HashTable.PutNew` | src/hash.c:84-95 | Entering a new key keeps the table a picture of the map with the key added |
| `HashTable.PutOld` | src/hash.c:94-94 | Replacing a value keeps it a picture of the map with the value replaced |
| `HashTable.Drop` | src/hash.c:150-152 | A tombstone keeps every other probe path, and the map without the key |
| `HashTable.HashRec.FindCell` | src/hash.c:75-82 | The search ends at the cell of the key, or at the first empty cell of its probe sequence when it is absent |
| `HashTable.HashRec.HashSet` | src/hash.c:84-95 | Setting changes the map at one key; the overrun exit is never taken |
| `HashTable.HashRec.LiveKeys` | src/hash.c:159-166 | The live keys, each once |
| `HashTable.HashRec.FindSym` | src/hash.c:231-246 | The search for an interned symbol ends with its value or its absence |
| `HashTable.HashRec.FindEmpty` | src/hash.c:263-264 | The search for a free cell ends |
| `HashTable.BitLengthFits` | src/hash.c:107-111 | The table size of a resize exceeds the number of live entries and is at most twice that |
| `HashTable.CopiesCell` | src/hash.c:117-119 | One cell of a resize copies its live entry and nothing else |
| `HashTable.HashObject.SizeFor` | src/hash.c:107-111 | The halving loop computes the bit length of the number of live entries |
| `HashTable.HashObject.Resize` | src/hash.c:104-122 | Resizing keeps the map, drops the tombstones and leaves room for another entry |
| `HashTable.HashObject.Get` | src/hash.c:126-136 | Lookup in the map |
| `HashTable.HashObject.Set` | src/hash.c:138-144 | Update of the map, across any resizing |
| `HashTable.HashObject.Delete` | src/hash.c:146-157 | Removal from the map, across any shrinking |
| `HashTable.HashObject.TrySet` | src/hash.c:210-218 | Update of a key that is there, and whether it was |
| `HashTable.HashObject.Sym` | src/hash.c:231-246 | Lookup of an interned symbol in the map |
| `HashTable.HashObject.NewSym` | src/hash.c:252-270 | Update of the map at a symbol that is absent |
| `HashTable.HashObject.Keys` | src/hash.c:159-166 | Every key of the map, each once, and their number |
| `HashTable.HashObject.Size` | src/hash.c:124-124 | The number of entries of the map |
| `HashTable.Run` | src/hash.c:124-271 | Any run of set, get, set-if-there, delete, symbol lookup, symbol entry, keys and size on a fresh hash, under any hash function, leaves what it would leave of a finite map, and every answer is the answer there |
| `Precedence.StepBackSplits` | src/parse.c:314-321 | Stepping back from the dot to the call level always splits at once |
| `Precedence.Pad` | src/parse.c:301-312 | Padding adds no counted token, so that the parser ends, and leaves no separator at an end |
| `Precedence.Conserves` | src/parse.c:267-401 | Whatever the parser accepts, its tree holds exactly the tokens of the list in their order, with only empty tokens added |
| `Precedence.ParseOrders` | src/parse.c:9-29 | Every tree of the parser nests its operators by level, left-associative ones with equals on the left only and right-associative ones on the right only |
| `Precedence.Reparses` | src/parse.c:267-401 | Parsing the tokens of a tree that the parser made gives that tree again |
| `Precedence.GrammarRoundTrip` | src/parse.c:267-401 | Every tree of the operator grammar, printed and parsed, comes back, from any level it fits |
| `Precedence.GrammarIsUnambiguous` | src/parse.c:9-29 | No two trees of the grammar print alike |
| `Precedence.OrderedIsParse` | src/parse.c:347-379 | Every tree that obeys the levels and associativity of the table and holds the tokens of a list of atoms with infix operators between them is the parse of that list: such a tree is unique |
| `Precedence.AlternatingParses` | src/parse.c:347-379 | Every list of atoms with infix operators between them parses, into a tree of exactly its tokens |
| `Precedence.SplitsAgain` | src/parse.c:347-379 | Put together again, the sides of a split are split at the same operator |
| `Precedence.GrammarIsTight` | src/parse.c:9-29 | A tree of a level shows no looser operator that could be split off before its own |
| `Precedence.ParseSpreads` | src/parse.c:301-312 | Parsing moves no token to an end of its list and brings nothing but empty tokens inside |
| `Precedence.ParsePrecedence` | src/parse.c:267-401 | The recursive parser computes the specification, errors included, and ends |
| `Precedence.Scan` | src/parse.c:322-380 | The scanning loops find the operator that each rule means |
| `Precedence.PrecBlock` | src/parse.c:248-261 | The parts of a block structure are parsed one by one |
| `Precedence.ParseSides` | src/parse.c:325-379 | Each rule parses its sides at the right levels and keeps them in order |
| `Ranks.TwoOperators` | src/parse.c:9-29 | `a op b op c`, for every two infix operators: the second takes `b` if it is the tighter one in the order separators, assignments, `?:`, `or`, `and`, equality, comparison, sum, product, dot, or if both are of one of the first three ranks; otherwise the first does |
| `Ranks.ParsesByRank` | src/parse.c:9-29 | Any row of atoms and infix operators has exactly one parse: the tree of its tokens in which every operator has tighter ones below it, or equal ones on the side from which its rank groups |
| `Ranks.PrefixBefore` | src/parse.c:9-29 | `p a op b`: a sign is applied to `a` alone unless the operator is a dot, `var` when it is `?:`, an assignment or a separator, and `return`, `break` and `continue` when it is a separator; otherwise the prefix operator is applied to the whole rest |
| `Ranks.PrefixBehind` | src/parse.c:9-29 | `a op p b` parses exactly when the prefix operator is the tighter one in this sense, and then the operator takes the prefixed operand |
| `Ranks.CallBehind` | src/parse.c:314-345 | `a op f(x)`: the call is made first and is the right operand, except that a dot finds the function first |
| `Ranks.CallBefore` | src/parse.c:314-345 | `f(x) op b`: the call is the left operand of every operator, a dot too |
| `Ranks.CallUnderPrefix` | src/parse.c:325-345 | `p f(x)`: a prefix operator is applied to what the call gives |
| `Ranks.CallOfCall` | src/parse.c:336-345 | `f(x)(y)`: calls and subscripts are applied from left to right |
| `Ranks.EllipsisBehind` | src/parse.c:336-345 | `a op b...`: the ellipsis is for all that stands before it up to a separator |
| `Ranks.NothingBehind` | src/parse.c:263-312 | `a op`: behind a semicolon, a comma or a colon the missing operand is empty, and any other operator is a parse error |
| `Ranks.NothingBefore` | src/parse.c:263-312 | `op b`: the same in front, where a minus is a sign |
| `Statements.BracesMatch` | src/parse.c:160-190 | The braces of every accepted program match, kind by kind |
| `Statements.StructureIsWellMade` | src/parse.c:192-225 | Every structure has just the parts of its kind: a loop or `elsif` a header and a body, an `else` a body, a function maybe parameters and a body, an `if` a header, a body, `elsif`s and maybe one `else` at the end |
| `Statements.StatementsArePunctuated` | src/parse.c:140-177 | In every block a semicolon stands behind each loop, each `if` at the start of a statement and each assigned function that is not its last token, and the parser put one in nowhere else and never before another one |
| `Blocks.ProgramKeepsTokens` | src/parse.c:403-447 | From the list of the lexer to the tree: every accepted program keeps its tokens in their order; the two parsers together add and drop only semicolons, empty tokens and the braces of braceless bodies, and the operators of the tree nest by level |
| `Blocks.BlockKeeps` | src/parse.c:160-177 | A block takes its tokens up to its end, which it drops; with its closing brace it shows what it took |
| `Blocks.TokenKeeps` | src/parse.c:181-227 | A token with its inside shows what it took of the list |
| `Blocks.BlockoidKeeps` | src/parse.c:192-225 | Header, body and alternatives of a block structure show what they took |
| `Blocks.ChainKeeps` | src/parse.c:213-218 | The alternatives of an `if` show what they took |
| `Blocks.BlockIsClean` | src/parse.c:160-177 | What the block parser leaves has tokens inside braces and block structures only, and inside a structure only braces and structures, as the precedence parser expects |
| `Blocks.CleanIsNested` | src/parse.c:241-261 | Such tokens meet what the conservation of the precedence parser asks for |
| `Blocks.BuildBlock` | src/parse.c:160-177 | The block loop computes the specification, errors included, and ends |
| `Blocks.BuildToken` | src/parse.c:181-227 | The same for a token |
| `Blocks.BuildBlockoid` | src/parse.c:192-225 | The same for a block structure, with the check of its header |
| `Blocks.BuildChain` | src/parse.c:213-218 | The loop over the alternatives |
| `Utf8.ReadsWhatIsWritten` | src/utf8lib.c:18-48 | For every character below 2^31, reading its bytes gives it back with its length, whatever follows |
| `Utf8.WritesForm` | src/utf8lib.c:5-28 | Every character is written in the row of the table in section 2 of RFC 2279 for its size: so many leading ones in the first byte, six bits in each of the others, the highest first |
| `Utf8.ReadsForm` | src/utf8lib.c:30-48 | A character is read from the front of some bytes exactly where that form of it stands |
| `Utf8.ReadsBackIff` | src/utf8lib.c:6-15 | A written value reads back if and only if it is below 2^31 |
| `Utf8.WritesWhatIsRead` | src/utf8lib.c:31-48 | Writing a character that was read gives exactly the bytes read, so overlong forms are never read |
| `Utf8.ValidIsWritten` | src/utf8lib.c:75-89 | A text is valid if and only if it is the written form of its characters |
| `Utf8.WriteC` | src/utf8lib.c:18-28 | The bytes of a character at their place, nothing else written, and nothing at all without space |
| `Utf8.ReadC` | src/utf8lib.c:31-48 | The character at the front of the bytes, or an error |
| `Utf8.NthChar` | src/utf8lib.c:54-62 | In any bytes: the offset behind the first n characters, the end of a shorter valid text, or an error if a malformed byte comes before either |
| `Utf8.FrontIsWritten` | src/utf8lib.c:54-62 | The characters before the first malformed byte are written in the first bytes, and a text is valid just when they are all of it |
| `Utf8.Size` | src/utf8lib.c:75-89 | The number of characters of a valid text, and an error for every other |
| `Utf8.StrC` | src/utf8lib.c:91-103 | In any bytes: the character at an index, if it comes before the end and the first malformed byte, and an error otherwise |
| `Utf8.Substr` | src/utf8lib.c:105-123 | Of a valid text the written form of the characters from a start on, as many as asked for; of any bytes what lies between the two places skipped to, or an error |
| `Utf8.Validate` | src/utf8lib.c:125-148 | Any bytes and any replacement give the repaired text within six bytes for each; it is valid if and only if the bytes were or the replacement is below 2^31, and a valid text stays as it is |
| `Utf8.WrittenIsValidIff` | src/utf8lib.c:18-48 | Written values are a valid text if and only if each is below 2^31 |
| `Utf8.RepairOfValid` | src/utf8lib.c:125-148 | Repairing leaves a valid text alone |
| `Utf8.TailOfFold` | src/utf8lib.c:43-46 | The continuation bytes of a character that was read are the ones it would be written with |
| `Utf8.FoldOfTail` | src/utf8lib.c:22-26 | Reading the continuation bytes back gives the bits that were written |
| `Utf8.HeadFits` | src/utf8lib.c:26-26 | What is left for the first byte fits the bits below its length mark |
| `Calendar.YearLength` | lib/time.nas:31-43 | The closed formula for days and the rule for leap years agree, and a year has the days of its months |
| `Calendar.EpochCountsDays` | lib/time.nas:49-59 | 1970 starts the epoch on a Thursday, and every day of the calendar adds 86400 seconds and one weekday |
| `Calendar.EpochIsInjective` | lib/time.nas:56-59 | A second belongs to one date |
| `Calendar.EpochDays` | lib/time.nas:49-54 | The loop over the months computes the day number |
| `Calendar.ToEpoch` | lib/time.nas:56-59 | The second of a date |
| `Calendar.GuessIsLow` | lib/time.nas:65-65 | The guessed year never overshoots |
| `Calendar.YearOf` | lib/time.nas:65-66 | The correction loop ends in the year that holds the day |
| `Calendar.MonthOfDay` | lib/time.nas:67-73 | The month loop stops in the month that holds the day |
| `Calendar.TimeOf` | lib/time.nas:74-76 | The clock of a second |
| `Calendar.FromEpoch` | lib/time.nas:61-81 | For every second from year 1 on: the fields are a valid date whose second it is, the only one, and the weekday is right |
| `Calendar.ValidIff` | lib/time.nas:45-45 | The valid dates are those of the calendar: at most 30 days in April, June, September and November, 28 or in leap years 29 in February, and 31 in the others |
| `Calendar.MonthLasts` | lib/time.nas:45-59 | From the first of a month to the first of the next are as many days as that month has, in every year |
| `Calendar.RoundTrip` | lib/time.nas:56-81 | Every valid date from year 1 on comes back from its second |
| `Calendar.ModIsRemainder` | lib/math.nas:5-8 | The library remainder is the one between 0 and the modulus, for negative numbers too |
| `GrowVec.Vector.Append` | src/vector.c:58-70 | The element is added at the end, its index returned, and the copying stays paid for |
| `GrowVec.Vector.RemoveLast` | src/vector.c:84-97 | The last element is returned and removed, nothing of an empty vector, and the copying stays paid for |
| `GrowVec.Vector.Resize` | src/vector.c:4-20 | The elements are kept, their number copied, and the room is half as much again and one |
| `GrowVec.Vector.Get` | src/vector.c:28-38 | The element at an index, negative ones from the end, or nothing |
| `GrowVec.Run` | src/vector.c:4-20 | Any run of appends and removals on a fresh vector leaves and answers what it would on a sequence, copies at most three elements for each operation, and ends with at most twice the room it needs and one |
| `Decimal.DecPrint` | src/string.c:230-242 | The canonical numeral of every number an int holds, within ten characters and without overflow of the power |
| `Decimal.FromInt` | src/string.c:269-283 | The sign and the numeral, within eleven characters |
| `Decimal.NumeralStandsFor` | src/string.c:230-242 | A numeral has no leading zero and stands for its number |
| `Decimal.CanonicalNumeral` | src/string.c:230-242 | A digit string without leading zero is the numeral of its value |
| `Decimal.PaddedFromFront` | src/string.c:235-240 | Counting off the leading power leaves the digits of the rest |
| `Notation.DigitsInOrder` | src/string.c:138-147 | The digits stand for 0 to 9 in the order of `0123456789` |
| `Notation.PlacesCount` | src/string.c:138-147 | Digits in front of others count as many tens as there are others |
| `Notation.NumeralMeans` | src/string.c:183-225 | A numeral is read as its digits, taken as one whole number, with the point moved in by the number of digits behind it and out or in by its exponent, and negative after a minus |
| `Notation.SomeNumerals` | src/string.c:183-225 | `1e3` is 1000, `25e-1` is 2.5, `.125` is 0.125, `-0.5` is itself and `1e+2` is 100 |
| `Numerals.PrintedParses` | src/string.c:183-283 | Every printed whole number parses back to itself |
| `Numerals.ReadDec` | src/string.c:138-147 | The digits from an index on and their value |
| `Numerals.ReadSigned` | src/string.c:152-168 | An optional sign and digits |
| `Numerals.Parse` | src/string.c:183-225 | A string is accepted if and only if it is of the form: a minus, a plus, or a plus after a minus; digits; a point with digits; and an exponent mark with a sign or digits, where every run of digits may be empty and only a lone point and a lone plus are left out; and it stands for the number its parts make |
| `Numerals.ParsedIff` | src/string.c:183-225 | The language of numerals, both ways, as an equivalence over all strings |
| `Numerals.FormParses` | src/string.c:183-225 | Every string of the language is parsed to the number that its sign, digits, fraction and exponent make |
| `Numerals.ParsedIsForm` | src/string.c:183-225 | Every string that is accepted splits into the parts of the language |
| `Numerals.DigitsParse` | src/string.c:183-225 | Every digit string, with or without a minus sign, is accepted whole and gives its value |
| `Numerals.SignedStays` | src/string.c:152-168 | The reader of signed digits stays where it is if and only if neither a digit nor a sign is there: against the comment, a bare sign is read |
| `Numerals.BareSignIff` | src/string.c:162-165 | Among the accepted strings, exactly those hold a sign that no digit follows before the exponent mark or the end whose number is one of `+` (before an exponent), `-+`, `-.`, `+.` and `-+.`, or whose exponent is a sign alone |
| `Numerals.BareSignsAreRead` | src/string.c:162-165 | `-+` and `+.` are the number 0, and `1e+` is 1 |

## Left out

- Native functions, `call`, sub-contexts, `naContinue`, error traces and line tables: foreign calls and plumbing.
- Slices (`OP_SLICE`, `OP_SLICE2`), and assignment into a string: strings are immutable values here.
- The stack limits of 512, 128 and 128 and the limit of 128 nested loops: stacks are unbounded.
- NaN, negative zero and rounding; division by zero and the conversions between numbers and strings are parameters of the machine.
- Default arguments other than constants, a parameter called `me`, and two parameters of one name.
- Growth of the code buffer and of the temporaries by copying: the buffers are sequences.
- `Codegen.GenProgram`: parameter lists come with the program as names and defaults, whose constants are generated; a function literal inside another is an entry of the table instead of a nested call of the generator.
- A call with named arguments that gives an optional parameter under a string literal: the source enters the parameter a second time under its symbol; here the given entry stays the only one. `Symbols` excludes such programs.
- The dispatch of `genExpr` on token shapes: expressions start from `Syntax.Expr`, and shapes rejected as parse errors are not modelled there.
- `Interpreter.Context.Run`: the loop of the source has no bound on its turns; here it is followed for any given number of them, and `Correctness.SameDivergence` says when it never stops.
- The lexer: the parsers start from its list of tokens.
- The linked lists of the parser: lists are values, so relinking and aliasing of tokens are not captured.
- `Precedence.Grammar`: empty operands, operators standing alone as operands, and a brace after a dot are outside the grammar; `Precedence.Reparses` covers what the parser makes of them.
- The hash functions: any function from keys to 32-bit codes will do, so that keys need only a decidable equality; `""` against a number key is not modelled.
- `naHash_cget`, `naHash_cset` and `naMember_cget`: the key they build has length 0.
- `HashTable.HashObject.NewSym`: what happens when the symbol is already there, which its callers exclude.
- Hash and vector records shared between threads: the models are sequential; `Bottleneck` treats the replaced blocks.
- `Bottleneck`: whether an allocation needs a collection is left open at each test; the two short critical sections of the mod lock are single steps; a block is put in place in the step that takes the lock.
- `Losing.KeptIff`: what a thread does with a pointer to a freed block, and the records that the collector frees with their dead objects, which no target holds any more.
- `Collection.Collector.Get`: other threads that run while it waits; it models the thread that runs the collection itself, and takes the roots as given.
- The cleaning of a freed object releases memory in the source; here its content becomes empty.
- Time zones and dates before year 1.
- The fractional and exponent forms of printing (`rawprint`); the parser of them is modelled over `real`.
- `naVec_set` and `naVec_setsize`: they would add only easy members.
- Regular expressions, bit fields, I/O, the operating system, and the GTK, Cairo, SQLite and Apache bindings.
