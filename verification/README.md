# Verified models of the bundled Lua core and the libuv thread pool

The repository bundles Lua 5.1.5 and libuv 1.12.0. This project models four of their cores in Dafny and proves what
they are for:

- **From source text to bytecode to the machine** (`Grammar`, `Precedence`, `Parser`, `FuncState`, `CodeGen*`,
  `CodeRun`, `LuaVM`, `LuaLaws`).
  The parser of expressions with its priority table drives the one-pass code generator: expression descriptors, jump
  lists threaded through the offsets of the jumps, `TESTSET` turned into `TEST`, constant folding, the widening of
  `LOADNIL`, and pending jumps to the next instruction. `LuaVM` is the machine that executes the code. The classes
  `LexState`, `FuncState` and `ExpDesc` work in place as the C structures do. Their methods are proved against functions
  on an abstract state, in which a jump list is a sequence and a jump in a list has no target yet, and those functions
  are proved correct: the machine gets the value that evaluating the expression gives, or the error.
- **The incremental garbage collector** (`GC*`, `Collector`). Three colors, two whites, the barriers forward and back,
  gray threads, open upvalues, weak tables, userdata with finalizers, the string table, the sweep of the thread stacks
  and of the root list. One invariant is kept by every step of the collector and by everything that a program does
  between them, in any order, beginning with a new Lua state. Every step leaves what the program can use as it was, and
  a full collection leaves nothing that is not needed, and every entry of every table but those of weak tables that
  lost a part.
- **Tables** (`Table*`, `LuaTable`). An array part and a scatter table with Brent's variation, which refine a finite
  map; the optimal array size, rehash, traversal and length.
- **The thread pool** (`Queue`, `PoolModel`, `PoolSafety`, `PoolRuns`, `ThreadPool`). The pointer queues of `queue.h`
  with stale links, and the protocol of workers, submitters, cancellation and loops as a state machine whose steps are what happens
  between two lock operations. The methods of the class `ThreadPool` do these steps in place.

Numbers are reals. Arithmetic, comparison and length of values that are not numbers are arbitrary pure functions that
may raise an error, so that metamethods are covered as far as they have no effects. Ids stand for pointers. A Lua error
is a result.

The theorems to read first are `Parser.CompileFunction` with `Precedence.PrecedenceIs`, `CodeGenCorrect.CompileCorrect`,
`Collector.GlobalState.SingleStep` and `Collector.GlobalState.FullGC` with `GCInvariant.Safety` and
`GCStrong.AtomicPreserves`, `LuaTables.Table.Rehash`, `LuaTables.Table.Traverse`, `PoolSafety.NeverBroken` with
`PoolSafety.DoneMeans`, `PoolRuns.DoneOnItsLoop` and `PoolSafety.RestIsQuiet`.

## Model

| member | source | states |
|---|---|---|
| Parser.CompileFunction | 3rdSrc/lua-5.1.5/src/lparser.c:828-858 | From the text to the machine, beginning with the state of open_func: code is produced if and only if the text begins with an expression and no limit is exceeded, and it is produced for every expression with at most 200 nested calls of subexpr, 10000 nodes, and less than 250 registers together with the parameters; the expression compiled is the one that the parser reads, its operators are grouped by their precedence, and it is the only one with these tokens that stands at the beginning of the text; and a machine that enters the function with any arguments and upvalues comes to the instruction behind the code with the value of the expression in the first free register and the parameters unchanged, or ends in the error that evaluation raises. |
| CodeGenSize.CompileFits | 3rdSrc/lua-5.1.5/src/lcode.c:79-88 | When the generator may not refuse: in any state in the middle of a function, an expression is compiled if there is room for twelve instructions and three constants for each of its nodes and the registers that it needs, counted on the tree, stay below 250. |
| CodeGenSize.AssignFits | 3rdSrc/lua-5.1.5/src/lcode.c:199-213 | The same for the assignment to a local variable. |
| Parser.ExprOnMachine | 3rdSrc/lua-5.1.5/src/lvm.c:541-585 | The same in the middle of a function: whatever code, open jumps and pending jumps come before, the machine on the code in place goes from the point where it arrives to the instruction behind the expression with its value in the first free register and every register below unchanged, or to the error. |
| Parser.AssignOnMachine | 3rdSrc/lua-5.1.5/src/lcode.c:472-478 | The same for an assignment to a local variable: its register gets the value and no other register in use changes, although the code may compute directly in the variable. |
| Parser.LexState.SubExpr | 3rdSrc/lua-5.1.5/src/lparser.c:828-853 | The recursive parser, which generates code while it reads, succeeds exactly when the expression can be read and its code stays within the limits; it stops at the token where the reading function stops, returns the operator there, leaves the nesting counter as it was, and has generated the code of the tree that it read; code emitted before is changed only in jumps that were open. |
| Parser.LexState.ExprToNextReg | 3rdSrc/lua-5.1.5/src/lparser.c:856-858 | expr followed by luaK_exp2nextreg leaves the generator in the state for which CompileCorrect holds, and fails exactly if reading or a limit fails. |
| Parser.LexState.ExprToLocal | 3rdSrc/lua-5.1.5/src/lparser.c:945-957 | The assignment of one expression to one local variable leaves the generator in the state for which AssignCorrect holds, and fails exactly if reading or a limit fails. |
| Grammar.ParseIsPrint | 3rdSrc/lua-5.1.5/src/lparser.c:805-853 | The parser with priorities and the printing of trees are inverse: reading yields a tree and a rest if and only if the text is the tokens of the tree and the rest, every operand binds as strongly as its place demands, the rest does not continue the expression, and no more than 200 calls of subexpr are nested. |
| Grammar.OneReading | 3rdSrc/lua-5.1.5/src/lparser.c:805-853 | A text begins with one expression at most, whatever its depth: the priorities make the grammar unambiguous. |
| Grammar.Grouping | 3rdSrc/lua-5.1.5/src/lparser.c:810-819 | Of two operators in a row the right one takes the middle operand if and only if its left priority is above the right priority of the left one; what the priorities are is Precedence.TwoOperators. |
| Precedence.PrecedenceIs | 3rdSrc/lua-5.1.5/src/lparser.c:810-853 | The priority table without its numbers: the parser reads exactly the expressions whose operators are grouped by their classes (or, and, comparisons, + and -, * / and %, unary operators, power, the weakest first; the power to the right, all others to the left), up to 200 deep, with no operator and no call behind them. |
| Precedence.TwoOperators | 3rdSrc/lua-5.1.5/src/lparser.c:810-819 | `a op1 b op2 c` is `a op1 (b op2 c)` if op2 is of a stronger class than op1 or both are powers, and `(a op1 b) op2 c` otherwise. |
| Precedence.UnaryLeft | 3rdSrc/lua-5.1.5/src/lparser.c:821-836 | `- a op b` is `(- a) op b`, but `- a ^ b` is `- (a ^ b)`; the same for `not` and `#`. |
| Precedence.UnaryRight | 3rdSrc/lua-5.1.5/src/lparser.c:821-836 | `a op - b` needs no parentheses, whatever the operator is. |
| Precedence.ArithTokens | 3rdSrc/lua-5.1.5/src/lparser.c:786-793 | Which token is which arithmetic operator. |
| Precedence.LogicTokens | 3rdSrc/lua-5.1.5/src/lparser.c:795-804 | Which token is which comparison or logical operator. |
| Precedence.OperandTokens | 3rdSrc/lua-5.1.5/src/lparser.c:727-758 | Which token is which constant or variable, and what a parenthesis is. |
| Precedence.UnaryTokens | 3rdSrc/lua-5.1.5/src/lparser.c:776-782 | Which token is which unary operator. |
| CodeGenCorrect.CompileCorrect | 3rdSrc/lua-5.1.5/src/lcode.c:343-420 | For every expression and every state of the generator: the run of the generated code, from any point before it, computes the value of the expression into the first free register, or raises the error, and leaves all registers below alone; runs that leave through an earlier open jump, or fail earlier, are unchanged. |
| CodeGenCorrect.AssignCorrect | 3rdSrc/lua-5.1.5/src/lcode.c:472-478 | The same for a store into a local variable. |
| CodeGenCorrect.MachineCorrect | 3rdSrc/lua-5.1.5/src/lvm.c:407-585 | The same as a sequence of steps of the machine, on code whose pending jumps are patched to its end. What the evaluation and the machine do with the values themselves is in LuaLaws. |
| LuaLaws.LogicLaws | 3rdSrc/lua-5.1.5/src/lobject.h:103 | What `not`, `and` and `or` give: nil and false are false, every other value is true, zero and objects too; the right operand is evaluated only if it decides. |
| LuaLaws.NumberLaws | 3rdSrc/lua-5.1.5/src/lvm.c:474-508 | Where the operations on numbers are those of the reals, each operator gives the sum, difference, product, quotient, opposite or comparison of its operands in the order of the text. |
| LuaLaws.OtherLaws | 3rdSrc/lua-5.1.5/src/lvm.c:474-520 | Operands that are not numbers go to the coercions and metamethods of the operator, in the order of the text; an error in an operand is the error of the whole. |
| LuaLaws.CompareLaws | 3rdSrc/lua-5.1.5/src/lvm.c:545-570 | Each comparison in terms of equality, less and less or equal, with the operands of > and >= exchanged. |
| LuaLaws.LeafLaws | 3rdSrc/lua-5.1.5/src/lvm.c:407-434 | Constants, local variables, upvalues and parentheses have the values that they name. |
| LuaLaws.FoldLaws | 3rdSrc/lua-5.1.5/src/lcode.c:627-650 | Arithmetic on two numerals is done by the generator exactly when it is no division by zero and its result is not NaN. |
| LuaLaws.ConstantOperand | 3rdSrc/lua-5.1.5/src/lcode.c:444-469 | A constant becomes an operand of an instruction exactly if its index is at most 255. |
| LuaLaws.TestNamesNone | 3rdSrc/lua-5.1.5/src/lcode.c:524-536 | The test of a value in a register is a TESTSET that names no register for the value, 255, until its jump is patched. |
| LuaLaws.StepNot | 3rdSrc/lua-5.1.5/src/lvm.c:509-513 | OP_NOT gives true for nil and false and false for every other value. |
| LuaLaws.StepTest | 3rdSrc/lua-5.1.5/src/lvm.c:571-576 | OP_TEST takes its jump for a false value if C is 0 and for a true one if C is 1. |
| LuaLaws.StepTestSet | 3rdSrc/lua-5.1.5/src/lvm.c:577-585 | The same for OP_TESTSET, which copies the value if it jumps. |
| LuaLaws.StepArith | 3rdSrc/lua-5.1.5/src/lvm.c:474-497 | An arithmetic instruction on registers, and on constants from 256 on, in the order of its operands. |
| LuaLaws.StepCompare | 3rdSrc/lua-5.1.5/src/lvm.c:545-570 | A comparison takes its jump exactly if its outcome is A. |
| LuaLaws.StepLoads | 3rdSrc/lua-5.1.5/src/lvm.c:407-434 | Moves and loads change their registers and nothing else. |
| LuaLaws.StepUnary | 3rdSrc/lua-5.1.5/src/lvm.c:498-520 | OP_UNM and OP_LEN. |
| CodeGenArith.CodeCompMeans | 3rdSrc/lua-5.1.5/src/lcode.c:673-687 | A comparison, its operands exchanged for > and >=, leaves the run in an open jump exactly when the comparison has the wanted sense, and else behind it; an error of the operands or of the comparison is raised. |
| CodeGenArith.CodeArithMeans | 3rdSrc/lua-5.1.5/src/lcode.c:653-671 | Arithmetic, folded or not, gives the result of the operation on the values of the two operands, in the order in which they are evaluated. |
| FuncStates.FuncState.constructor | 3rdSrc/lua-5.1.5/src/lparser.c:328-354 | open_func leaves a valid generator state: no code, no pending jumps, the parameters as the active variables, and at least two stack slots. |
| FuncStates.FuncState.FixJump | 3rdSrc/lua-5.1.5/src/lcode.c:79-88 | A jump gets the distance to its target, and is refused exactly if that is more than 131071 either way. |
| FuncStates.FuncState.ReserveRegs | 3rdSrc/lua-5.1.5/src/lcode.c:199-213 | Registers are reserved, and refused exactly if the frame would have to grow to 250 or more. |
| FuncStates.FuncState.AddConstant | 3rdSrc/lua-5.1.5/src/lcode.c:229-247 | The index of the constant, which is added if it is new; refused exactly if it is new and there are 262143. |
| FuncStates.FuncState.ExpToRK | 3rdSrc/lua-5.1.5/src/lcode.c:444-469 | The operand is a register, or a constant with an index up to 255, counted from 256 on. |
| FuncStates.FuncState.Concat | 3rdSrc/lua-5.1.5/src/lcode.c:185-196 | A list threaded through jump offsets denotes a sequence without repetition; concat makes the first denote the concatenation of both, changes the one instruction at the end of the first, and fails exactly if the offset does not fit. |
| FuncStates.FuncState.PatchListAux | 3rdSrc/lua-5.1.5/src/lcode.c:150-160 | Each jump of the list goes to the value target if a TESTSET controls it and to the default target else, earlier or later; that TESTSET gets the register or becomes TEST; every other instruction stays; it fails exactly if an offset does not fit. |
| FuncStates.FuncState.DischargeJpc | 3rdSrc/lua-5.1.5/src/lcode.c:163-166 | The pending jumps go to the next instruction, and only they change. |
| FuncStates.FuncState.Code | 3rdSrc/lua-5.1.5/src/lcode.c:789-801 | An instruction is appended after the pending jumps have been patched to its place. |
| FuncStates.FuncState.LoadNilTo | 3rdSrc/lua-5.1.5/src/lcode.c:35-54 | All three branches: nothing at the start of a function, the last LOADNIL widened, or a new one, with the same effect as the function for which the meaning is proved. |
| FuncStates.FuncState.ExpToReg | 3rdSrc/lua-5.1.5/src/lcode.c:390-411 | The value goes to the register: both jump lists of the expression are closed, with LOADBOOLs where a jump does not bring the value. |
| FuncStates.FuncState.ExpToNextReg | 3rdSrc/lua-5.1.5/src/lcode.c:414-419 | The value goes to the next register and the generator state stays an extension of the one where the expression began. |
| FuncStates.FuncState.JumpOnCondition | 3rdSrc/lua-5.1.5/src/lcode.c:524-536 | A jump taken when the value has the wanted truth value, with the last instruction removed if it was NOT. |
| FuncStates.FuncState.CodeGoIfTrue | 3rdSrc/lua-5.1.5/src/lcode.c:539-560 | The false list gets the jump that leaves when the value is false, the true list is patched to here. |
| FuncStates.FuncState.CodeNotOf | 3rdSrc/lua-5.1.5/src/lcode.c:586-617 | The negation of a constant, of a comparison, of a value in a register; the lists change places and their TESTSETs become TESTs. |
| FuncStates.FuncState.CodePrefix | 3rdSrc/lua-5.1.5/src/lcode.c:689-707 | A unary operator in place is the abstract one, and fails exactly when that exceeds a limit. |
| FuncStates.FuncState.CodeInfix | 3rdSrc/lua-5.1.5/src/lcode.c:710-734 | The left operand in place becomes what its operator needs. |
| FuncStates.FuncState.CodePosfix | 3rdSrc/lua-5.1.5/src/lcode.c:737-781 | A binary operator in place is the abstract one; descriptors and lists of both operands become that of the result. |
| Collector.GlobalState.constructor | 3rdSrc/lua-5.1.5/src/lstate.c:143-189 | A new Lua state, with its main thread, its table of globals and its registry, satisfies the invariant. |
| GCInvariant.Safety | 3rdSrc/lua-5.1.5/src/lgc.c:407-428 | In a state that satisfies the invariant everything that can be reached from the roots exists and is not dead, so the sweep does not free it. The roots are the main and the running thread, the registry, the basic metatables, and the userdata that wait for their finalizers. |
| GCInvariant.NoBlackToWhite | 3rdSrc/lua-5.1.5/src/lgc.c:119-125 | While marking is under way no black object refers to a white one, unless it is a userdata that waits for its finalizer. |
| GCLimits.BlackToWhite | 3rdSrc/lua-5.1.5/src/lgc.c:119-125 | The exception occurs: a state that satisfies the invariant, as luaC_fullgc leaves it when a userdata still waits for its finalizer, in which that userdata is black and refers to a white object. |
| GCInvariant.Completeness | 3rdSrc/lua-5.1.5/src/lgc.c:581-595 | When the sweep has reached the end of its lists, every object that is left is in the set that the cycle had to keep. |
| GCWeak.CycleStartWithin | 3rdSrc/lua-5.1.5/src/lgc.c:501-512 | The set that an incremental cycle keeps contains nothing but what references lead to from the roots, the userdata that wait for their finalizers, and the userdata that have not been finalized. |
| Collector.GlobalState.SingleStep | 3rdSrc/lua-5.1.5/src/lgc.c:556-607 | Every step of the collector in every phase keeps the invariant and frees dead objects only; what the program can use through strong references it can use afterwards, and its contents are the same but for entries of weak tables that lost a part and arguments pushed for a finalizer; the heap after the step is given for each phase; each step brings the cycle nearer to its end; the set to keep is fixed when marking begins, as what can be reached then, and at the end of the sweep no other object is left. |
| Collector.GlobalState.FullGC | 3rdSrc/lua-5.1.5/src/lgc.c:635-658 | A full collection comes to its end in the pause; all that the program can use through strong references is still there, with its contents. From the state when marking began: every object that is left is a string or lies in each set that contains the roots and the userdata with a finalizer not yet called and from which no reference leads out but weak values of tables whose metatable has a v and weak keys of tables whose metatable has a k; every object that the program can get at without weak references is left; every table that is left has all its entries, but those of a table with such a metatable that lost their key or value; and every other object that is left is what it was, but for upvalues that were closed with their values and the calls of finalizers on the running stack. |
| GCWeak.NothingWeakLeft | 3rdSrc/lua-5.1.5/src/lgc.c:351-375 | After a full collection no array slot and no entry of a table refers to an object to which only weak references led when marking began, strings excepted. |
| GCWeak.CycleStep | 3rdSrc/lua-5.1.5/src/lgc.c:556-607 | Each step of a cycle keeps what FullGC says about the tables and the objects that the program can get at, from the first step of marking to the pause. |
| GCWeak.AtomicLeft | 3rdSrc/lua-5.1.5/src/lgc.c:525-553 | The atomic step marks all that the program can get at without weak references, and takes entries out of weak tables only for a key or value that is dead or a finalized userdata. |
| GCWeak.DyingAre | 3rdSrc/lua-5.1.5/src/lgc.c:128-155 | The userdata taken for their finalizers are exactly the unmarked ones whose metatable has a value for __gc and that have not been finalized. |
| GCWeak.CallIs | 3rdSrc/lua-5.1.5/src/lgc.c:445-471 | The call of a finalizer pushes the value of __gc and the userdata. |
| GCWeak.NoCallIs | 3rdSrc/lua-5.1.5/src/lgc.c:445-471 | Without a value for __gc nothing is pushed. |
| GCStrong.AtomicPreserves | 3rdSrc/lua-5.1.5/src/lgc.c:525-553 | The atomic step keeps every object that is strong, the strong references between them, and their contents; an entry goes only from a weak table, and only if its key or its value is not strong, or its value is a userdata that has been finalized. |
| GCStrong.SweepPreserves | 3rdSrc/lua-5.1.5/src/lgc.c:407-428 | The same for the sweep, which closes the open upvalues of dead threads on the way. |
| GCStrong.FinalizePreserves | 3rdSrc/lua-5.1.5/src/lgc.c:445-471 | The same for the call of a finalizer, which only adds to the stack of the running thread. |
| GCStrong.StrongMarked | 3rdSrc/lua-5.1.5/src/lgc.c:525-540 | When userdata are separated all that is strong is marked, but for strings: so nothing strong is flagged as finalized or given to a finalizer. |
| GCStrong.ReachStrong | 3rdSrc/lua-5.1.5/src/lgc.c:277-320 | Without weak tables and waiting finalizers, strong is the same as reachable from the roots of the program. |
| GCStrong.StrongReach | 3rdSrc/lua-5.1.5/src/lgc.c:277-320 | What is strong can be reached. |
| GCLimits.FinalizedValueGoes | 3rdSrc/lua-5.1.5/src/lgc.c:330-348 | Why the exception for finalized userdata is there: an entry of a table with weak keys alone is removed for such a value, although the table, the key and the value are marked and the values of the table are strong. |
| Collector.GlobalState.Atomic | 3rdSrc/lua-5.1.5/src/lgc.c:525-553 | The atomic step frees nothing and exchanges the whites, and afterwards an object is dead if and only if it was not marked; every object is as it was, but that entries without value may have lost their key, and that from the tables in the weak list exactly the entries are gone that have a cleared part; these tables are weak as their metatables say. |
| Collector.GlobalState.PropagateMark | 3rdSrc/lua-5.1.5/src/lgc.c:277-320 | The traversal of the first gray object: what it refers to strongly is marked and nothing that marking does not lead to, a weak table with the bits of its mode or a thread goes to its list to be looked at again, and nothing else changes. |
| Collector.GlobalState.TraverseTable | 3rdSrc/lua-5.1.5/src/lgc.c:158-196 | Keys and values are weak as the k and v of __mode in the metatable say; a weak table gets these bits and goes to the weak list; what a table holds strongly under that mode is marked, nothing outside the set to keep is, and entries without value lose their key. |
| Collector.GlobalState.MarkMode | 3rdSrc/lua-5.1.5/src/lgc.c:163-181 | The mode is read off the metatable, which is marked, and sets the bits and the list of the table. |
| Collector.GlobalState.SeparateUdata | 3rdSrc/lua-5.1.5/src/lgc.c:128-155 | The unmarked userdata that have a finalizer and have not been finalized move to the list of those to be finalized, in their order; the others stay in theirs. |
| Collector.GlobalState.ClearTable | 3rdSrc/lua-5.1.5/src/lgc.c:351-375 | Each table of the list becomes exactly what cleartable makes of it, with the marks as they were at the beginning: an entry goes if and only if its key or value is cleared; afterwards no weak table has an entry whose weak key or value is about to be collected; only strings are marked. |
| Collector.GlobalState.RemarkUpvals | 3rdSrc/lua-5.1.5/src/lgc.c:515-522 | Afterwards the values that open upvalues have in stacks are traced like every other reference: none is white behind a marked upvalue. |
| Collector.GlobalState.SweepOne | 3rdSrc/lua-5.1.5/src/lgc.c:407-428 | One turn of the sweep frees the object at its place if it is dead and makes it white else; of what is not dead nothing is lost, and a program finds it as it was. |
| Collector.GlobalState.CallFinalizer | 3rdSrc/lua-5.1.5/src/lgc.c:445-471 | The first waiting userdata returns to the list of all userdata, white and marked as finalized; the finalizer that its metatable has and the userdata as its argument are pushed onto the stack of the running thread; without a finalizer the heap is unchanged. |
| Collector.GlobalState.BarrierF | 3rdSrc/lua-5.1.5/src/lgc.c:661-671 | While marking the new value is marked; in the sweep the object turns white instead. |
| Collector.GlobalState.BarrierBack | 3rdSrc/lua-5.1.5/src/lgc.c:674-682 | The table turns gray and is traversed again in the atomic step. |
| Collector.GlobalState.WriteObject | 3rdSrc/lua-5.1.5/src/lgc.h:86-98 | A program stores a usable value into a closure, a closed upvalue, a userdata or a prototype, at any time, and the invariant holds. |
| Collector.GlobalState.WriteTable | 3rdSrc/lua-5.1.5/src/lgc.h:86-98 | The same for a table, with the barrier back. |
| Collector.GlobalState.WriteStack | 3rdSrc/lua-5.1.5/src/lgc.c:313-318 | Stores into the stack of a thread need no barrier, at any time. |
| Collector.GlobalState.WriteUpval | 3rdSrc/lua-5.1.5/src/lvm.c:451-456 | A program that can get at an upvalue, but not at the thread whose stack has its slot, stores through it at any time; that slot, or the closed upvalue, alone changes, and the invariant holds. |
| GCMutator.UpvalWritten | 3rdSrc/lua-5.1.5/src/lgc.c:515-522 | The store through an open upvalue without barrier keeps the invariant, because the atomic step looks at open upvalues again. |
| GCMutator.TableWritten | 3rdSrc/lua-5.1.5/src/lgc.c:674-682 | With the barrier back a store into a table keeps the invariant; in the pause and while finalizers are called no table is black. |
| GCMutator.ReachUsable | 3rdSrc/lua-5.1.5/src/lgc.c:69-112 | What a program may use in the write operations includes all that it can reach from the roots. |
| GCMutator.SlotAllowed | 3rdSrc/lua-5.1.5/src/lgc.h:86-98 | Any value that a program can get at may be stored into any array slot of a table that it can get at. |
| GCMutator.EntryAllowed | 3rdSrc/lua-5.1.5/src/lgc.h:86-98 | The same for an entry of the hash part. |
| GCMutator.UpvalAllowed | 3rdSrc/lua-5.1.5/src/lvm.c:451-456 | The same for a closed upvalue. |
| GCMutator.EnvAllowed | 3rdSrc/lua-5.1.5/src/lgc.h:86-98 | The same for the environment of a closure or a userdata. |
| GCAlloc.NewAllowed | 3rdSrc/lua-5.1.5/src/lgc.c:685-691 | Any new object may be made out of what the program can get at. |
| GCThreads.FirstValid | 3rdSrc/lua-5.1.5/src/lstate.c:70-81 | The base of the induction: the state of a new Lua state satisfies the invariant, for any ids of its first objects. |
| Collector.GlobalState.Link | 3rdSrc/lua-5.1.5/src/lgc.c:685-691 | A new object, at any time, is in front of the root list, usable, and will not be freed by the sweep that runs. |
| Collector.GlobalState.InternString | 3rdSrc/lua-5.1.5/src/lstring.c:50-93 | The string with the given contents is found, also if it is dead, and is usable again; a new one is made exactly if none has these contents; it is in the list that its hash selects, so strings with the same contents are the same object. |
| GCStrings.SameString | 3rdSrc/lua-5.1.5/src/lstring.c:75-93 | In the string table two strings are the same if and only if their contents are; a collection does not change that. |
| Collector.GlobalState.NewUdata | 3rdSrc/lua-5.1.5/src/lstring.c:96-110 | The same as Link for a userdata, in its own list, not finalized. |
| Collector.GlobalState.FindUpval | 3rdSrc/lua-5.1.5/src/lfunc.c:53-79 | Two closures over one stack slot share its open upvalue, also when it was dead; a new one is made exactly if none is there, and the list stays strictly descending. |
| Collector.GlobalState.CloseUpvals | 3rdSrc/lua-5.1.5/src/lfunc.c:96-112 | Exactly the upvalues at the level and above are closed, or freed if they are dead; every closure reads the same values before and after, and the invariant of the running cycle holds. |
| GCWeak.ClosedHolds | 3rdSrc/lua-5.1.5/src/lfunc.c:96-112 | An upvalue that is closed holds the value of its stack slot. |
| Collector.GlobalState.ChangeRoots | 3rdSrc/lua-5.1.5/src/lgc.c:501-512 | The running thread and the basic metatables change without a barrier, at any time. |
| TableSizes.ComputeSizes | 3rdSrc/lua-5.1.5/src/ltable.c:189-208 | The array size is the largest power of two of whose slots more than half are in use, or 0, and the count of integer keys that go there is exact. |
| TableNodes.OnePredecessor | 3rdSrc/lua-5.1.5/src/ltable.c:399-429 | In the scatter table a node has at most one predecessor and no chain comes back to a node. |
| TableNodes.ChainingOk | 3rdSrc/lua-5.1.5/src/ltable.c:418-423 | A colliding node in its main position: the new key in a free node behind it keeps every key reachable from its main position. |
| TableNodes.MovingOk | 3rdSrc/lua-5.1.5/src/ltable.c:410-417 | A colliding node out of its main position: it moves to the free node and the new key takes its place, and every key stays reachable. |
| LuaTables.Table.constructor | 3rdSrc/lua-5.1.5/src/ltable.c:358-371 | A new table is empty; its array part has the size asked for, and its hash part the least power of two that has room for the number asked for, or the dummy node. |
| LuaTables.Table.Get | 3rdSrc/lua-5.1.5/src/ltable.c:469-491 | The value that the finite map has for the key, nil if it has none. |
| LuaTables.Table.Set | 3rdSrc/lua-5.1.5/src/ltable.c:494-505 | After a store the table is the map with this entry, or without it for nil; nothing moves if the key was there; false exactly for the key nil. |
| LuaTables.Table.NewKey | 3rdSrc/lua-5.1.5/src/ltable.c:399-429 | A place for the key, and no other entry is lost. If there is a place nothing is rehashed, and after a rehash there is one, so that the recursion ends after one rehash. |
| LuaTables.Table.Rehash | 3rdSrc/lua-5.1.5/src/ltable.c:333-349 | The map stays, the array part has the optimal size for the integer keys together with the new one, and there is a place for the new key. |
| TableContents.OptimalMeans | 3rdSrc/lua-5.1.5/src/ltable.c:189-208 | What the optimal size is in terms of the keys: a power of two up to 2^26 with more than half of the slots 1 to n in use, and no larger one has that. |
| LuaTables.Table.Resize | 3rdSrc/lua-5.1.5/src/ltable.c:297-324 | Both parts get new sizes and the map stays; re-insertion never lacks room. |
| LuaTables.Table.Next | 3rdSrc/lua-5.1.5/src/ltable.c:162-179 | The first entry behind the place of the key, the end if there is none, an error exactly if the key has no place; a key that has died since still has its place. |
| LuaTables.Table.Traverse | 3rdSrc/lua-5.1.5/src/ltable.c:137-179 | A traversal with luaH_next that at each entry makes any stores, also of nil, into keys of the table, while a collection between two entries removes any keys of empty entries: it comes to its end, visits no key twice, visits each with its value of that moment, and has visited every key that is left. |
| LuaTables.LiveThroughout | 3rdSrc/lua-5.1.5/src/ltable.c:162-179 | The keys left after such a traversal are those that were in the table at every moment of it. |
| LuaTables.IndexKept | 3rdSrc/lua-5.1.5/src/ltable.c:137-159 | Stores into present keys and dead keys left by the collector do not move the place of a traversal. |
| LuaTables.VisitsAll | 3rdSrc/lua-5.1.5/src/ltable.c:162-179 | The entries in the order of luaH_next are those of the map. |
| LuaTables.VisitsOnce | 3rdSrc/lua-5.1.5/src/ltable.c:162-179 | No key appears twice in that order. |
| LuaTables.Table.GetN | 3rdSrc/lua-5.1.5/src/ltable.c:560-577 | A border: an index, or 0, that is present while the next one is not. |
| LuaTables.Table.RemoveEntry | 3rdSrc/lua-5.1.5/src/lgc.c:62-66 | A key made dead changes neither the map nor the place of any other key. |
| Queues.Memory.InsertTail | 3rdSrc/libuv-1.12.0/src/queue.h:92-99 | The node is last in its queue and no other queue changes. |
| Queues.Memory.Remove | 3rdSrc/libuv-1.12.0/src/queue.h:101-105 | The node is no longer in its queue, the others keep their order, and its own links still point to its former neighbours, so that it does not look empty. |
| Queues.Memory.Move | 3rdSrc/libuv-1.12.0/src/queue.h:72-81 | The new head has all nodes in their order and the old queue is empty. |
| PoolModel.StepInv | 3rdSrc/libuv-1.12.0/src/threadpool.c:52-92 | Every step of every worker, submitter, canceller and loop keeps the invariant: each request is in exactly one phase and in exactly the list of that phase. |
| PoolSafety.NeverBroken | 3rdSrc/libuv-1.12.0/src/threadpool.c:189-247 | In every interleaving from the start, with any number of workers and loops, no request leaves its life cycle: submitted, then executed or cancelled, then done, then perhaps submitted again. |
| PoolSafety.DoneMeans | 3rdSrc/libuv-1.12.0/src/threadpool.c:227-247 | done has UV_ECANCELED if and only if a cancel returned 0 for this submission, and then the work function was not called; else it was called exactly once. |
| PoolSafety.DoneCount | 3rdSrc/libuv-1.12.0/src/threadpool.c:227-247 | done is called as often as the request was submitted, less one while it is not finished. |
| PoolRuns.DoneOnItsLoop | 3rdSrc/libuv-1.12.0/src/threadpool.c:189-198 | In every run: the loop that calls done for a request is the one on which it was last submitted. |
| PoolRuns.CancelOnItsLoop | 3rdSrc/libuv-1.12.0/src/threadpool.c:201-215 | In every run: a request that is not done can be cancelled on the loop on which it was last submitted, unless that is in the middle of a cancellation. |
| PoolRuns.SubmitOnAnyLoop | 3rdSrc/libuv-1.12.0/src/threadpool.c:189-198 | In every run: a request that is not in progress can be submitted on any loop that is not in the middle of a cancellation. |
| PoolRuns.TakenInOrder | 3rdSrc/libuv-1.12.0/src/threadpool.c:58-80 | Workers take requests first in, first out: one submitted later is taken later, unless the earlier one was cancelled. |
| PoolRuns.DoneInOrder | 3rdSrc/libuv-1.12.0/src/threadpool.c:234-246 | A loop calls done in the order in which requests came to its queue, unless the earlier one was taken out by a cancellation, also when the queue is drained in between. |
| PoolSafety.NoAbort | 3rdSrc/libuv-1.12.0/src/threadpool.c:44-46 | No worker calls the function that aborts. |
| PoolSafety.NotStranded | 3rdSrc/libuv-1.12.0/src/threadpool.c:58-101 | While a worker sleeps, at least as many workers are awake on their way as there are entries in the queue. |
| PoolSafety.Progress | 3rdSrc/libuv-1.12.0/src/threadpool.c:52-92 | While a request is not done and a worker has not left, a step of a worker or a loop is possible. |
| PoolSafety.InternalLess | 3rdSrc/libuv-1.12.0/src/threadpool.c:52-92 | Every such step makes a measure less, so that without new calls they come to rest. |
| PoolSafety.RestIsQuiet | 3rdSrc/libuv-1.12.0/src/threadpool.c:52-92 | When no such step is possible all queues are empty and nobody is at work. |
| PoolSafety.QuietDone | 3rdSrc/libuv-1.12.0/src/threadpool.c:227-247 | When all is quiet and a worker still waits, each request is done exactly as often as it was submitted. |
| PoolSafety.ExitProgress | 3rdSrc/libuv-1.12.0/src/threadpool.c:58-80 | After the exit message has been posted some worker can go on until all have left. |
| PoolSafety.ExitWaits | 3rdSrc/libuv-1.12.0/src/threadpool.c:105-126 | In every run: when a worker has left, each request that was in the queue in front of the exit message has been taken or cancelled in the meantime. |
| PoolSafety.ExitComesLast | 3rdSrc/libuv-1.12.0/src/threadpool.c:105-126 | From the moment that cleanup posts the exit message: every request that is in the queue then is taken by a worker or cancelled before any worker leaves. |
| ThreadPools.ThreadPool.Enters | 3rdSrc/libuv-1.12.0/src/threadpool.c:58-80 | A worker at the mutex, in place on the pointer queues, is the step of the protocol: it sleeps, leaves, or takes the first entry. |
| ThreadPools.ThreadPool.WakesUp | 3rdSrc/libuv-1.12.0/src/threadpool.c:61-80 | The same after uv_cond_wait. |
| ThreadPools.ThreadPool.Executes | 3rdSrc/libuv-1.12.0/src/threadpool.c:82-83 | A worker calls the function of its request, and that is the function of the user. |
| ThreadPools.ThreadPool.Finishes | 3rdSrc/libuv-1.12.0/src/threadpool.c:85-91 | The request loses its function and is last in the queue of its loop. |
| ThreadPools.ThreadPool.Submits | 3rdSrc/libuv-1.12.0/src/threadpool.c:189-198 | The request has the loop on which it is submitted, is last in the pool queue, and a signal wakes a worker if one is idle. |
| ThreadPools.ThreadPool.PostsExit | 3rdSrc/libuv-1.12.0/src/threadpool.c:95-111 | The exit message is last in the pool queue. |
| ThreadPools.ThreadPool.TriesCancel | 3rdSrc/libuv-1.12.0/src/threadpool.c:201-215 | The two tests on the links and on the function of the request decide exactly whether no worker has taken it; it leaves its queue if so. |
| ThreadPools.ThreadPool.MarksCancelled | 3rdSrc/libuv-1.12.0/src/threadpool.c:217-217 | The function is replaced by the one that stands for a cancelled request. |
| ThreadPools.ThreadPool.InsertsCancelled | 3rdSrc/libuv-1.12.0/src/threadpool.c:218-223 | The cancelled request is last in the queue of its loop. |
| ThreadPools.ThreadPool.Drains | 3rdSrc/libuv-1.12.0/src/threadpool.c:234-237 | The loop takes all that its queue contains at once. |
| ThreadPools.ThreadPool.CallsDone | 3rdSrc/libuv-1.12.0/src/threadpool.c:239-246 | The first request leaves the local queue and its done is called, with UV_ECANCELED if and only if its function says so. |

## Left out

- tree.h: the red-black and splay trees of libuv are not modelled.
- heap-inl.h: the timer heap is not modelled.
- lstrlib.c: the pattern matcher and the quoting of strings are not modelled, nor is llex.c, which reads them back.
- ldebug.c: the bytecode checker is not modelled.
- ltablib.c: the sort is not modelled.
- ldump.c and lundump.c: precompiled chunks are not modelled.
- Strings, globals, table accesses, calls, concatenation, table constructors and nested functions as expressions, and
  statements other than a local declaration or an assignment with one expression: the generated code has none of these.
- Names: the tokens of local variables and upvalues carry their register or index, as singlevar finds it.
- A call, an index or a method behind a name or a parenthesis: a parenthesis there is not read as the start of a call.
- NaN, negative zero, rounding and division by zero in constants other than the fold that the source refuses.
- Metamethods with effects: operations on values that are not numbers are pure functions.
- LuaVM.RunIsMachine: relates only runs that end, in the fragment of instructions that the generator emits; any other
  opcode of the machine is undefined in the model.
- CodeRun.PatchRun: the meaning of a run after patching is proved for targets behind the jump, the only ones that
  expressions have; FuncState.PatchListAux has no such restriction.
- CodeRun.AppendRun: an append with nothing pending; the discharge before it is CodeGenSteps.DischargeRun, and
  FuncState.Code is luaK_code whole.
- CodeRun.WidenRun: the widening alone; the three branches of luaK_nil are together in CodeGenReg.
- Parser.AssignOnMachine: an assignment with one target and one expression.
- Parser.CompileFunction: a function whose body begins with the declaration of one local variable.
- Collector.GlobalState.constructor: the strings that luaT_init and luaX_init make and fix are not in the first state.
- Collector.GlobalState.CallFinalizer: the call of the finalizer is whatever the program does next.
- Collector.GlobalState.FullGC: its last part sets the threshold for the next cycle, which is not modelled.
- Collector.GlobalState.SingleStep: costs and byte counts, by which luaC_step decides how many steps to do, are not
  modelled; nor is the resizing of stacks and of the string table.
- Collector.GlobalState.InternString: the hash function is arbitrary, and the string table does not grow.
- Collector.GlobalState.WriteStack: a stack is its live part; that the rest is cleared is not modelled.
- GCStrong.AtomicPreserves: what only a userdata that waits for its finalizer refers to does not count as strong; that it
  is not freed is GCInvariant.Safety.
- Strings that are fixed, luaC_freeall and luaC_callGCTM when a state is closed.
- LuaTables.Table.Resize: the array part has at most 2^26 entries, since numusearray counts no further; memory errors
  and the limit on the hash part are not modelled.
- LuaTables.Table.ResizeArray: as its caller OP_SETLIST it makes the array part larger, never smaller.
- LuaTables.Table.Next: the error of an invalid key is a result.
- Fork handling, failures to create threads, and the environment variable for their number.
- PoolSafety.InternalLess: says that the workers come to rest if each step that is possible is taken at some time; the
  fairness of the system is not modelled.
- ThreadPools.ThreadPool.Submits: a request is submitted when it is not in progress, by the thread of its loop.
