/** The part of the Lua 5.1 virtual machine that evaluates expressions (lvm.c, lopcodes.h).

    Two views of the same instructions are given.  `Step` is the machine: it follows every jump, also a
    backward one.  `Run` follows code that is still being generated: it only moves forward and stops at a
    jump whose destination is not known yet, which the generator keeps in a list of pending jumps. */
module LuaVM {

  // MAXSTACK of llimits.h: the generator refuses a function that needs more registers.
  const MAXSTACK: nat := 250

  // BITRK of lopcodes.h: operands from here on name constants, operands below name registers.
  const BITRK: nat := 256

  // A number other than NaN, or NaN.  The arithmetic on them is a parameter of the model.
  datatype Number = Num(r: real) | NaN

  datatype Value = Nil | Bool(b: bool) | Number(n: Number) | Object(id: nat)

  datatype Result = Val(v: Value) | Err

  datatype Test = Holds(b: bool) | TestErr

  datatype ArithOp = Add | Sub | Mul | Div | Mod | Pow

  datatype UnaryOp = Unm | Len

  datatype CompareOp = Eq | Lt | Le

  /** What the machine computes on operands: number arithmetic (`num`, `neg`), and for all other operands
      whatever coercions and metamethods give, or an error.  They are arbitrary functions of the operands. */
  datatype Ops = Ops(
    num: (ArithOp, Number, Number) -> Number,
    neg: real -> real,
    arithOther: (ArithOp, Value, Value) -> Result,
    unaryOther: (UnaryOp, Value) -> Result,
    compare: (CompareOp, Value, Value) -> Test)

  datatype Instr =
    | Move(a: nat, b: nat)
    | LoadK(a: nat, bx: nat)
    | LoadBool(a: nat, value: bool, skip: bool)
    | LoadNil(a: nat, b: nat)
    | GetUpval(a: nat, b: nat)
    | Arith(op: ArithOp, a: nat, b: nat, c: nat)
    | Unary(uop: UnaryOp, a: nat, b: nat)
    | Not(a: nat, b: nat)
    | Jmp(sbx: int)
    | Compare(cop: CompareOp, cond: bool, b: nat, c: nat)
    | Test(a: nat, cond: bool)
    | TestSet(a: nat, b: nat, cond: bool)
    | Other(w: nat)  // every instruction that expressions of the fragment do not use

  type Regs = s: seq<Value> | |s| == MAXSTACK witness seq(MAXSTACK, _ => Nil)

  // The parts of a frame that expressions only read: operations, constants, upvalue cells.
  datatype Env = Env(ops: Ops, k: seq<Value>, up: seq<Value>)

  predicate IsTest(i: Instr) {
    i.Compare? || i.Test? || i.TestSet?
  }

  predicate Falsy(v: Value) {
    v == Nil || v == Bool(false)
  }

  // ---- what an instruction computes ---------------------------------------------------------------

  // A value, a run-time error, or an operand outside the frame (which must never happen).
  datatype Outcome<+T> = Got(r: T) | Raise | Bad

  function Reg(s: Regs, x: nat): Outcome<Value> {
    if x < MAXSTACK then Got(s[x]) else Bad
  }

  function Rk(env: Env, s: Regs, x: nat): Outcome<Value> {
    if x < BITRK then Reg(s, x) else if x - BITRK < |env.k| then Got(env.k[x - BITRK]) else Bad
  }

  function ArithValue(ops: Ops, op: ArithOp, v: Value, w: Value): Result {
    if v.Number? && w.Number? then Val(Number(ops.num(op, v.n, w.n))) else ops.arithOther(op, v, w)
  }

  function UnaryValue(ops: Ops, op: UnaryOp, v: Value): Result {
    if op == Unm && v.Number? then Val(Number(match v.n case Num(a) => Num(ops.neg(a)) case NaN => NaN))
    else ops.unaryOther(op, v)
  }

  function OfResult(r: Result): Outcome<Value> {
    match r case Val(v) => Got(v) case Err => Raise
  }

  // Instructions that compute one value into register A.
  predicate Loads(i: Instr) {
    i.Move? || i.LoadK? || i.LoadBool? || i.GetUpval? || i.Arith? || i.Unary? || i.Not?
  }

  // The value that `i` puts in its register A.
  function Computed(env: Env, i: Instr, s: Regs): Outcome<Value> {
    match i
    case Move(_, b) => Reg(s, b)
    case LoadK(_, bx) => if bx < |env.k| then Got(env.k[bx]) else Bad
    case LoadBool(_, v, _) => Got(Bool(v))
    case GetUpval(_, b) => if b < |env.up| then Got(env.up[b]) else Bad
    case Arith(op, _, b, c) =>
      (match (Rk(env, s, b), Rk(env, s, c))
       case (Got(v), Got(w)) => OfResult(ArithValue(env.ops, op, v, w))
       case _ => Bad)
    case Unary(op, _, b) => (match Reg(s, b) case Got(v) => OfResult(UnaryValue(env.ops, op, v)) case _ => Bad)
    case Not(_, b) => (match Reg(s, b) case Got(v) => Got(Bool(Falsy(v))) case _ => Bad)
    case _ => Bad
  }

  function SetNils(s: Regs, a: nat, b: nat): Regs
    requires a <= b < MAXSTACK
  {
    seq(MAXSTACK, i requires 0 <= i < MAXSTACK => if a <= i <= b then Nil else s[i])
  }

  // An instruction that neither jumps nor skips: the registers after it.
  function Simple(env: Env, i: Instr, s: Regs): Outcome<Regs> {
    if i.LoadNil? then
      if i.a <= i.b < MAXSTACK then Got(SetNils(s, i.a, i.b)) else Bad
    else if !Loads(i) then Bad
    else
      match Computed(env, i, s)
      case Got(v) => if i.a < MAXSTACK then Got(s[i.a := v]) else Bad
      case Raise => Raise
      case Bad => Bad
  }

  // Whether a test instruction takes the jump that follows it.
  function Taken(env: Env, i: Instr, s: Regs): Outcome<bool>
    requires IsTest(i)
  {
    match i
    case Compare(op, cond, b, c) =>
      (match (Rk(env, s, b), Rk(env, s, c))
       case (Got(v), Got(w)) =>
         (match env.ops.compare(op, v, w) case Holds(x) => Got(x == cond) case TestErr => Raise)
       case _ => Bad)
    case Test(a, cond) => (match Reg(s, a) case Got(v) => Got(Falsy(v) != cond) case _ => Bad)
    case TestSet(_, b, cond) => (match Reg(s, b) case Got(v) => Got(Falsy(v) != cond) case _ => Bad)
  }

  // The registers after a taken test: TESTSET also copies its operand.
  function AfterTaken(i: Instr, s: Regs): Outcome<Regs>
    requires IsTest(i)
  {
    if i.TestSet? then
      if i.a < MAXSTACK && i.b < MAXSTACK then Got(s[i.a := s[i.b]]) else Bad
    else Got(s)
  }

  // ---- the machine ---------------------------------------------------------------------------------

  datatype Config = At(pc: nat, s: Regs) | Error | Undefined

  /** One turn of the interpreter loop. A test and the jump behind it are one turn, as in the source. */
  function Step(env: Env, code: seq<Instr>, c: Config): Config
    requires c.At?
  {
    if c.pc >= |code| then Undefined
    else
      var i := code[c.pc];
      if i.Jmp? then Jump(c.pc + 1 + i.sbx, c.s)
      else if IsTest(i) then
        match Taken(env, i, c.s)
        case Bad => Undefined
        case Raise => Error
        case Got(taken) =>
          if !taken then At(c.pc + 2, c.s)
          else if c.pc + 1 < |code| && code[c.pc + 1].Jmp? && AfterTaken(i, c.s).Got? then
            Jump(c.pc + 2 + code[c.pc + 1].sbx, AfterTaken(i, c.s).r)
          else Undefined
      else
        match Simple(env, i, c.s)
        case Bad => Undefined
        case Raise => Error
        case Got(s) => At(c.pc + (if i.LoadBool? && i.skip then 2 else 1), s)
  }

  function Jump(target: int, s: Regs): Config {
    if target < 0 then Undefined else At(target, s)
  }

  ghost predicate Steps(env: Env, code: seq<Instr>, c: Config, d: Config, n: nat)
    decreases n
  {
    if n == 0 then c == d else c.At? && Steps(env, code, Step(env, code, c), d, n - 1)
  }

  // ---- running code under construction -------------------------------------------------------------

  /** How a forward run ends: at the end of the code, at the pending jump `j`, with a run-time error, or
      in a place where code must not go (an operand outside the frame, a backward jump, the jump that
      belongs to a test). */
  datatype Out = Fall(s: Regs) | Exit(j: nat, s: Regs) | Fault | Wrong

  // `pc` is the jump half of a test-and-jump pair.
  predicate Half(code: seq<Instr>, pc: nat) {
    0 < pc <= |code| && IsTest(code[pc - 1])
  }

  function Run(env: Env, code: seq<Instr>, pend: set<nat>, pc: nat, s: Regs): Out
    decreases |code| - pc
  {
    if pc > |code| || Half(code, pc) then Wrong
    else if pc == |code| then Fall(s)
    else
      var i := code[pc];
      if i.Jmp? then
        if pc in pend then Exit(pc, s) else RunTo(env, code, pend, pc, pc + 1 + i.sbx, s)
      else if IsTest(i) then
        match Taken(env, i, s)
        case Bad => Wrong
        case Raise => Fault
        case Got(taken) =>
          if !taken then Run(env, code, pend, pc + 2, s)
          else if pc + 1 in pend then Exit(pc + 1, s)
          else if pc + 1 < |code| && code[pc + 1].Jmp? && AfterTaken(i, s).Got? then
            RunTo(env, code, pend, pc, pc + 2 + code[pc + 1].sbx, AfterTaken(i, s).r)
          else Wrong
      else
        match Simple(env, i, s)
        case Bad => Wrong
        case Raise => Fault
        case Got(s') => Run(env, code, pend, pc + (if i.LoadBool? && i.skip then 2 else 1), s')
  }

  function RunTo(env: Env, code: seq<Instr>, pend: set<nat>, pc: nat, target: int, s: Regs): Out
    decreases |code| - pc, 0
    requires pc < |code|
  {
    if pc < target <= |code| then Run(env, code, pend, target, s) else Wrong
  }

  // One turn of the machine and what it leaves of a forward run of finished code.
  lemma RunUnfolds(env: Env, code: seq<Instr>, pc: nat, s: Regs)
    requires pc < |code| && !Half(code, pc)
    ensures var c := Step(env, code, At(pc, s));
            Run(env, code, {}, pc, s) ==
            if c == Error then Fault
            else if c.At? && pc < c.pc then Run(env, code, {}, c.pc, c.s) else Wrong
  {
    var i := code[pc];
    if i.Jmp? {
    } else if IsTest(i) {
      if Taken(env, i, s).Got? {
      }
    } else {
    }
  }

  /** A forward run of finished code is a run of the machine. */
  lemma {:induction false} RunIsMachine(env: Env, code: seq<Instr>, pc: nat, s: Regs) returns (n: nat)
    ensures match Run(env, code, {}, pc, s)
            case Fall(t) => Steps(env, code, At(pc, s), At(|code|, t), n)
            case Fault => Steps(env, code, At(pc, s), Error, n)
            case Exit(_, _) => false
            case Wrong => true
    decreases |code| - pc
  {
    n := 0;
    if pc < |code| && !Half(code, pc) {
      RunUnfolds(env, code, pc, s);
      var c := Step(env, code, At(pc, s));
      if c.At? && pc < c.pc {
        n := RunIsMachine(env, code, c.pc, c.s);
      }
      assert c == Error ==> Steps(env, code, c, Error, 0);
      n := n + 1;
    }
  }
}
