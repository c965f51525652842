/** What expressions and instructions mean */
module LuaLaws {
  // The laws of the language reference for the evaluation of expressions and for the machine, in terms of the values
  // themselves: which values are false, what an operator does with two numbers, which operand comes first.

  import opened LuaVM
  import opened CodeGen

  // ---- which values are false ----------------------------------------------------------------------------------

  /** `not`, `and` and `or`: nil and false are false and every other value is true. */
  lemma LogicLaws(env: Env, l: Expr, r: Expr, s: Regs)
    ensures var (v, n) := (Eval(env, l, s), Eval(env, EUnary(LNot, l), s));
            var (a, o) := (Eval(env, EBinary(And, l, r), s), Eval(env, EBinary(Or, l, r), s));
            if v == Err then n == Err && a == Err && o == Err
            else if v == Val(Nil) || v == Val(Bool(false)) then n == Val(Bool(true)) && a == v && o == Eval(env, r, s)
            else n == Val(Bool(false)) && a == Eval(env, r, s) && o == v
  {
  }

  /** OP_NOT */
  lemma StepNot(env: Env, code: seq<Instr>, pc: nat, s: Regs, a: nat, b: nat)
    requires pc < |code| && code[pc] == Not(a, b) && a < 250 && b < 250
    ensures Step(env, code, At(pc, s)) == At(pc + 1, s[a := Bool(s[b] == Nil || s[b] == Bool(false))])
  {
  }

  /** OP_TEST: the jump behind it is taken if the value is false and C is 0, or if it is true and C is 1. */
  lemma StepTest(env: Env, code: seq<Instr>, pc: nat, s: Regs, a: nat, cond: bool, d: nat)
    requires pc + 1 < |code| && code[pc] == LuaVM.Test(a, cond) && code[pc + 1] == Jmp(d) && a < 250
    ensures Step(env, code, At(pc, s)) ==
            if s[a] == Nil || s[a] == Bool(false) then At(if cond then pc + 2 else pc + 2 + d, s)
            else At(if cond then pc + 2 + d else pc + 2, s)
  {
  }

  /** OP_TESTSET: the same, and the value is copied when the jump is taken. */
  lemma StepTestSet(env: Env, code: seq<Instr>, pc: nat, s: Regs, a: nat, b: nat, cond: bool, d: nat)
    requires pc + 1 < |code| && code[pc] == TestSet(a, b, cond) && code[pc + 1] == Jmp(d) && a < 250 && b < 250
    ensures Step(env, code, At(pc, s)) ==
            if s[b] == Nil || s[b] == Bool(false) then (if cond then At(pc + 2, s) else At(pc + 2 + d, s[a := s[b]]))
            else (if cond then At(pc + 2 + d, s[a := s[b]]) else At(pc + 2, s))
  {
  }

  // ---- operators -------------------------------------------------------------------------------------------------

  /** Other values are left to the coercions and metamethods of the operator, again in the order of the text, and an
      error in an operand is the error of the expression. */
  lemma OtherLaws(env: Env, op: ArithOp, l: Expr, r: Expr, s: Regs)
    ensures var (v, w) := (Eval(env, l, s), Eval(env, r, s));
            Eval(env, EBinary(BArith(op), l, r), s) ==
            if v == Err || w == Err then Err
            else if v.v.Number? && w.v.Number? then Val(Number(env.ops.num(op, v.v.n, w.v.n)))
            else env.ops.arithOther(op, v.v, w.v)
    ensures var v := Eval(env, l, s);
            Eval(env, EUnary(Length, l), s) == if v == Err then Err else env.ops.unaryOther(Len, v.v)
    ensures var v := Eval(env, l, s);
            v.Val? && !v.v.Number? ==> Eval(env, EUnary(Minus, l), s) == env.ops.unaryOther(Unm, v.v)
  {
  }

  // The value of a comparison: `sense` turns it around.
  function Compared(t: LuaVM.Test, sense: bool): Result {
    if t == TestErr then Err else Val(Bool(if sense then t.b else !t.b))
  }

  lemma CompareLaws(env: Env, l: Expr, r: Expr, s: Regs)
    ensures var (v, w) := (Eval(env, l, s), Eval(env, r, s));
            v.Val? && w.Val? ==>
              && Eval(env, EBinary(EQ, l, r), s) == Compared(env.ops.compare(Eq, v.v, w.v), true)
              && Eval(env, EBinary(NE, l, r), s) == Compared(env.ops.compare(Eq, v.v, w.v), false)
              && Eval(env, EBinary(LT, l, r), s) == Compared(env.ops.compare(Lt, v.v, w.v), true)
              && Eval(env, EBinary(LE, l, r), s) == Compared(env.ops.compare(Le, v.v, w.v), true)
              && Eval(env, EBinary(GT, l, r), s) == Compared(env.ops.compare(Lt, w.v, v.v), true)
              && Eval(env, EBinary(GE, l, r), s) == Compared(env.ops.compare(Le, w.v, v.v), true)
    ensures var (v, w) := (Eval(env, l, s), Eval(env, r, s));
            v == Err || w == Err ==>
              forall op :: op in {EQ, NE, LT, LE, GT, GE} ==> Eval(env, EBinary(op, l, r), s) == Err
  {
  }

  /** A parenthesis has the value of its expression, a name that of its variable. */
  lemma LeafLaws(env: Env, x: Expr, s: Regs, a: real, i: nat)
    requires i < 250
    ensures Eval(env, EParen(x), s) == Eval(env, x, s)
    ensures Eval(env, ENil, s) == Val(Nil)
    ensures Eval(env, ETrue, s) == Val(Bool(true)) && Eval(env, EFalse, s) == Val(Bool(false))
    ensures Eval(env, ENum(a), s) == Val(NumberOf(a)) && Eval(env, ELocal(i), s) == Val(s[i])
    ensures i < |env.up| ==> Eval(env, EUpval(i), s) == Val(env.up[i])
  {
  }

  // ---- numbers -------------------------------------------------------------------------------------------------

  // The operations on numbers are those of the real numbers, as far as they have a result.
  ghost predicate OfReals(ops: Ops) {
    && (forall a, b {:trigger ops.num(Add, Num(a), Num(b))} :: ops.num(Add, Num(a), Num(b)) == Num(a + b))
    && (forall a, b {:trigger ops.num(Sub, Num(a), Num(b))} :: ops.num(Sub, Num(a), Num(b)) == Num(a - b))
    && (forall a, b {:trigger ops.num(Mul, Num(a), Num(b))} :: ops.num(Mul, Num(a), Num(b)) == Num(a * b))
    && (forall a, b {:trigger ops.num(Div, Num(a), Num(b))} :: b != 0.0 ==> ops.num(Div, Num(a), Num(b)) == Num(a / b))
    && (forall a :: ops.neg(a) == -a)
    && OrderOfReals(ops)
  }

  ghost predicate OrderOfReals(ops: Ops) {
    && (forall a, b {:trigger ops.compare(Eq, NumberOf(a), NumberOf(b))} ::
          ops.compare(Eq, NumberOf(a), NumberOf(b)) == Holds(a == b))
    && (forall a, b {:trigger ops.compare(Lt, NumberOf(a), NumberOf(b))} ::
          ops.compare(Lt, NumberOf(a), NumberOf(b)) == Holds(a < b))
    && (forall a, b {:trigger ops.compare(Le, NumberOf(a), NumberOf(b))} ::
          ops.compare(Le, NumberOf(a), NumberOf(b)) == Holds(a <= b))
  }

  function NumberOf(a: real): Value {
    Number(Num(a))
  }

  lemma NumberArith(env: Env, op: ArithOp, l: Expr, r: Expr, s: Regs, a: real, b: real)
    requires Eval(env, l, s) == Val(NumberOf(a)) && Eval(env, r, s) == Val(NumberOf(b))
    ensures Eval(env, EBinary(BArith(op), l, r), s) == Val(Number(env.ops.num(op, Num(a), Num(b))))
  {
    OtherLaws(env, op, l, r, s);
  }

  /** Where numbers are reals, every operator gives what its name says, with its operands in the order of the text. */
  lemma NumberLaws(env: Env, l: Expr, r: Expr, s: Regs, a: real, b: real)
    requires OfReals(env.ops) && Eval(env, l, s) == Val(NumberOf(a)) && Eval(env, r, s) == Val(NumberOf(b))
    ensures Eval(env, EBinary(BArith(Add), l, r), s) == Val(NumberOf(a + b))
    ensures Eval(env, EBinary(BArith(Sub), l, r), s) == Val(NumberOf(a - b))
    ensures Eval(env, EBinary(BArith(Mul), l, r), s) == Val(NumberOf(a * b))
    ensures b != 0.0 ==> Eval(env, EBinary(BArith(Div), l, r), s) == Val(NumberOf(a / b))
    ensures Eval(env, EBinary(EQ, l, r), s) == Val(Bool(a == b))
    ensures Eval(env, EBinary(NE, l, r), s) == Val(Bool(a != b))
    ensures Eval(env, EBinary(LT, l, r), s) == Val(Bool(a < b))
    ensures Eval(env, EBinary(LE, l, r), s) == Val(Bool(a <= b))
    ensures Eval(env, EBinary(GT, l, r), s) == Val(Bool(a > b))
    ensures Eval(env, EBinary(GE, l, r), s) == Val(Bool(a >= b))
    ensures Eval(env, EUnary(Minus, l), s) == Val(NumberOf(-a))
  {
    hide Eval;
    CompareLaws(env, l, r, s);
    NumberArith(env, Add, l, r, s, a, b);
    NumberArith(env, Sub, l, r, s, a, b);
    NumberArith(env, Mul, l, r, s, a, b);
    NumberArith(env, Div, l, r, s, a, b);
    NumberMinus(env, l, s, a);
  }

  lemma NumberMinus(env: Env, l: Expr, s: Regs, a: real)
    requires Eval(env, l, s) == Val(NumberOf(a))
    ensures Eval(env, EUnary(Minus, l), s) == Val(NumberOf(env.ops.neg(a)))
  {
  }

  // ---- the machine on its operands -------------------------------------------------------------------------------

  // An operand below 256 is a register and one from 256 on is a constant.
  predicate OperandIs(env: Env, s: Regs, x: nat, v: Value) {
    if x < 256 then x < 250 && s[x] == v else x - 256 < |env.k| && env.k[x - 256] == v
  }

  /** The arithmetic instructions */
  lemma StepArith(env: Env, code: seq<Instr>, pc: nat, s: Regs, op: ArithOp, a: nat, b: nat, c: nat, v: Value, w: Value)
    requires pc < |code| && code[pc] == LuaVM.Arith(op, a, b, c) && a < 250
    requires OperandIs(env, s, b, v) && OperandIs(env, s, c, w)
    ensures var r := if v.Number? && w.Number? then Val(Number(env.ops.num(op, v.n, w.n)))
                     else env.ops.arithOther(op, v, w);
            Step(env, code, At(pc, s)) == if r == Err then Error else At(pc + 1, s[a := r.v])
  {
  }

  /** OP_EQ, OP_LT and OP_LE: the jump behind the comparison is taken if its outcome is A. */
  lemma StepCompare(env: Env, code: seq<Instr>, pc: nat, s: Regs, op: CompareOp, cond: bool, b: nat, c: nat, v: Value,
    w: Value, d: nat)
    requires pc + 1 < |code| && code[pc] == LuaVM.Compare(op, cond, b, c) && code[pc + 1] == Jmp(d)
    requires OperandIs(env, s, b, v) && OperandIs(env, s, c, w)
    ensures Step(env, code, At(pc, s)) ==
            match env.ops.compare(op, v, w)
            case TestErr => Error
            case Holds(h) => At(if h == cond then pc + 2 + d else pc + 2, s)
  {
  }

  /** Loads and moves: each changes the register A and nothing else, LOADNIL the registers from A to B. */
  lemma StepLoads(env: Env, code: seq<Instr>, pc: nat, s: Regs, a: nat, b: nat, bx: nat, v: bool, skip: bool)
    requires pc < |code| && a < 250
    ensures code[pc] == Move(a, b) && b < 250 ==> Step(env, code, At(pc, s)) == At(pc + 1, s[a := s[b]])
    ensures code[pc] == LoadK(a, bx) && bx < |env.k| ==> Step(env, code, At(pc, s)) == At(pc + 1, s[a := env.k[bx]])
    ensures code[pc] == LoadBool(a, v, skip) ==>
              Step(env, code, At(pc, s)) == At(if skip then pc + 2 else pc + 1, s[a := Bool(v)])
    ensures code[pc] == GetUpval(a, b) && b < |env.up| ==> Step(env, code, At(pc, s)) == At(pc + 1, s[a := env.up[b]])
    ensures code[pc] == LoadNil(a, b) && a <= b < 250 ==>
              var c := Step(env, code, At(pc, s));
              c.At? && c.pc == pc + 1 && forall i :: 0 <= i < 250 ==> c.s[i] == if a <= i <= b then Nil else s[i]
    ensures code[pc] == Jmp(bx) ==> Step(env, code, At(pc, s)) == At(pc + 1 + bx, s)
  {
  }

  /** OP_UNM and OP_LEN */
  lemma StepUnary(env: Env, code: seq<Instr>, pc: nat, s: Regs, op: UnaryOp, a: nat, b: nat)
    requires pc < |code| && code[pc] == LuaVM.Unary(op, a, b) && a < 250 && b < 250
    ensures var r := if op == Unm && s[b].Number? && s[b].n.Num? then Val(NumberOf(env.ops.neg(s[b].n.r)))
                     else if op == Unm && s[b].Number? then Val(Number(NaN)) else env.ops.unaryOther(op, s[b]);
            Step(env, code, At(pc, s)) == if r == Err then Error else At(pc + 1, s[a := r.v])
  {
  }

  // ---- constants that the generator computes -----------------------------------------------------------------------

  /** An operation on two numerals is done by the generator exactly when it does not divide by zero and has a result. */
  lemma FoldLaws(fs: FS, op: ArithOp, a: real, b: real)
    ensures var g := GenExpr(fs, EBinary(BArith(op), ENum(a), ENum(b)));
            var n := fs.ops.num(op, Num(a), Num(b));
            if n == NaN || (b == 0.0 && (op == Div || op == Mod)) then g.e.k.VReloc?
            else g == Gen(fs, Exp(VKNum(n.r), [], []))
    ensures GenExpr(fs, EUnary(Minus, ENum(a))) == Gen(fs, Exp(VKNum(fs.ops.neg(a)), [], []))
  {
    hide Exp2RK, Emit, Free2;
    var e1, e2 := Exp(VKNum(a), [], []), Exp(VKNum(b), [], []);
    assert GenExpr(fs, ENum(a)) == Gen(fs, e1);
    assert Infix(fs, BArith(op), e1) == Gen(fs, e1);
    assert GenExpr(fs, EBinary(BArith(op), ENum(a), ENum(b))) == CodeArith(fs, op, e1, e2);
  }

  /** A constant is an operand exactly if its index fits, that is up to 255. */
  lemma ConstantOperand(fs: FS, e: Exp)
    requires !HasJumps(e)
    ensures e.k.VNil? || e.k.VTrue? || e.k.VFalse? || e.k.VKNum? ==> (Exp2RK(fs, e).e.k.VK? <==> |fs.ks| <= 255)
    ensures e.k.VK? ==> (Exp2RK(fs, e).e.k.VK? <==> e.k.k <= 255)
  {
    hide CloseLists, Discharge2Reg, AddK;
  }

  /** The test of a value in a register names no register for the value yet: its A is 255. */
  lemma TestNamesNone(fs: FS, e: Exp, cond: bool)
    requires e.k.VNonReloc?
    ensures var code := JumpOnCond(fs, e, cond).code;
            |code| >= 2 && code[|code| - 2] == TestSet(255, e.k.reg, cond)
  {
    hide Discharge;
  }
}
