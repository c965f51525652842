/** Arithmetic and comparisons: both operands are in place before the instruction that uses them. */
module CodeGenArith {
  import opened Basics
  import opened LuaVM
  import opened CodeGen
  import opened CodeRun
  import opened CodeGenState
  import opened CodeGenSteps
  import opened CodeGenReg
  import opened CodeGenLists
  import opened CodeGenExp
  import opened CodeGenCond

  // ---- operands ----------------------------------------------------------------------------------------

  lemma OperandValue(env: Env, fs: FS, e: Exp, t: Regs)
    requires IsOperand(e) && WFE(fs, e)
    ensures Rk(env, t, Operand(e)) == Described(env, fs, e, t)
  {
  }

  // An expression without code of its own: it means the same at any state that still has its constant.
  lemma NumeralAnywhere(env: Env, fs: FS, e: Exp, at: nat, s: Regs)
    requires IsNumeral(e) && WF(fs)
    ensures Inv(fs, fs, e)
    ensures Means(env, fs, fs, e, MAXSTACK, Val(Number(Num(e.k.num))), at, s)
  {
    assert ArriveExp(env, fs, e, at, s) == Arrive(env, fs, at, s);
  }

  lemma StartLater(fs0: FS, fs: FS, at: nat, s: Regs)
    requires Ext(fs0, fs) && Start(fs0, at, s)
    ensures Start(fs, at, s)
  {
  }

  // Both operands are in place: they have their values wherever the run falls through.
  ghost predicate PairDelivers(env: Env, fs: FS, e1: Exp, e2: Exp, n: nat, s1: Regs, r1: Result, r2: Result, o: Out) {
    match o
    case Fall(t) =>
      && Agree(s1, t, n, MAXSTACK) && r1.Val? && r2.Val?
      && Rk(env, t, Operand(e1)) == Got(r1.v) && Rk(env, t, Operand(e2)) == Got(r2.v)
    case Exit(_, _) => false
    case Fault => r1.Err? || r2.Err?
    case Wrong => false
  }

  ghost predicate PairMeans(env: Env, fs0: FS, fs: FS, e1: Exp, e2: Exp, r1: Result, r2: Result, at: nat, s: Regs) {
    var o := Arrive(env, fs0, at, s);
    match o
    case Fall(s1) => PairDelivers(env, fs, e1, e2, fs0.freereg, s1, r1, r2, Arrive(env, fs, at, s))
    case Wrong => true
    case _ => Arrive(env, fs, at, s) == o
  }

  // How many registers an operand holds above those in use.
  function Held(fs: FS, e: Exp): nat {
    if IsTemp(fs, e) then 1 else 0
  }

  ghost predicate PairInv(fs0: FS, fs: FS, e1: Exp, e2: Exp) {
    && WF(fs) && Ext(fs0, fs) && IsOperand(e1) && IsOperand(e2) && WFE(fs, e1) && WFE(fs, e2)
    && fs.freereg == fs0.freereg + Held(fs, e1) + Held(fs, e2)
  }

  // The left operand was put in place before the right expression was compiled.
  lemma LeftFirstInv(fs0: FS, fs1: FS, e1: Exp, fs2: FS, e2: Exp)
    requires WF(fs0) && Inv(fs0, fs1, e1) && IsOperand(e1) && Inv(fs1, fs2, e2) && IsOperand(e2)
    ensures PairInv(fs0, fs2, e1, e2)
  {
    ExtTrans(fs0, fs1, fs2);
  }

  lemma LeftFirstDelivers(env: Env, fs1: FS, e1: Exp, fs2: FS, e2: Exp, n: nat, s1: Regs, u: Regs, r1: Result,
    r2: Result, o: Out)
    requires WFE(fs1, e1) && IsOperand(e1) && WFE(fs2, e2) && IsOperand(e2) && n <= fs1.freereg
    requires e1.k.VNonReloc? ==> e1.k.reg < fs1.freereg
    requires Delivers(env, fs1, e1, n, MAXSTACK, s1, r1, Fall(u))
    requires Delivers(env, fs2, e2, fs1.freereg, MAXSTACK, u, r2, o)
    ensures PairDelivers(env, fs2, e1, e2, n, s1, r1, r2, o)
  {
    OperandValue(env, fs1, e1, u);
    if o.Fall? {
      OperandValue(env, fs2, e2, o.s);
      OperandValue(env, fs1, e1, o.s);
    }
  }

  lemma LeftFirstMeans(env: Env, fs0: FS, fs1: FS, e1: Exp, fs2: FS, e2: Exp, r1: Result, r2: Result, at: nat, s: Regs)
    requires WF(fs0) && Inv(fs0, fs1, e1) && IsOperand(e1) && Inv(fs1, fs2, e2) && IsOperand(e2)
    requires Means(env, fs0, fs1, e1, MAXSTACK, r1, at, s) && Means(env, fs1, fs2, e2, MAXSTACK, r2, at, s)
    ensures PairMeans(env, fs0, fs2, e1, e2, r1, r2, at, s)
  {
    assert ArriveExp(env, fs1, e1, at, s) == Arrive(env, fs1, at, s);
    assert ArriveExp(env, fs2, e2, at, s) == Arrive(env, fs2, at, s);
    var o0, o1, o2 := Arrive(env, fs0, at, s), Arrive(env, fs1, at, s), Arrive(env, fs2, at, s);
    if o0.Fall? && o1.Fall? {
      LeftFirstDelivers(env, fs1, e1, fs2, e2, fs0.freereg, o0.s, o1.s, r1, r2, o2);
    }
  }

  // The left operand is a numeral, put in place only now, behind the right operand e2.
  lemma RightFirstInv(fs0: FS, fs1: FS, e1: Exp, fs2: FS, e2: Exp, fs3: FS, e3: Exp)
    requires WF(fs0) && Inv(fs0, fs1, e1) && IsNumeral(e1)
    requires Inv(fs1, fs2, e2) && IsOperand(e2) && Inv(fs2, fs3, e3) && IsOperand(e3)
    ensures PairInv(fs0, fs3, e3, e2)
  {
    LeftFirstInv(fs1, fs2, e2, fs3, e3);
    ExtTrans(fs0, fs1, fs3);
  }

  lemma RightFirstMeans(env: Env, fs0: FS, fs1: FS, e1: Exp, fs2: FS, e2: Exp, fs3: FS, e3: Exp, r1: Result,
    r2: Result, at: nat, s: Regs)
    requires WF(fs0) && Inv(fs0, fs1, e1) && IsNumeral(e1)
    requires Inv(fs1, fs2, e2) && IsOperand(e2) && Inv(fs2, fs3, e3) && IsOperand(e3)
    requires Means(env, fs0, fs1, e1, MAXSTACK, r1, at, s) && Means(env, fs1, fs2, e2, MAXSTACK, r2, at, s)
    requires Means(env, fs2, fs3, e3, MAXSTACK, Val(Number(Num(e1.k.num))), at, s)
    ensures PairMeans(env, fs0, fs3, e3, e2, r1, r2, at, s)
  {
    LeftFirstMeans(env, fs1, fs2, e2, fs3, e3, r2, Val(Number(Num(e1.k.num))), at, s);
    assert ArriveExp(env, fs1, e1, at, s) == Arrive(env, fs1, at, s);
  }

  // ---- the instruction ---------------------------------------------------------------------------------

  lemma OperandStays(fs: FS, e: Exp)
    requires IsOperand(e)
    ensures Exp2RK(fs, e) == Gen(fs, e)
  {
  }

  lemma Free2Same(fs: FS, e1: Exp, e2: Exp)
    requires Held(fs, e1) + Held(fs, e2) <= fs.freereg
    ensures var v := Free2(fs, e1, e2);
            && v == FreeExp(FreeExp(fs, e2), e1) && SameCode(fs, v) && v.maxstack == fs.maxstack
            && v.freereg == fs.freereg - Held(fs, e1) - Held(fs, e2)
  {
  }

  lemma Free2Inv(fs0: FS, fs: FS, e1: Exp, e2: Exp)
    requires WF(fs0) && PairInv(fs0, fs, e1, e2)
    ensures var v := Free2(fs, e1, e2);
            var w := FreeExp(FreeExp(fs, e2), e1);
            && v.freereg == fs0.freereg && w == v
            && WF(v) && Ext(fs0, v) && WFE(v, e1) && WFE(v, e2) && SameCode(fs, v)
  {
    hide Free2, FreeExp, SameCode;
    Free2Same(fs, e1, e2);
    SameCodeKeeps(fs0, fs, Free2(fs, e1, e2), e1);
    SameCodeKeeps(fs0, fs, Free2(fs, e1, e2), e2);
    Free2Bounds(fs0, fs, e1, e2);
  }

  lemma Free2Bounds(fs0: FS, fs: FS, e1: Exp, e2: Exp)
    requires WF(fs0) && PairInv(fs0, fs, e1, e2)
    ensures var v := Free2(fs, e1, e2);
            v.nactvar <= v.freereg <= v.maxstack < MAXSTACK
  {
    hide Free2, FreeExp;
    Free2Same(fs, e1, e2);
  }

  lemma PairSame(env: Env, fs0: FS, a: FS, b: FS, e1: Exp, e2: Exp, r1: Result, r2: Result, at: nat, s: Regs)
    requires SameCode(a, b) && PairMeans(env, fs0, a, e1, e2, r1, r2, at, s)
    ensures PairMeans(env, fs0, b, e1, e2, r1, r2, at, s)
  {
    assert Arrive(env, b, at, s) == Arrive(env, a, at, s);
  }

  function ArithResult(ops: Ops, op: ArithOp, r1: Result, r2: Result): Result {
    if r1.Val? && r2.Val? then ArithValue(ops, op, r1.v, r2.v) else Err
  }

  lemma ArithInv(fs0: FS, fs: FS, op: ArithOp, e1: Exp, e2: Exp)
    requires WF(fs0) && PairInv(fs0, fs, e1, e2)
    ensures var v := Free2(fs, e1, e2);
            Inv(fs0, Emit(v, LuaVM.Arith(op, 0, Operand(e1), Operand(e2))), Open(v, e1))
  {
    hide Free2, Emit, FreeExp;
    Free2Inv(fs0, fs, e1, e2);
    SuspendWF(fs0, Free2(fs, e1, e2), e1, LuaVM.Arith(op, 0, Operand(e1), Operand(e2)));
  }

  lemma ArithMeans(env: Env, fs0: FS, fs: FS, op: ArithOp, e1: Exp, e2: Exp, r1: Result, r2: Result, at: nat, s: Regs)
    requires WF(fs0) && PairInv(fs0, fs, e1, e2) && PairMeans(env, fs0, fs, e1, e2, r1, r2, at, s)
    ensures var v := Free2(fs, e1, e2);
            Means(env, fs0, Emit(v, LuaVM.Arith(op, 0, Operand(e1), Operand(e2))), Open(v, e1), MAXSTACK,
                  ArithResult(env.ops, op, r1, r2), at, s)
  {
    hide Free2, Emit, FreeExp;
    var v := Free2(fs, e1, e2);
    var i := LuaVM.Arith(op, 0, Operand(e1), Operand(e2));
    Free2Inv(fs0, fs, e1, e2);
    PairSame(env, fs0, fs, v, e1, e2, r1, r2, at, s);
    EmitCore(env, v, i, Open(v, e1), at, s);
    var o0, o := Arrive(env, fs0, at, s), Arrive(env, v, at, s);
    if o0.Fall? {
      SuspendDelivers(env, v, e1, i, fs0.freereg, MAXSTACK, o0.s, ArithResult(env.ops, op, r1, r2), o);
    }
  }

  /** codearith, when nothing is folded: e1 is an operand, or a numeral that is put in place now. */
  lemma OperandsInv(fs0: FS, fs1: FS, e1: Exp, fs2: FS, e2: Exp)
    requires WF(fs0) && Inv(fs0, fs1, e1) && (IsOperand(e1) || IsNumeral(e1)) && Inv(fs1, fs2, e2)
    requires Exp2RK(Exp2RK(fs2, e2).fs, e1).fs.ok
    ensures var g2 := Exp2RK(fs2, e2);
            var g1 := Exp2RK(g2.fs, e1);
            PairInv(fs0, g1.fs, g1.e, g2.e)
  {
    hide Exp2RK;
    var g2 := Exp2RK(fs2, e2);
    assert g2.fs.ok;
    RKInv(fs1, fs2, e2);
    if IsOperand(e1) {
      OperandStays(g2.fs, e1);
      LeftFirstInv(fs0, fs1, e1, g2.fs, g2.e);
    } else {
      NumeralInv(g2.fs, e1);
      RKInv(g2.fs, g2.fs, e1);
      var g1 := Exp2RK(g2.fs, e1);
      RightFirstInv(fs0, fs1, e1, g2.fs, g2.e, g1.fs, g1.e);
    }
  }

  lemma NumeralInv(fs: FS, e: Exp)
    requires IsNumeral(e) && WF(fs)
    ensures Inv(fs, fs, e)
  {
  }

  lemma OperandsMeans(env: Env, fs0: FS, fs1: FS, e1: Exp, fs2: FS, e2: Exp, r1: Result, r2: Result, at: nat, s: Regs)
    requires WF(fs0) && Inv(fs0, fs1, e1) && (IsOperand(e1) || IsNumeral(e1)) && Inv(fs1, fs2, e2)
    requires Exp2RK(Exp2RK(fs2, e2).fs, e1).fs.ok && Exp2RK(Exp2RK(fs2, e2).fs, e1).fs.ks <= env.k
    requires Start(fs0, at, s)
    requires Means(env, fs0, fs1, e1, MAXSTACK, r1, at, s) && Means(env, fs1, fs2, e2, MAXSTACK, r2, at, s)
    ensures var g2 := Exp2RK(fs2, e2);
            var g1 := Exp2RK(g2.fs, e1);
            PairMeans(env, fs0, g1.fs, g1.e, g2.e, r1, r2, at, s)
  {
    hide Exp2RK, Means, PairMeans, Start;
    var g2 := Exp2RK(fs2, e2);
    assert g2.fs.ok && g2.fs.ks <= env.k;
    StartLater(fs0, fs1, at, s);
    RKInv(fs1, fs2, e2);
    RKMeans(env, fs1, fs2, e2, r2, at, s);
    if IsOperand(e1) {
      OperandStays(g2.fs, e1);
      LeftFirstMeans(env, fs0, fs1, e1, g2.fs, g2.e, r1, r2, at, s);
    } else {
      NumeralAnywhere(env, g2.fs, e1, at, s);
      StartLater(fs1, g2.fs, at, s);
      RKInv(g2.fs, g2.fs, e1);
      RKMeans(env, g2.fs, g2.fs, e1, Val(Number(Num(e1.k.num))), at, s);
      var g1 := Exp2RK(g2.fs, e1);
      RightFirstMeans(env, fs0, fs1, e1, g2.fs, g2.e, g1.fs, g1.e, r1, r2, at, s);
    }
  }

  // ---- binary arithmetic -------------------------------------------------------------------------------

  predicate Folds(fs: FS, op: ArithOp, e1: Exp, e2: Exp) {
    IsNumeral(e1) && IsNumeral(e2) && Fold(fs.ops, op, e1.k.num, e2.k.num).Some?
  }

  lemma FoldInv(fs0: FS, fs1: FS, e1: Exp, fs2: FS, e2: Exp, c: real)
    requires WF(fs0) && Inv(fs0, fs1, e1) && IsNumeral(e1) && Inv(fs1, fs2, e2) && IsNumeral(e2)
    ensures Inv(fs0, fs2, e1.(k := VKNum(c)))
  {
    ExtTrans(fs0, fs1, fs2);
  }

  lemma FoldMeans(env: Env, fs0: FS, fs1: FS, e1: Exp, fs2: FS, e2: Exp, op: ArithOp, r1: Result, r2: Result, at: nat,
    s: Regs)
    requires WF(fs0) && Inv(fs0, fs1, e1) && Inv(fs1, fs2, e2) && Folds(fs2, op, e1, e2) && fs2.ops == env.ops
    requires Means(env, fs0, fs1, e1, MAXSTACK, r1, at, s) && Means(env, fs1, fs2, e2, MAXSTACK, r2, at, s)
    ensures Means(env, fs0, fs2, e1.(k := VKNum(Fold(fs2.ops, op, e1.k.num, e2.k.num).value)), MAXSTACK,
                  ArithResult(env.ops, op, r1, r2), at, s)
  {
    var e := e1.(k := VKNum(Fold(fs2.ops, op, e1.k.num, e2.k.num).value));
    assert ArriveExp(env, fs1, e1, at, s) == Arrive(env, fs1, at, s);
    assert ArriveExp(env, fs2, e2, at, s) == Arrive(env, fs2, at, s);
    assert ArriveExp(env, fs2, e, at, s) == Arrive(env, fs2, at, s);
  }

  lemma CodeArithParts(fs: FS, op: ArithOp, e1: Exp, e2: Exp)
    requires !Folds(fs, op, e1, e2)
    ensures var g2 := Exp2RK(fs, e2);
            var g1 := Exp2RK(g2.fs, e1);
            var v := Free2(g1.fs, g1.e, g2.e);
            CodeArith(fs, op, e1, e2) == Gen(Emit(v, LuaVM.Arith(op, 0, Operand(g1.e), Operand(g2.e))), Open(v, g1.e))
  {
    hide Exp2RK, Free2;
    var g2 := Exp2RK(fs, e2);
    var g1 := Exp2RK(g2.fs, e1);
    var v := Free2(g1.fs, g1.e, g2.e);
    EmitLast(v, LuaVM.Arith(op, 0, Operand(g1.e), Operand(g2.e)));
  }

  lemma EmitLast(fs: FS, i: Instr)
    ensures Emit(fs, i).Pc() - 1 == |fs.code|
  {
  }

  /** codearith: folded or not, the result is that of the operator on the operands' values. */
  lemma CodeArithInv(fs0: FS, fs1: FS, op: ArithOp, e1: Exp, fs2: FS, e2: Exp)
    requires WF(fs0) && Inv(fs0, fs1, e1) && (IsOperand(e1) || IsNumeral(e1)) && Inv(fs1, fs2, e2)
    requires CodeArith(fs2, op, e1, e2).fs.ok
    ensures var g := CodeArith(fs2, op, e1, e2);
            Inv(fs0, g.fs, g.e) && !g.e.k.VK?
  {
    hide Exp2RK, Free2, Emit, Inv, WF;
    if Folds(fs2, op, e1, e2) {
      FoldInv(fs0, fs1, e1, fs2, e2, Fold(fs2.ops, op, e1.k.num, e2.k.num).value);
    } else {
      CodeArithParts(fs2, op, e1, e2);
      OperandsInv(fs0, fs1, e1, fs2, e2);
      var g2 := Exp2RK(fs2, e2);
      var g1 := Exp2RK(g2.fs, e1);
      ArithInv(fs0, g1.fs, op, g1.e, g2.e);
    }
  }

  lemma CodeArithMeans(env: Env, fs0: FS, fs1: FS, op: ArithOp, e1: Exp, fs2: FS, e2: Exp, r1: Result, r2: Result,
    at: nat, s: Regs)
    requires WF(fs0) && Inv(fs0, fs1, e1) && (IsOperand(e1) || IsNumeral(e1)) && Inv(fs1, fs2, e2) && fs2.ops == env.ops
    requires CodeArith(fs2, op, e1, e2).fs.ok && CodeArith(fs2, op, e1, e2).fs.ks <= env.k
    requires Start(fs0, at, s)
    requires Means(env, fs0, fs1, e1, MAXSTACK, r1, at, s) && Means(env, fs1, fs2, e2, MAXSTACK, r2, at, s)
    ensures var g := CodeArith(fs2, op, e1, e2);
            Means(env, fs0, g.fs, g.e, MAXSTACK, ArithResult(env.ops, op, r1, r2), at, s)
  {
    hide Exp2RK, Free2, Emit, Inv, WF, Means, Start;
    if Folds(fs2, op, e1, e2) {
      FoldMeans(env, fs0, fs1, e1, fs2, e2, op, r1, r2, at, s);
    } else {
      CodeArithParts(fs2, op, e1, e2);
      OperandsInv(fs0, fs1, e1, fs2, e2);
      OperandsMeans(env, fs0, fs1, e1, fs2, e2, r1, r2, at, s);
      var g2 := Exp2RK(fs2, e2);
      var g1 := Exp2RK(g2.fs, e1);
      ArithMeans(env, fs0, g1.fs, op, g1.e, g2.e, r1, r2, at, s);
    }
  }

  // ---- unary minus and length --------------------------------------------------------------------------

  function UnaryResult(ops: Ops, op: UnaryOp, r: Result): Result {
    if r.Val? then UnaryValue(ops, op, r.v) else Err
  }

  lemma UnaryInv(fs0: FS, fs: FS, op: UnaryOp, e: Exp)
    requires WF(fs0) && Inv(fs0, fs, e) && e.k.VNonReloc?
    ensures var v := FreeExp(fs, e);
            Inv(fs0, Emit(v, LuaVM.Unary(op, 0, e.k.reg)), Open(v, e))
  {
    FreeInv(fs0, fs, e);
    SuspendWF(fs0, FreeExp(fs, e), e, LuaVM.Unary(op, 0, e.k.reg));
  }

  lemma UnaryMeans(env: Env, fs0: FS, fs: FS, op: UnaryOp, e: Exp, r: Result, at: nat, s: Regs)
    requires WF(fs0) && Inv(fs0, fs, e) && e.k.VNonReloc? && !HasJumps(e) && Means(env, fs0, fs, e, MAXSTACK, r, at, s)
    ensures var v := FreeExp(fs, e);
            Means(env, fs0, Emit(v, LuaVM.Unary(op, 0, e.k.reg)), Open(v, e), MAXSTACK, UnaryResult(env.ops, op, r),
              at, s)
  {
    hide Emit, FreeExp;
    var v := FreeExp(fs, e);
    var i := LuaVM.Unary(op, 0, e.k.reg);
    FreeInv(fs0, fs, e);
    SameCodeMeans(env, fs0, fs, v, e, MAXSTACK, r, at, s);
    EmitCore(env, v, i, Open(v, e), at, s);
    var o0, o := Arrive(env, fs0, at, s), Arrive(env, v, at, s);
    if o0.Fall? {
      SuspendDelivers(env, v, e, i, fs0.freereg, MAXSTACK, o0.s, UnaryResult(env.ops, op, r), o);
    }
  }

  lemma CodeUnaryParts(fs: FS, op: UnaryOp, e: Exp)
    requires e.k.VNonReloc? && !HasJumps(e)
    ensures var v := FreeExp(fs, e);
            CodeUnary(fs, op, e) == Gen(Emit(v, LuaVM.Unary(op, 0, e.k.reg)), Open(v, e))
  {
    OperandStays(fs, e);
    EmitLast(FreeExp(fs, e), LuaVM.Unary(op, 0, e.k.reg));
  }

  // The operator code of luaK_prefix for `-` and `#`.
  function UnaryOf(op: UnOpr): UnaryOp {
    if op == Minus then Unm else Len
  }

  lemma PrefixParts(fs: FS, op: UnOpr, e: Exp)
    requires !op.LNot?
    ensures if op.Minus? && IsNumeral(e) then Prefix(fs, op, e) == Gen(fs, e.(k := VKNum(fs.ops.neg(e.k.num))))
            else var g := Exp2AnyReg(fs, e); Prefix(fs, op, e) == CodeUnary(g.fs, UnaryOf(op), g.e)
  {
    hide Exp2AnyReg, Exp2RK, Emit, FreeExp;
  }

  /** luaK_prefix for minus and length. */
  lemma PrefixInv(fs0: FS, fs: FS, op: UnOpr, e: Exp)
    requires WF(fs0) && Inv(fs0, fs, e) && !op.LNot? && Prefix(fs, op, e).fs.ok
    ensures var g := Prefix(fs, op, e);
            Inv(fs0, g.fs, g.e) && !g.e.k.VK?
  {
    hide Exp2AnyReg, CodeUnary, Prefix, Emit, FreeExp;
    PrefixParts(fs, op, e);
    if !(op.Minus? && IsNumeral(e)) {
      var g := Exp2AnyReg(fs, e);
      assert g.fs.ok;
      AnyRegInv(fs0, fs, e);
      CodeUnaryParts(g.fs, UnaryOf(op), g.e);
      UnaryInv(fs0, g.fs, UnaryOf(op), g.e);
    }
  }

  lemma PrefixMeans(env: Env, fs0: FS, fs: FS, op: UnOpr, e: Exp, r: Result, at: nat, s: Regs)
    requires WF(fs0) && Inv(fs0, fs, e) && !op.LNot? && fs.ops == env.ops
    requires Prefix(fs, op, e).fs.ok && Prefix(fs, op, e).fs.ks <= env.k
    requires Start(fs0, at, s) && Means(env, fs0, fs, e, MAXSTACK, r, at, s)
    ensures var g := Prefix(fs, op, e);
            Means(env, fs0, g.fs, g.e, MAXSTACK, UnaryResult(env.ops, UnaryOf(op), r), at, s)
  {
    hide Exp2AnyReg, CodeUnary, Prefix, Emit, FreeExp, Inv, Start;
    PrefixParts(fs, op, e);
    if op.Minus? && IsNumeral(e) {
      NegMeans(env, fs0, fs, e, r, at, s);
    } else {
      var g := Exp2AnyReg(fs, e);
      assert g.fs.ok && g.fs.ks <= env.k;
      AnyRegInv(fs0, fs, e);
      AnyRegMeans(env, fs0, fs, e, r, at, s);
      CodeUnaryParts(g.fs, UnaryOf(op), g.e);
      UnaryMeans(env, fs0, g.fs, UnaryOf(op), g.e, r, at, s);
    }
  }

  lemma NegMeans(env: Env, fs0: FS, fs: FS, e: Exp, r: Result, at: nat, s: Regs)
    requires IsNumeral(e) && fs.ops == env.ops && Means(env, fs0, fs, e, MAXSTACK, r, at, s)
    ensures Means(env, fs0, fs, e.(k := VKNum(fs.ops.neg(e.k.num))), MAXSTACK, UnaryResult(env.ops, Unm, r), at, s)
  {
    assert ArriveExp(env, fs, e, at, s) == Arrive(env, fs, at, s);
    assert ArriveExp(env, fs, e.(k := VKNum(fs.ops.neg(e.k.num))), at, s) == Arrive(env, fs, at, s);
  }

  // ---- comparisons ---------------------------------------------------------------------------------------

  function CompareResult(ops: Ops, op: CompareOp, sense: bool, r1: Result, r2: Result): Result {
    if r1.Val? && r2.Val? then Truth(ops.compare(op, r1.v, r2.v), sense) else Err
  }

  lemma CompareInv(fs0: FS, fs: FS, op: CompareOp, cond: bool, a: nat, b: nat)
    requires WF(fs0) && WF(fs) && Ext(fs0, fs) && fs.freereg == fs0.freereg
    ensures Inv(fs0, CondJump(fs, Compare(op, cond, a, b)), Exp(VJmp(|fs.code| + 1), [], []))
  {
    var i := Compare(op, cond, a, b);
    DischargeWF(fs);
    CondJumpWF(fs, i);
    ExtTrans(fs0, fs, CondJump(fs, i));
  }

  lemma CompareDelivers(env: Env, fs: FS, op: CompareOp, cond: bool, a: nat, b: nat, e1: Exp, e2: Exp,
                        n: nat, s1: Regs, r1: Result, r2: Result, o: Out)
    requires WF(fs) && PairDelivers(env, fs, e1, e2, n, s1, r1, r2, o) && a == Operand(e1) && b == Operand(e2)
    ensures var v := CondJump(fs, Compare(op, cond, a, b));
            Delivers(env, v, Exp(VJmp(|fs.code| + 1), [], []), n, MAXSTACK, s1,
              CompareResult(env.ops, op, cond, r1, r2), o)
  {
    DischargeWF(fs);
    CondJumpWF(fs, Compare(op, cond, a, b));
    assert CondJump(fs, Compare(op, cond, a, b)).code[|fs.code|] == Compare(op, cond, a, b);
  }

  lemma CompareMeans(env: Env, fs0: FS, fs: FS, op: CompareOp, cond: bool, e1: Exp, e2: Exp, r1: Result, r2: Result,
    at: nat, s: Regs)
    requires WF(fs) && PairMeans(env, fs0, fs, e1, e2, r1, r2, at, s)
    ensures Means(env, fs0, CondJump(fs, Compare(op, cond, Operand(e1), Operand(e2))),
      Exp(VJmp(|fs.code| + 1), [], []), MAXSTACK,
                  CompareResult(env.ops, op, cond, r1, r2), at, s)
  {
    hide CondJump;
    var i := Compare(op, cond, Operand(e1), Operand(e2));
    var e := Exp(VJmp(|fs.code| + 1), [], []);
    var o0, o := Arrive(env, fs0, at, s), Arrive(env, fs, at, s);
    if o0 != Wrong {
      CondJumpCore(env, fs, i, e, at, s);
      if o0.Fall? {
        CompareDelivers(env, fs, op, cond, Operand(e1), Operand(e2), e1, e2, fs0.freereg, o0.s, r1, r2, o);
      }
    }
  }

  lemma PairFlip(env: Env, fs0: FS, fs: FS, e1: Exp, e2: Exp, r1: Result, r2: Result, at: nat, s: Regs)
    requires PairMeans(env, fs0, fs, e1, e2, r1, r2, at, s)
    ensures PairMeans(env, fs0, fs, e2, e1, r2, r1, at, s)
  {
  }

  // codecomp with the operands in place: `>` and `>=` exchange them.
  function CompareCode(fs: FS, op: CompareOp, cond: bool, e1: Exp, e2: Exp): FS {
    var v := FreeExp(FreeExp(fs, e2), e1);
    if !cond && op != Eq then CondJump(v, Compare(op, true, Operand(e2), Operand(e1)))
    else CondJump(v, Compare(op, cond, Operand(e1), Operand(e2)))
  }

  lemma CodeCompParts(fs: FS, op: CompareOp, cond: bool, e1: Exp, e2: Exp)
    requires IsOperand(e1) && IsOperand(Exp2RK(fs, e2).e)
    ensures var g2 := Exp2RK(fs, e2);
            CodeComp(fs, op, cond, e1, e2) == Gen(CompareCode(g2.fs, op, cond, e1, g2.e),
              Exp(VJmp(|g2.fs.code| + 1), [], []))
  {
    hide Exp2RK, CondJump;
    OperandStays(fs, e1);
    var g2 := Exp2RK(fs, e2);
    var v := FreeExp(FreeExp(g2.fs, g2.e), e1);
    CondJumpPc(v, Compare(op, true, Operand(g2.e), Operand(e1)));
    CondJumpPc(v, Compare(op, cond, Operand(e1), Operand(g2.e)));
  }

  function CompResult(ops: Ops, op: CompareOp, cond: bool, r1: Result, r2: Result): Result {
    if !cond && op != Eq then CompareResult(ops, op, true, r2, r1) else CompareResult(ops, op, cond, r1, r2)
  }

  lemma CompareCodeInv(fs0: FS, fs: FS, op: CompareOp, cond: bool, e1: Exp, e2: Exp)
    requires WF(fs0) && PairInv(fs0, fs, e1, e2)
    ensures Inv(fs0, CompareCode(fs, op, cond, e1, e2), Exp(VJmp(|fs.code| + 1), [], []))
  {
    hide CondJump, Free2, FreeExp;
    Free2Inv(fs0, fs, e1, e2);
    var v := FreeExp(FreeExp(fs, e2), e1);
    if !cond && op != Eq { CompareInv(fs0, v, op, true, Operand(e2), Operand(e1)); }
    else { CompareInv(fs0, v, op, cond, Operand(e1), Operand(e2)); }
  }

  lemma CompareCodeMeans(env: Env, fs0: FS, fs: FS, op: CompareOp, cond: bool, e1: Exp, e2: Exp, r1: Result,
    r2: Result, at: nat, s: Regs)
    requires WF(fs0) && PairInv(fs0, fs, e1, e2) && PairMeans(env, fs0, fs, e1, e2, r1, r2, at, s)
    ensures Means(env, fs0, CompareCode(fs, op, cond, e1, e2), Exp(VJmp(|fs.code| + 1), [], []), MAXSTACK,
                  CompResult(env.ops, op, cond, r1, r2), at, s)
  {
    hide CondJump, Free2, FreeExp, Means, PairMeans;
    Free2Inv(fs0, fs, e1, e2);
    var v := FreeExp(FreeExp(fs, e2), e1);
    PairSame(env, fs0, fs, v, e1, e2, r1, r2, at, s);
    if !cond && op != Eq {
      PairFlip(env, fs0, v, e1, e2, r1, r2, at, s);
      CompareMeans(env, fs0, v, op, true, e2, e1, r2, r1, at, s);
    } else {
      CompareMeans(env, fs0, v, op, cond, e1, e2, r1, r2, at, s);
    }
  }

  /** codecomp: the comparison becomes a conditional jump that is taken if it holds. */
  lemma CodeCompInv(fs0: FS, fs1: FS, op: CompareOp, cond: bool, e1: Exp, fs2: FS, e2: Exp)
    requires WF(fs0) && Inv(fs0, fs1, e1) && IsOperand(e1) && Inv(fs1, fs2, e2)
    requires CodeComp(fs2, op, cond, e1, e2).fs.ok
    ensures var g := CodeComp(fs2, op, cond, e1, e2);
            Inv(fs0, g.fs, g.e) && !g.e.k.VK?
  {
    hide Exp2RK, CompareCode, Inv, WF;
    var g2 := Exp2RK(fs2, e2);
    CodeCompOk(fs2, op, cond, e1, e2);
    RKInv(fs1, fs2, e2) by { InvParts(fs0, fs1, e1); }
    LeftFirstInv(fs0, fs1, e1, g2.fs, g2.e);
    CodeCompParts(fs2, op, cond, e1, e2);
    CompareCodeInv(fs0, g2.fs, op, cond, e1, g2.e);
  }

  lemma InvParts(fs0: FS, fs: FS, e: Exp)
    requires Inv(fs0, fs, e)
    ensures WF(fs) && Ext(fs0, fs)
  {
  }

  lemma CodeCompOk(fs: FS, op: CompareOp, cond: bool, e1: Exp, e2: Exp)
    requires IsOperand(e1)
    ensures Later(Exp2RK(fs, e2).fs, CodeComp(fs, op, cond, e1, e2).fs)
  {
    hide Exp2RK, CondJump;
    OperandStays(fs, e1);
  }

  lemma CodeCompMeans(env: Env, fs0: FS, fs1: FS, op: CompareOp, cond: bool, e1: Exp, fs2: FS, e2: Exp, r1: Result,
    r2: Result, at: nat, s: Regs)
    requires WF(fs0) && Inv(fs0, fs1, e1) && IsOperand(e1) && Inv(fs1, fs2, e2)
    requires CodeComp(fs2, op, cond, e1, e2).fs.ok && CodeComp(fs2, op, cond, e1, e2).fs.ks <= env.k
    requires Start(fs0, at, s)
    requires Means(env, fs0, fs1, e1, MAXSTACK, r1, at, s) && Means(env, fs1, fs2, e2, MAXSTACK, r2, at, s)
    ensures var g := CodeComp(fs2, op, cond, e1, e2);
            Means(env, fs0, g.fs, g.e, MAXSTACK, CompResult(env.ops, op, cond, r1, r2), at, s)
  {
    hide Exp2RK, CompareCode, Inv, WF, Means, PairMeans, Start, CodeComp;
    var g2 := Exp2RK(fs2, e2);
    CodeCompOk(fs2, op, cond, e1, e2);
    InvParts(fs0, fs1, e1);
    StartLater(fs0, fs1, at, s);
    RKInv(fs1, fs2, e2);
    RKMeans(env, fs1, fs2, e2, r2, at, s);
    LeftFirstInv(fs0, fs1, e1, g2.fs, g2.e);
    LeftFirstMeans(env, fs0, fs1, e1, g2.fs, g2.e, r1, r2, at, s);
    CodeCompParts(fs2, op, cond, e1, e2);
    CompareCodeMeans(env, fs0, g2.fs, op, cond, e1, g2.e, r1, r2, at, s);
  }
}
