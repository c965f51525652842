/** Compiler correctness */
module CodeGenCorrect {
  // For every expression of the fragment, in every state of the generator and for every run that arrives at its
  // code.

  import opened LuaVM
  import opened CodeGen
  import opened CodeRun
  import opened CodeGenState
  import opened CodeGenSteps
  import opened CodeGenReg
  import opened CodeGenLists
  import opened CodeGenExp
  import opened CodeGenCond
  import opened CodeGenOps
  import opened CodeGenArith

  // ---- binary operators --------------------------------------------------------------------------------

  predicate IsLogic(op: BinOpr) {
    op == And || op == Or
  }

  lemma LogicParts(fs: FS, op: BinOpr, e1: Exp, e2: Exp)
    requires IsLogic(op)
    ensures var g := DischargeVars(fs, e2);
            var p := Posfix(fs, op, e1, e2);
            && SameCode(g.fs, p.fs) && p.e == Appended(g.e, Open1(e1, op == And), op == And)
            && p.fs.freereg == g.fs.freereg && p.fs.maxstack == g.fs.maxstack
  {
    hide DischargeVars;
  }

  lemma LogicInv(fs0: FS, fs1: FS, e1: Exp, fs2: FS, e2: Exp, op: BinOpr)
    requires WF(fs0) && IsLogic(op) && CondInv(fs0, fs1, Open1(e1, op == And)) && Inv(fs1, fs2, e2) && !e2.k.VK?
    ensures var p := Posfix(fs2, op, e1, e2);
            Inv(fs0, p.fs, p.e) && !p.e.k.VK?
  {
    hide DischargeVars, Posfix;
    LogicParts(fs2, op, e1, e2);
    DischargeVarsWF(fs1, fs2, e2);
    var g := DischargeVars(fs2, e2);
    var p := Posfix(fs2, op, e1, e2);
    JoinInv(fs0, fs1, g.fs, g.e, Open1(e1, op == And), op == And);
    SameCodeKeeps(fs0, g.fs, p.fs, p.e);
  }

  lemma LogicMeans(env: Env, fs0: FS, fs1: FS, e1: Exp, fs2: FS, e2: Exp, op: BinOpr, r1: Result, r2: Result, at: nat,
    s: Regs)
    requires WF(fs0) && IsLogic(op) && CondInv(fs0, fs1, Open1(e1, op == And)) && Inv(fs1, fs2, e2)
    requires CondMeans(env, fs0, fs1, Open1(e1, op == And), op == And, r1, at, s)
      && Means(env, fs1, fs2, e2, MAXSTACK, r2, at, s)
    ensures var p := Posfix(fs2, op, e1, e2);
            Means(env, fs0, p.fs, p.e, MAXSTACK, ShortCut(op == And, r1, r2), at, s)
  {
    hide DischargeVars, Posfix, Means, CondMeans;
    LogicParts(fs2, op, e1, e2);
    DischargeVarsWF(fs1, fs2, e2);
    DischargeVarsMeans(env, fs1, fs2, e2, r2, at, s);
    var g := DischargeVars(fs2, e2);
    var p := Posfix(fs2, op, e1, e2);
    JoinMeans(env, fs0, fs1, g.fs, g.e, Open1(e1, op == And), op == And, r1, r2, at, s);
    SameCodeMeans(env, fs0, g.fs, p.fs, p.e, MAXSTACK, ShortCut(op == And, r1, r2), at, s);
  }

  lemma InfixOther(fs0: FS, fs: FS, op: BinOpr, e: Exp)
    requires WF(fs0) && Inv(fs0, fs, e) && !IsLogic(op) && Infix(fs, op, e).fs.ok
    ensures var h := Infix(fs, op, e);
            Inv(fs0, h.fs, h.e) && (IsOperand(h.e) || (op.BArith? && IsNumeral(h.e)))
  {
    hide Exp2RK, Inv;
    if !(op.BArith? && IsNumeral(e)) { RKInv(fs0, fs, e); }
  }

  lemma InfixOtherMeans(env: Env, fs0: FS, fs: FS, op: BinOpr, e: Exp, r: Result, at: nat, s: Regs)
    requires WF(fs0) && Inv(fs0, fs, e) && !IsLogic(op) && Infix(fs, op, e).fs.ok && Infix(fs, op, e).fs.ks <= env.k
    requires Start(fs0, at, s) && Means(env, fs0, fs, e, MAXSTACK, r, at, s)
    ensures var h := Infix(fs, op, e);
            Means(env, fs0, h.fs, h.e, MAXSTACK, r, at, s)
  {
    hide Exp2RK, Inv, Means, Start;
    if !(op.BArith? && IsNumeral(e)) { RKMeans(env, fs0, fs, e, r, at, s); }
  }

  // Posfix of the comparison operators.
  function CompareOpOf(op: BinOpr): CompareOp {
    match op
    case EQ => Eq
    case NE => Eq
    case LT => Lt
    case GT => Lt
    case _ => Le
  }

  function SenseOf(op: BinOpr): bool {
    op == EQ || op == LT || op == LE
  }

  lemma PosfixOther(fs: FS, op: BinOpr, e1: Exp, e2: Exp)
    requires !IsLogic(op)
    ensures Posfix(fs, op, e1, e2) ==
            if op.BArith? then CodeArith(fs, op.op, e1, e2) else CodeComp(fs, CompareOpOf(op), SenseOf(op), e1, e2)
  {
    hide CodeArith, CodeComp;
  }

  // The result of a binary operator from the results of its operands.
  function BinaryResult(ops: Ops, op: BinOpr, r1: Result, r2: Result): Result {
    if IsLogic(op) then ShortCut(op == And, r1, r2)
    else if r1.Val? && r2.Val? then EvalBinary(ops, op, r1.v, r2.v) else Err
  }

  lemma OtherResult(ops: Ops, op: BinOpr, r1: Result, r2: Result)
    requires !IsLogic(op)
    ensures BinaryResult(ops, op, r1, r2) ==
            if op.BArith?
            then ArithResult(ops, op.op, r1, r2)
            else CompResult(ops, CompareOpOf(op), SenseOf(op), r1, r2)
  {
  }

  lemma OtherInv(fs0: FS, fs1: FS, e1: Exp, fs2: FS, e2: Exp, op: BinOpr)
    requires WF(fs0) && !IsLogic(op) && Inv(fs0, fs1, e1) && (IsOperand(e1) || (op.BArith? && IsNumeral(e1)))
    requires Inv(fs1, fs2, e2) && Posfix(fs2, op, e1, e2).fs.ok
    ensures var p := Posfix(fs2, op, e1, e2);
            Inv(fs0, p.fs, p.e) && !p.e.k.VK?
  {
    hide CodeArith, CodeComp, Posfix, Inv, WF;
    PosfixOther(fs2, op, e1, e2);
    if op.BArith? { CodeArithInv(fs0, fs1, op.op, e1, fs2, e2); }
    else { CodeCompInv(fs0, fs1, CompareOpOf(op), SenseOf(op), e1, fs2, e2); }
  }

  lemma OtherMeans(env: Env, fs0: FS, fs1: FS, e1: Exp, fs2: FS, e2: Exp, op: BinOpr, r1: Result, r2: Result, at: nat,
    s: Regs)
    requires WF(fs0) && !IsLogic(op) && Inv(fs0, fs1, e1) && (IsOperand(e1) || (op.BArith? && IsNumeral(e1)))
    requires Inv(fs1, fs2, e2) && Posfix(fs2, op, e1, e2).fs.ok && Posfix(fs2, op, e1, e2).fs.ks <= env.k
      && fs2.ops == env.ops
    requires Start(fs0, at, s)
    requires Means(env, fs0, fs1, e1, MAXSTACK, r1, at, s) && Means(env, fs1, fs2, e2, MAXSTACK, r2, at, s)
    ensures var p := Posfix(fs2, op, e1, e2);
            Means(env, fs0, p.fs, p.e, MAXSTACK, BinaryResult(env.ops, op, r1, r2), at, s)
  {
    hide CodeArith, CodeComp, Posfix, Inv, WF, Means, Start, BinaryResult, ArithResult, CompResult;
    PosfixOther(fs2, op, e1, e2);
    OtherResult(env.ops, op, r1, r2);
    if op.BArith? { CodeArithMeans(env, fs0, fs1, op.op, e1, fs2, e2, r1, r2, at, s); }
    else { CodeCompMeans(env, fs0, fs1, CompareOpOf(op), SenseOf(op), e1, fs2, e2, r1, r2, at, s); }
  }

  // ---- induction over the expression -------------------------------------------------------------------

  // Registers that hold local variables decide the value of an expression.
  lemma {:induction false} EvalAgree(env: Env, x: Expr, n: nat, s: Regs, t: Regs)
    requires Scoped(x, n, |env.up|) && Agree(s, t, n, MAXSTACK)
    ensures Eval(env, x, s) == Eval(env, x, t)
  {
    match x
    case EParen(y) => EvalAgree(env, y, n, s, t);
    case EUnary(op, y) => EvalAgree(env, y, n, s, t);
    case EBinary(op, l, r) => EvalAgree(env, l, n, s, t); EvalAgree(env, r, n, s, t);
    case _ =>
  }

  lemma GenOk(fs: FS, op: BinOpr, l: Expr, r: Expr)
    requires GenExpr(fs, EBinary(op, l, r)).fs.ok
    ensures var g1 := GenExpr(fs, l);
            var h1 := Infix(g1.fs, op, g1.e);
            var g2 := GenExpr(h1.fs, r);
            && g1.fs.ok && h1.fs.ok && g2.fs.ok && Posfix(g2.fs, op, h1.e, g2.e).fs.ok
            && g1.fs.ks <= h1.fs.ks <= g2.fs.ks <= Posfix(g2.fs, op, h1.e, g2.e).fs.ks
            && GenExpr(fs, EBinary(op, l, r)) == Posfix(g2.fs, op, h1.e, g2.e)
  {
    hide Infix, Posfix;
  }

  /** The generator keeps its state well formed on every expression. */
  lemma {:induction false} GenInv(fs0: FS, x: Expr, nup: nat)
    requires WF(fs0) && Scoped(x, fs0.nactvar, nup) && GenExpr(fs0, x).fs.ok
    ensures var g := GenExpr(fs0, x);
            Inv(fs0, g.fs, g.e) && !g.e.k.VK?
    decreases x
  {
    match x
    case EParen(y) =>
      GenInv(fs0, y, nup);
      var g := GenExpr(fs0, y);
      DischargeVarsWF(fs0, g.fs, g.e);
    case EUnary(op, y) => GenUnaryInv(fs0, op, y, nup);
    case EBinary(op, l, r) => GenBinaryInv(fs0, op, l, r, nup);
    case _ =>
  }

  lemma {:induction false} GenUnaryInv(fs0: FS, op: UnOpr, y: Expr, nup: nat)
    requires WF(fs0) && Scoped(y, fs0.nactvar, nup) && GenExpr(fs0, EUnary(op, y)).fs.ok
    ensures var g := GenExpr(fs0, EUnary(op, y));
            Inv(fs0, g.fs, g.e) && !g.e.k.VK?
    decreases EUnary(op, y), 0
  {
    hide Inv, WF, CodeNot;
    var g := GenExpr(fs0, y);
    assert GenExpr(fs0, EUnary(op, y)) == Prefix(g.fs, op, g.e) && g.fs.ok;
    GenInv(fs0, y, nup);
    if op.LNot? {
      NotInv(fs0, g.fs, g.e);
      NotKind(g.fs, g.e);
    } else {
      PrefixInv(fs0, g.fs, op, g.e);
    }
  }

  lemma NotKind(fs: FS, e: Exp)
    ensures !CodeNot(fs, e).e.k.VK?
  {
  }

  lemma {:induction false} GenBinaryInv(fs0: FS, op: BinOpr, l: Expr, r: Expr, nup: nat)
    requires WF(fs0) && Scoped(l, fs0.nactvar, nup) && Scoped(r, fs0.nactvar, nup)
      && GenExpr(fs0, EBinary(op, l, r)).fs.ok
    ensures var g := GenExpr(fs0, EBinary(op, l, r));
            Inv(fs0, g.fs, g.e) && !g.e.k.VK?
    decreases EBinary(op, l, r), 0
  {
    hide Infix, Posfix, Inv, WF;
    GenOk(fs0, op, l, r);
    var g1 := GenExpr(fs0, l);
    var h1 := Infix(g1.fs, op, g1.e);
    var g2 := GenExpr(h1.fs, r);
    GenInv(fs0, l, nup);
    if IsLogic(op) {
      InfixLogic(g1.fs, op, g1.e);
      GoInv(fs0, g1.fs, g1.e, op == And);
      CondParts(fs0, h1.fs, Open1(h1.e, op == And));
      GenInv(h1.fs, r, nup);
      LogicInv(fs0, h1.fs, h1.e, g2.fs, g2.e, op);
    } else {
      InfixOther(fs0, g1.fs, op, g1.e);
      InvParts(fs0, h1.fs, h1.e);
      GenInv(h1.fs, r, nup);
      OtherInv(fs0, h1.fs, h1.e, g2.fs, g2.e, op);
    }
  }

  lemma InfixLogic(fs: FS, op: BinOpr, e: Exp)
    requires IsLogic(op)
    ensures Infix(fs, op, e) == GoIf(fs, e, op == And)
  {
  }

  lemma CondParts(fs0: FS, fs: FS, l: seq<nat>)
    requires CondInv(fs0, fs, l)
    ensures WF(fs) && Ext(fs0, fs)
  {
  }

  // The value of an expression in the state in which the run arrives at its code.
  function ResultAt(env: Env, fs0: FS, x: Expr, at: nat, s: Regs): Result {
    var o := Arrive(env, fs0, at, s);
    if o.Fall? then Eval(env, x, o.s) else Err
  }

  // The right operand is evaluated with the same variables as the left one.
  lemma LogicResult(env: Env, fs0: FS, fs1: FS, list: seq<nat>, op: BinOpr, l: Expr, r: Expr, at: nat, s: Regs)
    requires IsLogic(op) && WF(fs0) && Scoped(r, fs0.nactvar, |env.up|)
    requires Arrive(env, fs0, at, s).Fall?
    requires CondMeans(env, fs0, fs1, list, op == And, ResultAt(env, fs0, l, at, s), at, s)
    ensures ResultAt(env, fs0, EBinary(op, l, r), at, s) ==
            ShortCut(op == And, ResultAt(env, fs0, l, at, s), ResultAt(env, fs1, r, at, s))
  {
    var o0, o1 := Arrive(env, fs0, at, s), Arrive(env, fs1, at, s);
    if o1.Fall? { EvalAgree(env, r, fs0.nactvar, o0.s, o1.s); }
  }

  lemma OtherResultAt(env: Env, fs0: FS, fs1: FS, e1: Exp, op: BinOpr, l: Expr, r: Expr, at: nat, s: Regs)
    requires !IsLogic(op) && WF(fs0) && Scoped(r, fs0.nactvar, |env.up|)
    requires !HasJumps(e1) && !Suspended(e1) && Arrive(env, fs0, at, s).Fall?
    requires Means(env, fs0, fs1, e1, MAXSTACK, ResultAt(env, fs0, l, at, s), at, s)
    ensures ResultAt(env, fs0, EBinary(op, l, r), at, s) ==
            BinaryResult(env.ops, op, ResultAt(env, fs0, l, at, s), ResultAt(env, fs1, r, at, s))
  {
    var o0, o1 := Arrive(env, fs0, at, s), Arrive(env, fs1, at, s);
    assert ArriveExp(env, fs1, e1, at, s) == o1;
    if o1.Fall? { EvalAgree(env, r, fs0.nactvar, o0.s, o1.s); }
  }

  // What an expression means does not matter to runs that do not arrive at it.
  lemma MeansResult(env: Env, fs0: FS, fs: FS, e: Exp, r: Result, r': Result, at: nat, s: Regs)
    requires Means(env, fs0, fs, e, MAXSTACK, r, at, s) && (Arrive(env, fs0, at, s).Fall? ==> r == r')
    ensures Means(env, fs0, fs, e, MAXSTACK, r', at, s)
  {
  }

  /** The code generated for an expression, run from anywhere, delivers the value of the expression. */
  lemma {:induction false} GenMeans(env: Env, fs0: FS, x: Expr, at: nat, s: Regs)
    requires WF(fs0) && Scoped(x, fs0.nactvar, |env.up|) && fs0.ops == env.ops
    requires GenExpr(fs0, x).fs.ok && GenExpr(fs0, x).fs.ks <= env.k
    requires Start(fs0, at, s)
    ensures var g := GenExpr(fs0, x);
            Means(env, fs0, g.fs, g.e, MAXSTACK, ResultAt(env, fs0, x, at, s), at, s)
    decreases x, 2
  {
    match x
    case EParen(y) => GenParenMeans(env, fs0, y, at, s);
    case EUnary(op, y) => GenUnaryMeans(env, fs0, op, y, at, s);
    case EBinary(op, l, r) => GenBinaryMeans(env, fs0, op, l, r, at, s);
    case _ => GenLeafMeans(env, fs0, x, at, s);
  }

  lemma GenLeafMeans(env: Env, fs0: FS, x: Expr, at: nat, s: Regs)
    requires WF(fs0) && Scoped(x, fs0.nactvar, |env.up|) && !x.EParen? && !x.EUnary? && !x.EBinary?
    ensures var g := GenExpr(fs0, x);
            Means(env, fs0, g.fs, g.e, MAXSTACK, ResultAt(env, fs0, x, at, s), at, s)
  {
    var g := GenExpr(fs0, x);
    assert ArriveExp(env, fs0, g.e, at, s) == Arrive(env, fs0, at, s);
  }

  lemma {:induction false} GenParenMeans(env: Env, fs0: FS, y: Expr, at: nat, s: Regs)
    requires WF(fs0) && Scoped(y, fs0.nactvar, |env.up|) && fs0.ops == env.ops
    requires GenExpr(fs0, EParen(y)).fs.ok && GenExpr(fs0, EParen(y)).fs.ks <= env.k
    requires Start(fs0, at, s)
    ensures var g := GenExpr(fs0, EParen(y));
            Means(env, fs0, g.fs, g.e, MAXSTACK, ResultAt(env, fs0, EParen(y), at, s), at, s)
    decreases EParen(y), 0
  {
    hide Means, DischargeVars, Start;
    var g := GenExpr(fs0, y);
    GenInv(fs0, y, |env.up|);
    GenMeans(env, fs0, y, at, s);
    DischargeVarsMeans(env, fs0, g.fs, g.e, ResultAt(env, fs0, y, at, s), at, s);
  }

  lemma {:induction false} GenUnaryMeans(env: Env, fs0: FS, op: UnOpr, y: Expr, at: nat, s: Regs)
    requires WF(fs0) && Scoped(y, fs0.nactvar, |env.up|) && fs0.ops == env.ops
    requires GenExpr(fs0, EUnary(op, y)).fs.ok && GenExpr(fs0, EUnary(op, y)).fs.ks <= env.k
    requires Start(fs0, at, s)
    ensures var g := GenExpr(fs0, EUnary(op, y));
            Means(env, fs0, g.fs, g.e, MAXSTACK, ResultAt(env, fs0, EUnary(op, y), at, s), at, s)
    decreases EUnary(op, y), 0
  {
    hide Means, CodeNot, Start, WF;
    var g := GenExpr(fs0, y);
    var r := ResultAt(env, fs0, y, at, s);
    assert GenExpr(fs0, EUnary(op, y)) == Prefix(g.fs, op, g.e) && g.fs.ok;
    GenInv(fs0, y, |env.up|);
    GenMeans(env, fs0, y, at, s);
    var p := Prefix(g.fs, op, g.e);
    if op.LNot? {
      NotMeans(env, fs0, g.fs, g.e, r, at, s);
      MeansResult(env, fs0, p.fs, p.e, NotOf(r), ResultAt(env, fs0, EUnary(op, y), at, s), at, s);
    } else {
      PrefixMeans(env, fs0, g.fs, op, g.e, r, at, s);
      MeansResult(env, fs0, p.fs, p.e, UnaryResult(env.ops, UnaryOf(op), r), ResultAt(env, fs0, EUnary(op, y), at, s),
        at, s);
    }
  }

  lemma {:induction false} GenBinaryMeans(env: Env, fs0: FS, op: BinOpr, l: Expr, r: Expr, at: nat, s: Regs)
    requires WF(fs0) && Scoped(EBinary(op, l, r), fs0.nactvar, |env.up|) && fs0.ops == env.ops
    requires GenExpr(fs0, EBinary(op, l, r)).fs.ok && GenExpr(fs0, EBinary(op, l, r)).fs.ks <= env.k
    requires Start(fs0, at, s)
    ensures var g := GenExpr(fs0, EBinary(op, l, r));
            Means(env, fs0, g.fs, g.e, MAXSTACK, ResultAt(env, fs0, EBinary(op, l, r), at, s), at, s)
    decreases EBinary(op, l, r), 1
  {
    if IsLogic(op) { GenLogicMeans(env, fs0, op, l, r, at, s); } else { GenOtherMeans(env, fs0, op, l, r, at, s); }
  }

  lemma {:induction false} GenLogicMeans(env: Env, fs0: FS, op: BinOpr, l: Expr, r: Expr, at: nat, s: Regs)
    requires IsLogic(op)
    requires WF(fs0) && Scoped(EBinary(op, l, r), fs0.nactvar, |env.up|) && fs0.ops == env.ops
    requires GenExpr(fs0, EBinary(op, l, r)).fs.ok && GenExpr(fs0, EBinary(op, l, r)).fs.ks <= env.k
    requires Start(fs0, at, s)
    ensures var g := GenExpr(fs0, EBinary(op, l, r));
            Means(env, fs0, g.fs, g.e, MAXSTACK, ResultAt(env, fs0, EBinary(op, l, r), at, s), at, s)
    decreases EBinary(op, l, r), 0
  {
    hide Infix, Posfix, Inv, WF, Means, CondMeans, Start, ResultAt, CondInv, ShortCut, Arrive, GoIf;
    GenOk(fs0, op, l, r);
    var g1 := GenExpr(fs0, l);
    var h1 := Infix(g1.fs, op, g1.e);
    var g2 := GenExpr(h1.fs, r);
    var r1, r2 := ResultAt(env, fs0, l, at, s), ResultAt(env, h1.fs, r, at, s);
    GenInv(fs0, l, |env.up|);
    GenMeans(env, fs0, l, at, s);
    InfixLogic(g1.fs, op, g1.e);
    GoInv(fs0, g1.fs, g1.e, op == And);
    GoMeans(env, fs0, g1.fs, g1.e, op == And, r1, at, s);
    CondParts(fs0, h1.fs, Open1(h1.e, op == And));
    StartLater(fs0, h1.fs, at, s);
    GenInv(h1.fs, r, |env.up|);
    GenMeans(env, h1.fs, r, at, s);
    LogicMeans(env, fs0, h1.fs, h1.e, g2.fs, g2.e, op, r1, r2, at, s);
    if Arrive(env, fs0, at, s).Fall? {
      LogicResult(env, fs0, h1.fs, Open1(h1.e, op == And), op, l, r, at, s);
    }
    var p := Posfix(g2.fs, op, h1.e, g2.e);
    MeansResult(env, fs0, p.fs, p.e, ShortCut(op == And, r1, r2), ResultAt(env, fs0, EBinary(op, l, r), at, s), at, s);
  }

  lemma {:induction false} GenOtherMeans(env: Env, fs0: FS, op: BinOpr, l: Expr, r: Expr, at: nat, s: Regs)
    requires !IsLogic(op)
    requires WF(fs0) && Scoped(EBinary(op, l, r), fs0.nactvar, |env.up|) && fs0.ops == env.ops
    requires GenExpr(fs0, EBinary(op, l, r)).fs.ok && GenExpr(fs0, EBinary(op, l, r)).fs.ks <= env.k
    requires Start(fs0, at, s)
    ensures var g := GenExpr(fs0, EBinary(op, l, r));
            Means(env, fs0, g.fs, g.e, MAXSTACK, ResultAt(env, fs0, EBinary(op, l, r), at, s), at, s)
    decreases EBinary(op, l, r), 0
  {
    hide Infix, Posfix, Inv, WF, Means, Start, ResultAt, BinaryResult;
    GenOk(fs0, op, l, r);
    var g1 := GenExpr(fs0, l);
    var h1 := Infix(g1.fs, op, g1.e);
    var g2 := GenExpr(h1.fs, r);
    var r1, r2 := ResultAt(env, fs0, l, at, s), ResultAt(env, h1.fs, r, at, s);
    GenInv(fs0, l, |env.up|);
    GenMeans(env, fs0, l, at, s);
    InfixOther(fs0, g1.fs, op, g1.e);
    InfixOtherMeans(env, fs0, g1.fs, op, g1.e, r1, at, s);
    InvParts(fs0, h1.fs, h1.e);
    StartLater(fs0, h1.fs, at, s);
    GenInv(h1.fs, r, |env.up|);
    GenMeans(env, h1.fs, r, at, s);
    InvParts(h1.fs, g2.fs, g2.e);
    OtherMeans(env, fs0, h1.fs, h1.e, g2.fs, g2.e, op, r1, r2, at, s);
    if Arrive(env, fs0, at, s).Fall? {
      OtherResultAt(env, fs0, h1.fs, h1.e, op, l, r, at, s);
    }
    var p := Posfix(g2.fs, op, h1.e, g2.e);
    MeansResult(env, fs0, p.fs, p.e, BinaryResult(env.ops, op, r1, r2), ResultAt(env, fs0, EBinary(op, l, r), at, s),
      at, s);
  }

  // ---- statements --------------------------------------------------------------------------------------

  // The expression, closed by luaK_exp2nextreg.
  function Compile(fs: FS, x: Expr): FS {
    var g := GenExpr(fs, x);
    Exp2NextReg(g.fs, g.e).fs
  }

  // The assignment of the expression to the local variable in register `reg`.
  function CompileAssign(fs: FS, reg: nat, x: Expr): FS {
    var g := GenExpr(fs, x);
    StoreLocal(g.fs, reg, g.e)
  }

  /** What the machine does with code for an expression whose value goes to `reg`: it reaches the end of
      the code with the value there and the other registers below n as before, or it raises the error that
      evaluating the expression raises. */
  ghost predicate Computes(env: Env, x: Expr, reg: nat, n: nat, s1: Regs, o: Out) {
    match Eval(env, x, s1)
    case Val(v) => o.Fall? && reg < MAXSTACK && o.s[reg] == v && Agree(s1, o.s, n, reg)
    case Err => o == Fault
  }

  // A value in a register is what the statement promises.
  lemma MeansComputes(env: Env, fs0: FS, fs: FS, x: Expr, reg: nat, y: nat, at: nat, s: Regs)
    requires reg < MAXSTACK && (y == reg || y == MAXSTACK)
    requires Means(env, fs0, fs, Exp(VNonReloc(reg), [], []), y, ResultAt(env, fs0, x, at, s), at, s)
    ensures var o := Arrive(env, fs0, at, s);
            && (o.Fall? ==> Computes(env, x, reg, fs0.freereg, o.s, Arrive(env, fs, at, s)))
            && (o.Exit? || o.Fault? ==> Arrive(env, fs, at, s) == o)
  {
    assert ArriveExp(env, fs, Exp(VNonReloc(reg), [], []), at, s) == Arrive(env, fs, at, s);
  }

  /** Compiler correctness, on runs of the code: for every expression, generator state and registers. */
  lemma CompileCorrect(env: Env, fs0: FS, x: Expr, at: nat, s: Regs)
    requires WF(fs0) && Scoped(x, fs0.nactvar, |env.up|) && fs0.ops == env.ops
    requires Compile(fs0, x).ok && Compile(fs0, x).ks <= env.k
    requires Start(fs0, at, s)
    ensures var r := Compile(fs0, x);
            var o := Arrive(env, fs0, at, s);
            && WF(r) && Ext(fs0, r) && r.freereg == fs0.freereg + 1
            && (o.Fall? ==> Computes(env, x, fs0.freereg, fs0.freereg, o.s, Arrive(env, r, at, s)))
            && (o.Exit? || o.Fault? ==> Arrive(env, r, at, s) == o)
  {
    hide Exp2NextReg, Inv, Start, Means, Computes, ResultAt;
    var g := GenExpr(fs0, x);
    assert g.fs.ok && g.fs.ks <= env.k;
    GenInv(fs0, x, |env.up|);
    GenMeans(env, fs0, x, at, s);
    NextRegInv(fs0, g.fs, g.e);
    NextRegMeans(env, fs0, g.fs, g.e, ResultAt(env, fs0, x, at, s), at, s);
    var h := Exp2NextReg(g.fs, g.e);
    NextRegState(fs0, h.fs, h.e);
    MeansComputes(env, fs0, h.fs, x, fs0.freereg, MAXSTACK, at, s);
  }

  lemma NextRegState(fs0: FS, fs: FS, e: Exp)
    requires WF(fs0) && Inv(fs0, fs, e) && e == Exp(VNonReloc(fs0.freereg), [], [])
    ensures WF(fs) && Ext(fs0, fs) && fs.freereg == fs0.freereg + 1
  {
  }

  lemma Exp2RegDischarged(fs: FS, e: Exp, reg: nat)
    ensures var g := DischargeVars(fs, e);
            Exp2Reg(fs, e, reg) == Exp2Reg(g.fs, g.e, reg)
  {
    hide CloseLists, Emit;
  }

  /** Assignment to a local variable: it gets the value, and no other register in use changes. */
  lemma AssignCorrect(env: Env, fs0: FS, reg: nat, x: Expr, at: nat, s: Regs)
    requires WF(fs0) && Scoped(x, fs0.nactvar, |env.up|) && fs0.ops == env.ops && reg < fs0.nactvar
    requires CompileAssign(fs0, reg, x).ok && CompileAssign(fs0, reg, x).ks <= env.k
    requires Start(fs0, at, s)
    ensures var r := CompileAssign(fs0, reg, x);
            var o := Arrive(env, fs0, at, s);
            && WF(r) && Ext(fs0, r) && r.freereg == fs0.freereg
            && (o.Fall? ==> Computes(env, x, reg, fs0.freereg, o.s, Arrive(env, r, at, s)))
            && (o.Exit? || o.Fault? ==> Arrive(env, r, at, s) == o)
  {
    hide Exp2Reg, Start, DischargeVars, Means, Computes, ResultAt;
    var g := GenExpr(fs0, x);
    assert g.fs.ok && g.fs.ks <= env.k;
    GenInv(fs0, x, |env.up|);
    GenMeans(env, fs0, x, at, s);
    FreeInv(fs0, g.fs, g.e);
    var v := FreeExp(g.fs, g.e);
    SameCodeMeans(env, fs0, g.fs, v, g.e, MAXSTACK, ResultAt(env, fs0, x, at, s), at, s);
    StoreCorrect(env, fs0, v, g.e, reg, ResultAt(env, fs0, x, at, s), at, s);
    MeansComputes(env, fs0, Exp2Reg(v, g.e, reg).fs, x, reg, reg, at, s);
  }

  lemma DischargeVarsKeeps(fs0: FS, fs: FS, e: Exp)
    requires WF(fs0) && WF(fs) && WFE(fs, e) && Ext(fs0, fs) && New(fs0, e)
    ensures var g := DischargeVars(fs, e);
            && WF(g.fs) && WFE(g.fs, g.e) && Ext(fs0, g.fs) && New(fs0, g.e) && Discharged(g.e)
              && g.fs.freereg == fs.freereg
  {
    hide Emit;
    if e.k.VUpval? {
      SuspendWF(fs0, fs, e, GetUpval(0, e.k.u));
      EmitLast(fs, GetUpval(0, e.k.u));
    }
  }

  lemma StoreCorrect(env: Env, fs0: FS, fs: FS, e: Exp, reg: nat, r: Result, at: nat, s: Regs)
    requires WF(fs0) && WF(fs) && WFE(fs, e) && Ext(fs0, fs) && New(fs0, e) && reg < MAXSTACK
    requires Start(fs0, at, s) && Exp2Reg(fs, e, reg).fs.ks <= env.k
    requires Means(env, fs0, fs, e, MAXSTACK, r, at, s)
    ensures var h := Exp2Reg(fs, e, reg);
            && Means(env, fs0, h.fs, h.e, reg, r, at, s) && WF(h.fs) && Ext(fs0, h.fs)
            && h.e == Exp(VNonReloc(reg), [], []) && h.fs.freereg == fs.freereg
  {
    hide Exp2Reg, DischargeVars, Start;
    var g := DischargeVars(fs, e);
    Exp2RegDischarged(fs, e, reg);
    DischargeVarsKeeps(fs0, fs, e);
    DischargeVarsMeans(env, fs0, fs, e, r, at, s);
    Exp2RegWF(fs0, g.fs, g.e, reg);
    Exp2RegMeans(env, fs0, g.fs, g.e, reg, r, at, s);
  }

  /** Compiler correctness, on the machine: once the jumps to the end of the code are resolved, the machine
      started at `at` gets, in n turns, to the end of the code with the value in the target register, or to
      the error that evaluating the expression raises. */
  lemma MachineCorrect(env: Env, fs0: FS, x: Expr, at: nat, s: Regs) returns (n: nat, t: Regs)
    requires WF(fs0) && Scoped(x, fs0.nactvar, |env.up|) && fs0.ops == env.ops
    requires Compile(fs0, x).ok && Compile(fs0, x).ks <= env.k
    requires Start(fs0, at, s) && Arrive(env, fs0, at, s).Fall?
    ensures var code := Discharge(Compile(fs0, x)).code;
            var s1 := Arrive(env, fs0, at, s).s;
            match Eval(env, x, s1)
            case Val(v) =>
              && Steps(env, code, At(at, s), At(|code|, t), n)
              && fs0.freereg < MAXSTACK && t[fs0.freereg] == v && Agree(s1, t, fs0.freereg, MAXSTACK)
            case Err => Steps(env, code, At(at, s), Error, n)
  {
    hide Compile, Start, Eval;
    CompileCorrect(env, fs0, x, at, s);
    var r := Compile(fs0, x);
    var d := Discharge(r);
    DischargeRun(env, r, at, s);
    PendingUnmet(env, d.code, d.pend, at, s);
    n := RunIsMachine(env, d.code, at, s);
    var o := Run(env, d.code, {}, at, s);
    t := if o.Fall? then o.s else s;
  }

  // open_func: the state in which the code of a function with `nparams` parameters begins.
  function InitState(ops: Ops, nparams: nat): FS {
    FS(ops, [], {}, [], -1, nparams, nparams, if nparams > 2 then nparams else 2, [], true)
  }

  lemma InitWF(ops: Ops, nparams: nat, s: Regs)
    requires nparams < MAXSTACK && forall r :: nparams <= r < MAXSTACK ==> s[r] == Nil
    ensures var fs := InitState(ops, nparams);
            WF(fs) && Start(fs, 0, s) && forall env :: Arrive(env, fs, 0, s) == Fall(s)
  {
  }
}
