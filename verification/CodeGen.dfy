/** The one-pass code generator of Lua 5.1 for expressions (lcode.c), on values */
module CodeGen {
  // A list of pending jumps is a sequence here.  `pend` holds every jump whose destination is still open; the offset
  // stored in such a jump is never looked at.  FuncState.dfy has the generator that threads these lists through the
  // offsets of the jumps themselves.

  import opened Basics
  import opened LuaVM

  const NO_REG: nat := 255           // MAXARG_A
  const MAXARG_SBX: int := 131071
  const MAXARG_BX: nat := 262143
  const MAXINDEXRK: nat := 255

  // What is known about the value of an expression under construction (expkind of lparser.h).
  datatype Kind =
    | VNil
    | VTrue
    | VFalse
    | VK(k: nat)           // constant k
    | VKNum(num: real)
    | VLocal(reg: nat)
    | VUpval(u: nat)
    | VJmp(pc: nat)        // the comparison before jump pc jumps if it holds
    | VReloc(pc: nat)      // instruction pc can put its value in any register
    | VNonReloc(reg: nat)

  /** An expression descriptor: the kind of its value when control falls through, and the pending jumps
      that leave it when it is true (`t`) and when it is false (`f`). */
  datatype Exp = Exp(k: Kind, t: seq<nat>, f: seq<nat>)

  /** The generator state for one function.  `ok` turns false for good when a limit of the instruction
      format or of the frame is exceeded, where the source raises a syntax error. */
  datatype FS = FS(
    ops: Ops,
    code: seq<Instr>,
    pend: set<nat>,
    jpc: seq<nat>,        // pending jumps to the next instruction
    lasttarget: int,
    freereg: nat,
    nactvar: nat,
    maxstack: nat,
    ks: seq<Value>,
    ok: bool)
  {
    function Pc(): nat { |code| }
  }

  datatype Gen = Gen(fs: FS, e: Exp)

  // The generator never forgets an error and never drops a constant.
  predicate Later(fs: FS, r: FS) {
    (r.ok ==> fs.ok) && fs.ks <= r.ks
  }

  // ---- jumps ---------------------------------------------------------------------------------------

  predicate SetControl(code: seq<Instr>, j: nat) {
    0 < j <= |code| && code[j - 1].TestSet?
  }

  function Dest(code: seq<Instr>, j: nat, vtarget: nat, dtarget: nat): nat {
    if SetControl(code, j) then vtarget else dtarget
  }

  function PatchTest(i: Instr, reg: nat): Instr
    requires i.TestSet?
  {
    if reg != NO_REG && reg != i.b then TestSet(reg, i.b, i.cond) else Test(i.b, i.cond)
  }

  function PatchAt(code: seq<Instr>, list: seq<nat>, vtarget: nat, reg: nat, dtarget: nat, i: nat): Instr
    requires i < |code|
  {
    if i in list then Jmp(Dest(code, i, vtarget, dtarget) - (i + 1))
    else if i + 1 in list && code[i].TestSet? then PatchTest(code[i], reg)
    else code[i]
  }

  // The code after patchlistaux: every jump of the list has its destination, every TESTSET its register.
  function PatchCode(code: seq<Instr>, list: seq<nat>, vtarget: nat, reg: nat, dtarget: nat): seq<Instr> {
    seq(|code|, i requires 0 <= i < |code| => PatchAt(code, list, vtarget, reg, dtarget, i))
  }

  function RemoveAt(code: seq<Instr>, list: seq<nat>, i: nat): Instr
    requires i < |code|
  {
    if i + 1 in list && code[i].TestSet? then Test(code[i].b, code[i].cond) else code[i]
  }

  function RemoveCode(code: seq<Instr>, list: seq<nat>): seq<Instr> {
    seq(|code|, i requires 0 <= i < |code| => RemoveAt(code, list, i))
  }

  predicate Fits(j: nat, dest: nat) {
    -MAXARG_SBX <= dest - (j + 1) <= MAXARG_SBX
  }

  predicate AllFit(code: seq<Instr>, list: seq<nat>, vtarget: nat, dtarget: nat) {
    forall j :: j in list ==> Fits(j, Dest(code, j, vtarget, dtarget))
  }

  // Chaining l2 behind l1 stores the distance between two jumps in an offset.
  predicate Linkable(l1: seq<nat>, l2: seq<nat>) {
    l1 != [] && l2 != [] ==> Fits(l1[|l1| - 1], l2[0])
  }

  function ToSet(list: seq<nat>): set<nat> {
    set j | j in list
  }

  function Patch(fs: FS, list: seq<nat>, vtarget: nat, reg: nat, dtarget: nat): (r: FS)
    ensures Later(fs, r)
  {
    fs.(code := PatchCode(fs.code, list, vtarget, reg, dtarget),
        pend := fs.pend - ToSet(list),
        ok := fs.ok && AllFit(fs.code, list, vtarget, dtarget))
  }

  function Discharge(fs: FS): (r: FS)
    ensures Later(fs, r)
  {
    if fs.jpc == [] then fs else Patch(fs, fs.jpc, fs.Pc(), NO_REG, fs.Pc()).(jpc := [])
  }

  function Label(fs: FS): (r: FS)
    ensures Later(fs, r)
  {
    fs.(lasttarget := fs.Pc())
  }

  function PatchToHere(fs: FS, list: seq<nat>): (r: FS)
    ensures Later(fs, r)
  {
    Label(fs).(jpc := fs.jpc + list, ok := fs.ok && Linkable(fs.jpc, list))
  }

  function Emit(fs: FS, i: Instr): (r: FS)
    ensures Later(fs, r)
  {
    var d := Discharge(fs);
    d.(code := d.code + [i])
  }

  // luaK_jump: jumps to the new jump are held back and go where it will go.
  function EmitJump(fs: FS): (FS, seq<nat>) {
    var j := fs.Pc();
    (fs.(code := fs.code + [Jmp(NO_JUMP)], pend := fs.pend + {j}, jpc := [], ok := fs.ok && Linkable([j], fs.jpc)),
     [j] + fs.jpc)
  }

  const NO_JUMP: int := -1

  // condjump: a test and its jump; the jump is at Pc() - 1 of the result.
  function CondJump(fs: FS, i: Instr): (r: FS)
    ensures Later(fs, r)
  {
    EmitJump(Emit(fs, i)).0
  }

  function NeedValue(code: seq<Instr>, list: seq<nat>): bool {
    exists j :: j in list && !SetControl(code, j)
  }

  // ---- registers and constants ---------------------------------------------------------------------

  function Reserve(fs: FS, n: nat): (r: FS)
    ensures Later(fs, r)
  {
    var top := fs.freereg + n;
    fs.(freereg := top,
        maxstack := if top > fs.maxstack then top else fs.maxstack,
        ok := fs.ok && (top > fs.maxstack ==> top < MAXSTACK))
  }

  function FreeExp(fs: FS, e: Exp): (r: FS)
    ensures Later(fs, r)
  {
    if e.k.VNonReloc? && fs.nactvar <= e.k.reg && 0 < fs.freereg then fs.(freereg := fs.freereg - 1) else fs
  }

  function FindK(ks: seq<Value>, v: Value): nat {
    if ks == [] then 0 else if ks[0] == v then 0 else 1 + FindK(ks[1..], v)
  }

  // addk: the index of v in the constant table, added at the end if it is new.
  function AddK(fs: FS, v: Value): (FS, nat) {
    var i := FindK(fs.ks, v);
    (if v in fs.ks then fs else fs.(ks := fs.ks + [v], ok := fs.ok && |fs.ks| < MAXARG_BX), i)
  }

  // ---- putting an expression somewhere ---------------------------------------------------------------

  function NilCode(fs: FS, from: nat): (r: FS)
    ensures Later(fs, r)
  {
    if fs.Pc() > fs.lasttarget && fs.Pc() == 0 && from >= fs.nactvar then fs
    else if fs.Pc() > fs.lasttarget && fs.Pc() > 0 && fs.code[fs.Pc() - 1].LoadNil?
            && fs.code[fs.Pc() - 1].a <= from <= fs.code[fs.Pc() - 1].b + 1 then
      if from > fs.code[fs.Pc() - 1].b then fs.(code := fs.code[fs.Pc() - 1 := LoadNil(fs.code[fs.Pc() - 1].a, from)])
      else fs
    else Emit(fs, LoadNil(from, from))
  }

  function DischargeVars(fs: FS, e: Exp): (g: Gen)
    ensures Later(fs, g.fs)
  {
    match e.k
    case VLocal(r) => Gen(fs, e.(k := VNonReloc(r)))
    case VUpval(u) => var fs1 := Emit(fs, GetUpval(0, u)); Gen(fs1, e.(k := VReloc(fs1.Pc() - 1)))
    case _ => Gen(fs, e)
  }

  function SetA(i: Instr, reg: nat): Instr {
    match i
    case Move(_, b) => Move(reg, b)
    case LoadK(_, bx) => LoadK(reg, bx)
    case LoadBool(_, v, skip) => LoadBool(reg, v, skip)
    case GetUpval(_, b) => GetUpval(reg, b)
    case Arith(op, _, b, c) => LuaVM.Arith(op, reg, b, c)
    case Unary(op, _, b) => LuaVM.Unary(op, reg, b)
    case Not(_, b) => Not(reg, b)
    case _ => i
  }

  function Discharge2Reg(fs0: FS, e0: Exp, reg: nat): (h: Gen)
    ensures Later(fs0, h.fs)
  {
    var g := DischargeVars(fs0, e0);
    var fs, e := g.fs, g.e;
    match e.k
    case VNil => Gen(NilCode(fs, reg), e.(k := VNonReloc(reg)))
    case VFalse => Gen(Emit(fs, LoadBool(reg, false, false)), e.(k := VNonReloc(reg)))
    case VTrue => Gen(Emit(fs, LoadBool(reg, true, false)), e.(k := VNonReloc(reg)))
    case VK(k) => Gen(Emit(fs, LoadK(reg, k)), e.(k := VNonReloc(reg)))
    case VKNum(r) =>
      var (fs1, k) := AddK(fs, Number(Num(r)));
      Gen(Emit(fs1, LoadK(reg, k)), e.(k := VNonReloc(reg)))
    case VReloc(pc) =>
      Gen(if pc < |fs.code| then fs.(code := fs.code[pc := SetA(fs.code[pc], reg)]) else fs, e.(k := VNonReloc(reg)))
    case VNonReloc(r) => Gen(if reg != r then Emit(fs, Move(reg, r)) else fs, e.(k := VNonReloc(reg)))
    case _ => Gen(fs, e)
  }

  function Discharge2AnyReg(fs: FS, e: Exp): (g: Gen)
    ensures Later(fs, g.fs)
  {
    if e.k.VNonReloc? then Gen(fs, e)
    else Discharge2Reg(Reserve(fs, 1), e, fs.freereg)
  }

  predicate HasJumps(e: Exp) {
    e.t != [] || e.f != []
  }

  // The LOADBOOL pair that gives a value to jumps that carry none.
  function LoadPair(fs: FS, reg: nat, skip: bool): (r: FS)
    ensures Later(fs, r)
  {
    var (fs1, fj) := if skip then EmitJump(fs) else (fs, []);
    var fs2 := Emit(Label(fs1), LoadBool(reg, false, true));
    var fs3 := Emit(Label(fs2), LoadBool(reg, true, false));
    PatchToHere(fs3, fj)
  }

  // The second half of exp2reg: bring the jumps of `e` together behind the expression.
  function CloseLists(fs: FS, e: Exp, reg: nat): (r: FS)
    ensures Later(fs, r)
  {
    var t := if e.k.VJmp? then e.t + [e.k.pc] else e.t;
    var fs := if e.k.VJmp? then fs.(ok := fs.ok && Linkable(e.t, [e.k.pc])) else fs;
    if t == [] && e.f == [] then fs
    else
      var need := NeedValue(fs.code, t) || NeedValue(fs.code, e.f);
      var fs1 := if need then LoadPair(fs, reg, !e.k.VJmp?) else fs;
      var fs2 := Label(fs1);
      var pf, pt := if need then fs1.Pc() - 2 else 0, if need then fs1.Pc() - 1 else 0;
      Patch(Patch(fs2, e.f, fs2.Pc(), reg, pf), t, fs2.Pc(), reg, pt)
  }

  function Exp2Reg(fs: FS, e: Exp, reg: nat): (g: Gen)
    ensures Later(fs, g.fs)
  {
    var g := Discharge2Reg(fs, e, reg);
    Gen(CloseLists(g.fs, g.e, reg), Exp(VNonReloc(reg), [], []))
  }

  function Exp2NextReg(fs: FS, e: Exp): (g: Gen)
    ensures Later(fs, g.fs)
  {
    var g := DischargeVars(fs, e);
    var fs1 := FreeExp(g.fs, g.e);
    Exp2Reg(Reserve(fs1, 1), g.e, fs1.freereg)
  }

  function Exp2AnyReg(fs: FS, e: Exp): (g: Gen)
    ensures Later(fs, g.fs)
  {
    var g := DischargeVars(fs, e);
    if g.e.k.VNonReloc? && !HasJumps(g.e) then g
    else if g.e.k.VNonReloc? && g.e.k.reg >= fs.nactvar then Exp2Reg(g.fs, g.e, g.e.k.reg)
    else Exp2NextReg(g.fs, g.e)
  }

  function Exp2Val(fs: FS, e: Exp): (g: Gen)
    ensures Later(fs, g.fs)
  {
    if HasJumps(e) then Exp2AnyReg(fs, e) else DischargeVars(fs, e)
  }

  function ConstOf(k: Kind): Value {
    match k
    case VTrue => Bool(true)
    case VFalse => Bool(false)
    case VKNum(r) => Number(Num(r))
    case _ => Nil
  }

  function Exp2RK(fs: FS, e: Exp): (g: Gen)
    ensures Later(fs, g.fs)
  {
    var g := Exp2Val(fs, e);
    var k := g.e.k;
    if (k.VKNum? || k.VTrue? || k.VFalse? || k.VNil?) && |g.fs.ks| <= MAXINDEXRK then
      var (fs1, i) := AddK(g.fs, ConstOf(k));
      Gen(fs1, g.e.(k := VK(i)))
    else if k.VK? && k.k <= MAXINDEXRK then g
    else Exp2AnyReg(g.fs, g.e)
  }

  // The operand that exp2RK returns.
  function Operand(e: Exp): nat {
    match e.k
    case VK(k) => BITRK + k
    case VNonReloc(r) => r
    case _ => 0
  }

  // storevar for a local variable.
  function StoreLocal(fs: FS, reg: nat, e: Exp): (r: FS)
    ensures Later(fs, r)
  {
    Exp2Reg(FreeExp(fs, e), e, reg).fs
  }

  // ---- conditions ------------------------------------------------------------------------------------

  function InvertJump(fs: FS, e: Exp): (r: FS)
    ensures Later(fs, r)
  {
    if e.k.VJmp? && 0 < e.k.pc <= |fs.code| && fs.code[e.k.pc - 1].Compare? then
      var i := fs.code[e.k.pc - 1];
      fs.(code := fs.code[e.k.pc - 1 := Compare(i.cop, !i.cond, i.b, i.c)])
    else fs
  }

  // jumponcond: the new jump is the last instruction of the result.
  function JumpOnCond(fs: FS, e: Exp, cond: bool): (r: FS)
    ensures Later(fs, r)
  {
    if e.k.VReloc? && e.k.pc < |fs.code| && fs.code[e.k.pc].Not? then
      CondJump(fs.(code := fs.code[..|fs.code| - 1]), Test(fs.code[e.k.pc].b, !cond))
    else
      var g := Discharge2AnyReg(fs, e);
      CondJump(FreeExp(g.fs, g.e), TestSet(NO_REG, Operand(g.e), cond))
  }

  function GoIfTrue(fs: FS, e: Exp): (g: Gen)
    ensures Later(fs, g.fs)
  {
    var g := DischargeVars(fs, e);
    var k := g.e.k;
    if k.VK? || k.VKNum? || k.VTrue? then Gen(PatchToHere(g.fs, g.e.t), g.e.(t := []))
    else
      var fs1 := if k.VJmp? then InvertJump(g.fs, g.e) else JumpOnCond(g.fs, g.e, false);
      var pc := if k.VJmp? then k.pc else fs1.Pc() - 1;
      Gen(PatchToHere(fs1.(ok := fs1.ok && Linkable(g.e.f, [pc])), g.e.t), Exp(k, [], g.e.f + [pc]))
  }

  function GoIfFalse(fs: FS, e: Exp): (g: Gen)
    ensures Later(fs, g.fs)
  {
    var g := DischargeVars(fs, e);
    var k := g.e.k;
    if k.VNil? || k.VFalse? then Gen(PatchToHere(g.fs, g.e.f), g.e.(f := []))
    else
      var fs1 := if k.VJmp? then g.fs else JumpOnCond(g.fs, g.e, true);
      var pc := if k.VJmp? then k.pc else fs1.Pc() - 1;
      Gen(PatchToHere(fs1.(ok := fs1.ok && Linkable(g.e.t, [pc])), g.e.f), Exp(k, g.e.t + [pc], []))
  }

  // The first half of codenot: negate the value that falls through.
  function NegateValue(fs: FS, e: Exp): (g: Gen)
    ensures Later(fs, g.fs)
  {
    match e.k
    case VNil => Gen(fs, e.(k := VTrue))
    case VFalse => Gen(fs, e.(k := VTrue))
    case VK(_) => Gen(fs, e.(k := VFalse))
    case VKNum(_) => Gen(fs, e.(k := VFalse))
    case VTrue => Gen(fs, e.(k := VFalse))
    case VJmp(_) => Gen(InvertJump(fs, e), e)
    case _ =>
      var g := Discharge2AnyReg(fs, e);
      var fs1 := Emit(FreeExp(g.fs, g.e), Not(0, Operand(g.e)));
      Gen(fs1, g.e.(k := VReloc(fs1.Pc() - 1)))
  }

  function CodeNot(fs: FS, e: Exp): (g: Gen)
    ensures Later(fs, g.fs)
  {
    var g := DischargeVars(fs, e);
    var h := NegateValue(g.fs, g.e);
    Gen(h.fs.(code := RemoveCode(RemoveCode(h.fs.code, h.e.t), h.e.f)), Exp(h.e.k, h.e.f, h.e.t))
  }

  // ---- operators -------------------------------------------------------------------------------------

  predicate IsNumeral(e: Exp) {
    e.k.VKNum? && !HasJumps(e)
  }

  // constfolding for a binary operator: nothing if the result could differ from the run-time one.
  function Fold(ops: Ops, op: ArithOp, a: real, b: real): Option<real> {
    if (op == Div || op == Mod) && b == 0.0 then None
    else match ops.num(op, Num(a), Num(b)) case NaN => None case Num(r) => Some(r)
  }

  function Free2(fs: FS, e1: Exp, e2: Exp): (r: FS)
    ensures Later(fs, r)
  {
    if Operand(e1) > Operand(e2) then FreeExp(FreeExp(fs, e1), e2) else FreeExp(FreeExp(fs, e2), e1)
  }

  function CodeArith(fs: FS, op: ArithOp, e1: Exp, e2: Exp): (g: Gen)
    ensures Later(fs, g.fs)
  {
    if IsNumeral(e1) && IsNumeral(e2) && Fold(fs.ops, op, e1.k.num, e2.k.num).Some? then
      Gen(fs, e1.(k := VKNum(Fold(fs.ops, op, e1.k.num, e2.k.num).value)))
    else
      var g2 := Exp2RK(fs, e2);
      var g1 := Exp2RK(g2.fs, e1);
      var fs1 := Emit(Free2(g1.fs, g1.e, g2.e), LuaVM.Arith(op, 0, Operand(g1.e), Operand(g2.e)));
      Gen(fs1, g1.e.(k := VReloc(fs1.Pc() - 1)))
  }

  function CodeUnary(fs: FS, op: UnaryOp, e: Exp): (g: Gen)
    ensures Later(fs, g.fs)
  {
    if op == Unm && IsNumeral(e) then Gen(fs, e.(k := VKNum(fs.ops.neg(e.k.num))))
    else
      var g := Exp2RK(fs, e);
      var fs1 := Emit(FreeExp(g.fs, g.e), LuaVM.Unary(op, 0, Operand(g.e)));
      Gen(fs1, g.e.(k := VReloc(fs1.Pc() - 1)))
  }

  function CodeComp(fs: FS, op: CompareOp, cond: bool, e1: Exp, e2: Exp): (g: Gen)
    ensures Later(fs, g.fs)
  {
    var g1 := Exp2RK(fs, e1);
    var g2 := Exp2RK(g1.fs, e2);
    var o1, o2 := Operand(g1.e), Operand(g2.e);
    var fs1 := FreeExp(FreeExp(g2.fs, g2.e), g1.e);
    var fs2 := if !cond && op != Eq then CondJump(fs1, Compare(op, true, o2, o1))
               else CondJump(fs1, Compare(op, cond, o1, o2));
    Gen(fs2, g1.e.(k := VJmp(fs2.Pc() - 1)))
  }

  datatype UnOpr = Minus | LNot | Length

  datatype BinOpr = BArith(op: ArithOp) | NE | EQ | LT | LE | GT | GE | And | Or

  function Prefix(fs: FS, op: UnOpr, e: Exp): (g: Gen)
    ensures Later(fs, g.fs)
  {
    match op
    case Minus => if IsNumeral(e) then CodeUnary(fs, Unm, e) else var g := Exp2AnyReg(fs, e); CodeUnary(g.fs, Unm, g.e)
    case LNot => CodeNot(fs, e)
    case Length => var g := Exp2AnyReg(fs, e); CodeUnary(g.fs, Len, g.e)
  }

  function Infix(fs: FS, op: BinOpr, e: Exp): (g: Gen)
    ensures Later(fs, g.fs)
  {
    match op
    case And => GoIfTrue(fs, e)
    case Or => GoIfFalse(fs, e)
    case BArith(_) => if IsNumeral(e) then Gen(fs, e) else Exp2RK(fs, e)
    case _ => Exp2RK(fs, e)
  }

  function Posfix(fs: FS, op: BinOpr, e1: Exp, e2: Exp): (g: Gen)
    ensures Later(fs, g.fs)
  {
    match op
    case And =>
      var g := DischargeVars(fs, e2);
      Gen(g.fs.(ok := g.fs.ok && Linkable(g.e.f, e1.f)), g.e.(f := g.e.f + e1.f))
    case Or =>
      var g := DischargeVars(fs, e2);
      Gen(g.fs.(ok := g.fs.ok && Linkable(g.e.t, e1.t)), g.e.(t := g.e.t + e1.t))
    case BArith(o) => CodeArith(fs, o, e1, e2)
    case EQ => CodeComp(fs, Eq, true, e1, e2)
    case NE => CodeComp(fs, Eq, false, e1, e2)
    case LT => CodeComp(fs, Lt, true, e1, e2)
    case LE => CodeComp(fs, Le, true, e1, e2)
    case GT => CodeComp(fs, Lt, false, e1, e2)
    case GE => CodeComp(fs, Le, false, e1, e2)
  }

  // ---- expressions -----------------------------------------------------------------------------------

  datatype Expr =
    | ENil
    | ETrue
    | EFalse
    | ENum(r: real)
    | ELocal(i: nat)
    | EUpval(u: nat)
    | EParen(x: Expr)
    | EUnary(uop: UnOpr, x: Expr)
    | EBinary(bop: BinOpr, l: Expr, r2: Expr)

  // What the language reference says the expression means.
  function Eval(env: Env, x: Expr, s: Regs): Result {
    match x
    case ENil => Val(Nil)
    case ETrue => Val(Bool(true))
    case EFalse => Val(Bool(false))
    case ENum(r) => Val(Number(Num(r)))
    case ELocal(i) => if i < MAXSTACK then Val(s[i]) else Err
    case EUpval(u) => if u < |env.up| then Val(env.up[u]) else Err
    case EParen(y) => Eval(env, y, s)
    case EUnary(op, y) => (match Eval(env, y, s) case Val(v) => EvalUnary(env.ops, op, v) case Err => Err)
    case EBinary(op, l, r) =>
      match Eval(env, l, s)
      case Err => Err
      case Val(v) =>
        if op == And && Falsy(v) then Val(v)
        else if op == Or && !Falsy(v) then Val(v)
        else match Eval(env, r, s)
             case Err => Err
             case Val(w) => EvalBinary(env.ops, op, v, w)
  }

  function EvalUnary(ops: Ops, op: UnOpr, v: Value): Result {
    match op
    case LNot => Val(Bool(Falsy(v)))
    case Minus => UnaryValue(ops, Unm, v)
    case Length => UnaryValue(ops, Len, v)
  }

  function EvalBinary(ops: Ops, op: BinOpr, v: Value, w: Value): Result {
    match op
    case And => Val(w)
    case Or => Val(w)
    case BArith(o) => ArithValue(ops, o, v, w)
    case EQ => Truth(ops.compare(Eq, v, w), true)
    case NE => Truth(ops.compare(Eq, v, w), false)
    case LT => Truth(ops.compare(Lt, v, w), true)
    case LE => Truth(ops.compare(Le, v, w), true)
    case GT => Truth(ops.compare(Lt, w, v), true)
    case GE => Truth(ops.compare(Le, w, v), true)
  }

  function Truth(t: LuaVM.Test, sense: bool): Result {
    match t case Holds(b) => Val(Bool(b == sense)) case TestErr => Err
  }

  // The variables an expression names exist.
  predicate Scoped(x: Expr, nactvar: nat, nup: nat) {
    match x
    case ELocal(i) => i < nactvar
    case EUpval(u) => u < nup
    case EParen(y) => Scoped(y, nactvar, nup)
    case EUnary(_, y) => Scoped(y, nactvar, nup)
    case EBinary(_, l, r) => Scoped(l, nactvar, nup) && Scoped(r, nactvar, nup)
    case _ => true
  }

  // The calls that subexpr makes while it parses the expression, in its order.
  function GenExpr(fs: FS, x: Expr): (g: Gen)
    ensures Later(fs, g.fs)
    decreases x
  {
    match x
    case ENil => Gen(fs, Exp(VNil, [], []))
    case ETrue => Gen(fs, Exp(VTrue, [], []))
    case EFalse => Gen(fs, Exp(VFalse, [], []))
    case ENum(r) => Gen(fs, Exp(VKNum(r), [], []))
    case ELocal(i) => Gen(fs, Exp(VLocal(i), [], []))
    case EUpval(u) => Gen(fs, Exp(VUpval(u), [], []))
    case EParen(y) => var g := GenExpr(fs, y); DischargeVars(g.fs, g.e)
    case EUnary(op, y) => var g := GenExpr(fs, y); Prefix(g.fs, op, g.e)
    case EBinary(op, l, r) =>
      var g1 := GenExpr(fs, l);
      var h1 := Infix(g1.fs, op, g1.e);
      var g2 := GenExpr(h1.fs, r);
      Posfix(g2.fs, op, h1.e, g2.e)
  }
}
