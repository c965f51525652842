/** Which expressions compile.  The generator refuses an expression only because of its size: here is a size that is
    always accepted. */
module CodeGenSize {
  import opened Basics
  import opened LuaVM
  import opened CodeGen
  import opened CodeGenState
  import opened CodeGenSteps
  import opened CodeGenReg
  import opened CodeGenLists
  import opened CodeGenExp
  import opened CodeGenCond
  import opened CodeGenOps
  import opened CodeGenArith
  import opened CodeGenCorrect

  // ---- the size of an expression -----------------------------------------------------------------------------

  function Nodes(x: Expr): nat {
    match x
    case EParen(y) => 1 + Nodes(y)
    case EUnary(_, y) => 1 + Nodes(y)
    case EBinary(_, l, r) => 1 + Nodes(l) + Nodes(r)
    case _ => 1
  }

  // How many registers it takes to compute x: the left operand may be held while the right one is computed.
  function Registers(x: Expr): nat {
    match x
    case EParen(y) => Registers(y)
    case EUnary(_, y) => Registers(y)
    case EBinary(op, l, r) =>
      var n := if op == And || op == Or then Registers(r) else 1 + Registers(r);
      if n < Registers(l) then Registers(l) else n
    case _ => 1
  }

  lemma {:induction false} OneRegister(x: Expr)
    ensures 1 <= Registers(x) <= Nodes(x)
  {
    match x
    case EParen(y) => OneRegister(y);
    case EUnary(_, y) => OneRegister(y);
    case EBinary(_, l, r) => OneRegister(l); OneRegister(r);
    case _ =>
  }

  // ---- what fits -----------------------------------------------------------------------------------------------

  // There is room for n more instructions and k more constants.
  predicate Roomy(fs: FS, n: nat, k: nat) {
    fs.ok && |fs.code| + n <= 131071 && |fs.ks| + k <= 262143
  }

  // No error, and n more instructions and k more constants at most
  predicate Grows(a: FS, b: FS, n: nat, k: nat) {
    b.ok && |b.code| <= |a.code| + n && |b.ks| <= |a.ks| + k
  }

  lemma FitsSmall(code: seq<Instr>, list: seq<nat>, v: nat, d: nat, n: nat)
    requires n <= 131071 && v <= n && d <= n && forall j :: j in list ==> j < n
    ensures AllFit(code, list, v, d)
  {
  }

  lemma LinksSmall(a: seq<nat>, b: seq<nat>, n: nat)
    requires n <= 131071 && (forall j :: j in a ==> j < n) && (forall j :: j in b ==> j < n)
    ensures Linkable(a, b)
  {
    if a != [] && b != [] { assert a[|a| - 1] in a && b[0] in b; }
  }

  lemma DischargeOk(fs: FS)
    requires WF(fs) && Roomy(fs, 0, 0)
    ensures Grows(fs, Discharge(fs), 0, 0)
  {
    FitsSmall(fs.code, fs.jpc, fs.Pc(), fs.Pc(), |fs.code|);
  }

  lemma EmitOk(fs: FS, i: Instr)
    requires WF(fs) && Roomy(fs, 1, 0)
    ensures Grows(fs, Emit(fs, i), 1, 0)
  {
    DischargeOk(fs);
  }

  lemma NilOk(fs: FS, reg: nat)
    requires WF(fs) && Roomy(fs, 1, 0)
    ensures Grows(fs, NilCode(fs, reg), 1, 0)
  {
    EmitOk(fs, LoadNil(reg, reg));
  }

  lemma AddKOk(fs: FS, v: Value)
    requires Roomy(fs, 0, 1)
    ensures Grows(fs, AddK(fs, v).0, 0, 1) && AddK(fs, v).0.code == fs.code
  {
  }

  // ---- one value -----------------------------------------------------------------------------------------------

  // An upvalue takes one instruction to get.
  function Cost(e: Exp): nat {
    if e.k.VUpval? then 1 else 0
  }

  lemma VarsOk(fs: FS, e: Exp)
    requires WF(fs) && Roomy(fs, Cost(e), 0)
    ensures Grows(fs, DischargeVars(fs, e).fs, Cost(e), 0) && Discharged(DischargeVars(fs, e).e)
    ensures Discharged(e) ==> DischargeVars(fs, e) == Gen(fs, e)
  {
    hide Emit;
    if e.k.VUpval? { EmitOk(fs, GetUpval(0, e.k.u)); }
  }

  lemma ToRegisterOk(fs: FS, e: Exp, reg: nat)
    requires WF(fs) && Discharged(e) && Roomy(fs, 1, 1)
    ensures Grows(fs, Discharge2Reg(fs, e, reg).fs, 1, 1)
  {
    hide Emit, NilCode, AddK;
    match e.k
    case VNil => NilOk(fs, reg);
    case VFalse => EmitOk(fs, LoadBool(reg, false, false));
    case VTrue => EmitOk(fs, LoadBool(reg, true, false));
    case VK(k) => EmitOk(fs, LoadK(reg, k));
    case VKNum(r) => NumeralOk(fs, r, reg);
    case VNonReloc(r) => EmitOk(fs, Move(reg, r));
    case _ =>
  }

  lemma NumeralOk(fs: FS, r: real, reg: nat)
    requires WF(fs) && Roomy(fs, 1, 1)
    ensures var (fs1, k) := AddK(fs, Number(Num(r)));
            Grows(fs, Emit(fs1, LoadK(reg, k)), 1, 1)
  {
    hide Emit;
    var (fs1, k) := AddK(fs, Number(Num(r)));
    AddKOk(fs, Number(Num(r)));
    AddKIndex(fs, Number(Num(r)));
    EmitOk(fs1, LoadK(reg, k));
  }

  lemma PairOk(fs: FS, reg: nat, skip: bool)
    requires WF(fs) && Roomy(fs, 3, 0)
    ensures Grows(fs, LoadPair(fs, reg, skip), 3, 0)
  {
    DischargeOk(fs);
    LinksSmall([fs.Pc()], fs.jpc, |fs.code| + 1);
  }

  lemma JointOk(fs: FS, e: Exp, reg: nat)
    requires WF(fs) && Roomy(fs, 3, 0)
    ensures Grows(fs, Joint(fs, e, reg), 3, 0) && Pf(fs, e, reg) <= |Joint(fs, e, reg).code|
      && Pt(fs, e, reg) <= |Joint(fs, e, reg).code|
  {
    hide LoadPair;
    PairOk(fs, reg, !e.k.VJmp?);
  }

  lemma CloseListsOk(fs: FS, e: Exp, reg: nat)
    requires WF(fs) && WFE(fs, e) && (e.k == VNonReloc(reg) || e.k.VJmp?) && Roomy(fs, 3, 0)
    ensures Grows(fs, CloseLists(fs, e, reg), 3, 0)
  {
    hide LoadPair, Joint, Pf, Pt, CloseLists, WF, WFE;
    if TList(e) != [] || e.f != [] {
      ListsBelow(fs, e);
      JointOk(fs, e, reg);
      JointWF(fs, e, reg);
      var p, n := Joint(fs, e, reg), |Joint(fs, e, reg).code|;
      var q := Patch(p, e.f, p.Pc(), reg, Pf(fs, e, reg));
      FitsSmall(p.code, e.f, n, Pf(fs, e, reg), n);
      FitsSmall(q.code, TList(e), n, Pt(fs, e, reg), n);
      ClosedOk(fs, e, reg);
    } else {
      NoLists(fs, e, reg);
    }
  }

  lemma NoLists(fs: FS, e: Exp, reg: nat)
    requires TList(e) == [] && e.f == []
    ensures CloseLists(fs, e, reg) == fs
  {
  }

  // Every jump of the expression lies in the code.
  lemma ListsBelow(fs: FS, e: Exp)
    requires WF(fs) && WFE(fs, e)
    ensures forall j :: j in TList(e) || j in e.f ==> j < |fs.code|
  {
    TListControlled(fs, e);
  }

  // Closing fails only if a link or a patched jump is too far.
  lemma ClosedOk(fs: FS, e: Exp, reg: nat)
    requires (TList(e) != [] || e.f != []) && |fs.code| <= 131071
    requires forall j :: j in TList(e) || j in e.f ==> j < |fs.code|
    requires var p := Joint(fs, e, reg);
             Patch(Patch(p, e.f, p.Pc(), reg, Pf(fs, e, reg)), TList(e), p.Pc(), reg, Pt(fs, e, reg)).ok
    ensures CloseLists(fs, e, reg) ==
            var p := Joint(fs, e, reg);
            Patch(Patch(p, e.f, p.Pc(), reg, Pf(fs, e, reg)), TList(e), p.Pc(), reg, Pt(fs, e, reg))
  {
    hide LoadPair, Patch, NeedValue, Linkable, ToSet;
    if e.k.VJmp? {
      assert e.k.pc in TList(e) by { assert TList(e)[|e.t|] == e.k.pc; }
      assert forall j :: j in e.t ==> j in TList(e);
      LinksSmall(e.t, [e.k.pc], |fs.code|);
      assert fs.(ok := fs.ok && Linkable(e.t, [e.k.pc])) == fs;
    }
  }

  lemma RegOk(fs: FS, e: Exp, reg: nat)
    requires WF(fs) && WFE(fs, e) && Discharged(e) && reg < MAXSTACK && Roomy(fs, 4, 1)
    ensures Grows(fs, Exp2Reg(fs, e, reg).fs, 4, 1)
  {
    hide Discharge2Reg, CloseLists;
    Discharge2RegWF(fs, e, reg);
    ToRegisterOk(fs, e, reg);
    var h := Discharge2Reg(fs, e, reg);
    CloseListsOk(h.fs, h.e, reg);
    CloseListsRegs(h.fs, h.e, reg);
  }

  // ---- expressions in registers and operands ---------------------------------------------------------------------

  // A register more than those in use at fs0 is always to be had.
  lemma RoomOk(fs0: FS, fs: FS, e: Exp)
    requires WF(fs0) && Inv(fs0, fs, e) && fs0.freereg + 1 < 250 && fs.ok
    ensures var r := Room(fs, e);
            r.ok && r.code == fs.code && r.ks == fs.ks && FreeExp(fs, e).freereg == fs0.freereg < MAXSTACK
  {
  }

  lemma NextRegOk(fs0: FS, fs: FS, e: Exp)
    requires WF(fs0) && Inv(fs0, fs, e) && fs0.freereg + 1 < 250 && Roomy(fs, Cost(e) + 4, 1)
    ensures Grows(fs, Exp2NextReg(fs, e).fs, Cost(e) + 4, 1)
  {
    hide Inv, WF, Exp2Reg, Room, DischargeVars;
    InvParts(fs0, fs, e);
    VarsOk(fs, e);
    DischargeVarsOf(fs0, fs, e);
    var g := DischargeVars(fs, e);
    RoomOk(fs0, g.fs, g.e);
    RoomWF(fs0, g.fs, g.e);
    RegOk(Room(g.fs, g.e), g.e, fs0.freereg);
    NextRegIs(fs, e);
  }

  lemma NextRegIs(fs: FS, e: Exp)
    ensures var g := DischargeVars(fs, e);
            Exp2NextReg(fs, e) == Exp2Reg(Room(g.fs, g.e), g.e, FreeExp(g.fs, g.e).freereg)
  {
    hide Exp2Reg, DischargeVars;
  }

  lemma DischargeVarsOf(fs0: FS, fs: FS, e: Exp)
    requires WF(fs0) && Inv(fs0, fs, e)
    ensures var g := DischargeVars(fs, e);
            Inv(fs0, g.fs, g.e) && Discharged(g.e) && g.e.t == e.t && g.e.f == e.f && WF(g.fs) && WFE(g.fs, g.e)
  {
    DischargeVarsWF(fs0, fs, e);
  }

  lemma AnyRegOk(fs0: FS, fs: FS, e: Exp)
    requires WF(fs0) && Inv(fs0, fs, e) && fs0.freereg + 1 < 250 && Roomy(fs, Cost(e) + 4, 1)
    ensures Grows(fs, Exp2AnyReg(fs, e).fs, Cost(e) + 4, 1)
  {
    hide Inv, WF, Exp2Reg, Exp2NextReg, DischargeVars, WFE;
    InvParts(fs0, fs, e);
    VarsOk(fs, e);
    DischargeVarsOf(fs0, fs, e);
    var g := DischargeVars(fs, e);
    if g.e.k.VNonReloc? && HasJumps(g.e) && g.e.k.reg >= fs.nactvar {
      RegBelow(g.fs, g.e);
      RegOk(g.fs, g.e, g.e.k.reg);
    } else if !g.e.k.VNonReloc? || HasJumps(g.e) {
      NextRegOk(fs0, g.fs, g.e);
    }
  }

  lemma RegBelow(fs: FS, e: Exp)
    requires WFE(fs, e) && e.k.VNonReloc?
    ensures e.k.reg < MAXSTACK
  {
  }

  lemma RKOk(fs0: FS, fs: FS, e: Exp)
    requires WF(fs0) && Inv(fs0, fs, e) && fs0.freereg + 1 < 250 && Roomy(fs, Cost(e) + 4, 1)
    ensures Grows(fs, Exp2RK(fs, e).fs, Cost(e) + 4, 1)
  {
    hide Inv, WF, Exp2AnyReg, DischargeVars, AddK;
    InvParts(fs0, fs, e);
    if HasJumps(e) {
      AnyRegOk(fs0, fs, e);
      AnyRegInv(fs0, fs, e);
      var g := Exp2AnyReg(fs, e);
      OperandStays(g.fs, g.e);
      RKOfReg(fs, e);
    } else {
      VarsOk(fs, e);
      DischargeVarsOf(fs0, fs, e);
      var g := DischargeVars(fs, e);
      AddKOk(g.fs, ConstOf(g.e.k));
      AnyRegOk(fs0, g.fs, g.e);
    }
  }

  lemma RKOfReg(fs: FS, e: Exp)
    requires HasJumps(e) && IsOperand(Exp2AnyReg(fs, e).e)
    ensures Exp2RK(fs, e) == Exp2RK(Exp2AnyReg(fs, e).fs, Exp2AnyReg(fs, e).e)
  {
    hide Exp2AnyReg;
    OperandStays(Exp2AnyReg(fs, e).fs, Exp2AnyReg(fs, e).e);
  }

  lemma ToAnyOk(fs0: FS, fs: FS, e: Exp)
    requires WF(fs0) && Inv(fs0, fs, e) && Discharged(e) && fs0.freereg + 1 < 250 && Roomy(fs, 1, 1)
    ensures Grows(fs, Discharge2AnyReg(fs, e).fs, 1, 1)
  {
    if !e.k.VNonReloc? {
      var r := Reserve(fs, 1);
      SameCodeKeeps(fs0, fs, r, e);
      assert r.ok && WF(r) && r.code == fs.code && r.ks == fs.ks;
      hide Discharge2Reg, WF, Inv;
      ToRegisterOk(r, e, fs.freereg);
    }
  }

  // ---- conditions ------------------------------------------------------------------------------------------------

  lemma CondJumpOk(fs: FS, i: Instr)
    requires WF(fs) && IsTest(i) && Roomy(fs, 2, 0)
    ensures Grows(fs, CondJump(fs, i), 2, 0)
  {
    hide WF;
    EmitOk(fs, i);
    DischargeWF(fs);
    assert Linkable([Emit(fs, i).Pc()], Emit(fs, i).jpc);
  }

  lemma JumpOk(fs0: FS, fs: FS, e: Exp, cond: bool)
    requires WF(fs0) && Inv(fs0, fs, e) && Discharged(e) && !e.k.VJmp? && fs0.freereg + 1 < 250 && Roomy(fs, 3, 1)
    ensures Grows(fs, JumpOnCond(fs, e, cond), 3, 1)
  {
    hide CondJump, Discharge2AnyReg, JumpOnCond, WF, WFE, Ext, New;
    if IsNot(fs, e) {
      JumpOnNot(fs, e, cond);
      DroppedWF(fs0, fs, e);
      CondJumpOk(Dropped(fs), LuaVM.Test(fs.code[e.k.pc].b, !cond));
    } else {
      var g := Discharge2AnyReg(fs, e);
      ToAnyOk(fs0, fs, e);
      ToRegInv(fs0, fs, e);
      JumpOnReg(fs, e, cond);
      FreeInv(fs0, g.fs, g.e);
      CondJumpOk(FreeExp(g.fs, g.e), TestSet(NO_REG, g.e.k.reg, cond));
    }
  }

  lemma HereOk(fs: FS, list: seq<nat>)
    requires WF(fs) && Roomy(fs, 0, 0) && forall j :: j in list ==> j < |fs.code|
    ensures Grows(fs, PatchToHere(fs, list), 0, 0)
  {
    LinksSmall(fs.jpc, list, |fs.code|);
  }

  // The lists of an expression lie in the code.
  lemma ListsIn(fs0: FS, fs: FS, e: Exp)
    requires Inv(fs0, fs, e)
    ensures WF(fs) && (forall j :: j in e.t || j in e.f ==> j < |fs.code|) && (e.k.VJmp? ==> e.k.pc < |fs.code|)
  {
  }

  lemma GoOk(fs0: FS, fs: FS, e: Exp, sense: bool)
    requires WF(fs0) && Inv(fs0, fs, e) && fs0.freereg + 1 < 250 && Roomy(fs, 4, 1)
    ensures Grows(fs, GoIf(fs, e, sense).fs, 4, 1)
  {
    hide Inv, WF, WFE, New, Ext, GoIf, JumpOnCond, PatchToHere, Directed, DischargeVars, BranchInv, CondJump;
    InvParts(fs0, fs, e);
    VarsOk(fs, e);
    DischargeVarsOf(fs0, fs, e);
    GoIfParts(fs, e, sense);
    var g := DischargeVars(fs, e);
    ListsIn(fs0, g.fs, g.e);
    if Known(g.e.k, sense) {
      HereOk(g.fs, Closed1(g.e, sense));
    } else {
      GoBranchOk(fs0, g.fs, g.e, sense);
    }
  }

  lemma GoBranchOk(fs0: FS, fs: FS, e: Exp, sense: bool)
    requires WF(fs0) && Inv(fs0, fs, e) && Discharged(e) && fs0.freereg + 1 < 250 && Roomy(fs, 3, 1)
    ensures var fs1 := if e.k.VJmp? then Directed(fs, e, !sense) else JumpOnCond(fs, e, !sense);
            var pc := if e.k.VJmp? then e.k.pc else fs1.Pc() - 1;
            && pc >= 0
            && Grows(fs, PatchToHere(fs1.(ok := fs1.ok && Linkable(Open1(e, sense), [pc])), Closed1(e, sense)), 3, 1)
  {
    hide WF, WFE, New, Ext, JumpOnCond, PatchToHere, Directed, CondJump, Linkable;
    ListsIn(fs0, fs, e);
    if e.k.VJmp? {
      DirectedWF(fs0, fs, e, !sense);
      DirectedSame(fs, e, !sense);
      var d := Directed(fs, e, !sense);
      LinksSmall(Open1(e, sense), [e.k.pc], |d.code|);
      HereOk(d, Closed1(e, sense));
      assert d.(ok := d.ok && true) == d;
    } else {
      JumpOk(fs0, fs, e, !sense);
      JumpOnCondInv(fs0, fs, e, !sense);
      var v := JumpOnCond(fs, e, !sense);
      BranchLists(fs0, v, e, v.Pc() - 1);
      LinksSmall(Open1(e, sense), [v.Pc() - 1], |v.code|);
      HereOk(v, Closed1(e, sense));
      assert v.(ok := v.ok && true) == v;
    }
  }

  lemma DirectedSame(fs: FS, e: Exp, cond: bool)
    ensures var d := Directed(fs, e, cond);
            d.ok == fs.ok && d.ks == fs.ks
  {
  }

  lemma BranchLists(fs0: FS, fs: FS, e: Exp, j0: nat)
    requires BranchInv(fs0, fs, e.t, e.f, j0)
    ensures WF(fs) && j0 < |fs.code| && forall j :: j in e.t || j in e.f ==> j < |fs.code|
  {
  }

  // ---- operators ---------------------------------------------------------------------------------------------------

  lemma NotOk(fs0: FS, fs: FS, e: Exp)
    requires WF(fs0) && Inv(fs0, fs, e) && fs0.freereg + 1 < 250 && Roomy(fs, 3, 1)
    ensures Grows(fs, CodeNot(fs, e).fs, 3, 1)
  {
    hide Inv, WF, WFE, New, Ext, DischargeVars, NegateValue, Directed;
    InvParts(fs0, fs, e);
    VarsOk(fs, e);
    DischargeVarsOf(fs0, fs, e);
    var g := DischargeVars(fs, e);
    NegateOk(fs0, g.fs, g.e);
  }

  lemma NegateOk(fs0: FS, fs: FS, e: Exp)
    requires WF(fs0) && Inv(fs0, fs, e) && Discharged(e) && fs0.freereg + 1 < 250 && Roomy(fs, 2, 1)
    ensures Grows(fs, NegateValue(fs, e).fs, 2, 1)
  {
    hide Inv, WF, WFE, New, Ext, NegateValue, Discharge2AnyReg, Emit, Directed;
    NegateParts(fs, e);
    if e.k.VJmp? {
      DirectedSame(fs, e, false);
      DirectedLength(fs0, fs, e);
    } else if e.k.VReloc? || e.k.VNonReloc? {
      var g := Discharge2AnyReg(fs, e);
      ToAnyOk(fs0, fs, e);
      ToRegInv(fs0, fs, e);
      FreeInv(fs0, g.fs, g.e);
      EmitOk(FreeExp(g.fs, g.e), Not(0, g.e.k.reg));
    }
  }

  lemma DirectedLength(fs0: FS, fs: FS, e: Exp)
    requires Inv(fs0, fs, e) && e.k.VJmp?
    ensures |Directed(fs, e, false).code| == |fs.code|
  {
    DirectedWF(fs0, fs, e, false);
  }

  lemma PrefixOk(fs0: FS, fs: FS, op: UnOpr, e: Exp)
    requires WF(fs0) && Inv(fs0, fs, e) && fs0.freereg + 1 < 250 && Roomy(fs, 6, 1)
    ensures Grows(fs, Prefix(fs, op, e).fs, 6, 1)
  {
    hide Inv, WF, WFE, New, Ext, Prefix, CodeNot, Exp2AnyReg, CodeUnary, Emit;
    if op.LNot? {
      NotOk(fs0, fs, e);
      PrefixNot(fs, e);
    } else {
      PrefixParts(fs, op, e);
      if !(op.Minus? && IsNumeral(e)) {
        var g := Exp2AnyReg(fs, e);
        AnyRegOk(fs0, fs, e);
        AnyRegInv(fs0, fs, e);
        CodeUnaryParts(g.fs, UnaryOf(op), g.e);
        FreeInv(fs0, g.fs, g.e);
        EmitOk(FreeExp(g.fs, g.e), LuaVM.Unary(UnaryOf(op), 0, g.e.k.reg));
      }
    }
  }

  lemma PrefixNot(fs: FS, e: Exp)
    ensures Prefix(fs, LNot, e) == CodeNot(fs, e)
  {
  }

  // A numeral on the left is left as it is.
  lemma InfixOk(fs0: FS, fs: FS, op: BinOpr, e: Exp)
    requires WF(fs0) && Inv(fs0, fs, e) && !IsLogic(op) && fs0.freereg + 1 < 250 && Roomy(fs, 5, 1)
    ensures var h := Infix(fs, op, e);
            Grows(fs, h.fs, if IsOperand(h.e) then 5 else 0, 1)
  {
    hide Inv, WF, Exp2RK;
    if !(op.BArith? && IsNumeral(e)) {
      RKOk(fs0, fs, e);
      RKInv(fs0, fs, e);
    }
  }

  lemma ArithOk(fs0: FS, fs1: FS, op: ArithOp, e1: Exp, fs2: FS, e2: Exp)
    requires WF(fs0) && Inv(fs0, fs1, e1) && (IsOperand(e1) || IsNumeral(e1)) && Inv(fs1, fs2, e2)
    requires fs1.freereg + 1 < 250 && fs0.freereg + 2 < 250 && Roomy(fs2, if IsOperand(e1) then 6 else 10, 2)
    ensures Grows(fs2, CodeArith(fs2, op, e1, e2).fs, if IsOperand(e1) then 6 else 10, 2)
  {
    hide Inv, WF, Exp2RK, Free2, Emit, Fold;
    InvParts(fs0, fs1, e1);
    if !Folds(fs2, op, e1, e2) {
      CodeArithParts(fs2, op, e1, e2);
      var g2 := Exp2RK(fs2, e2);
      RKOk(fs1, fs2, e2);
      RKInv(fs1, fs2, e2);
      SecondOk(fs0, fs1, e1, g2.fs, g2.e);
      OperandsInv(fs0, fs1, e1, fs2, e2);
      var g1 := Exp2RK(g2.fs, e1);
      Free2Inv(fs0, g1.fs, g1.e, g2.e);
      EmitOk(Free2(g1.fs, g1.e, g2.e), LuaVM.Arith(op, 0, Operand(g1.e), Operand(g2.e)));
    } else {
      assert CodeArith(fs2, op, e1, e2).fs == fs2;
    }
  }

  // The left operand comes after the right one if it is a numeral.
  lemma SecondOk(fs0: FS, fs1: FS, e1: Exp, fs: FS, e2: Exp)
    requires WF(fs0) && Inv(fs0, fs1, e1) && (IsOperand(e1) || IsNumeral(e1)) && Inv(fs1, fs, e2)
    requires fs0.freereg + 2 < 250 && Roomy(fs, if IsOperand(e1) then 0 else 4, 1)
    ensures Grows(fs, Exp2RK(fs, e1).fs, if IsOperand(e1) then 0 else 4, 1)
  {
    hide Exp2RK;
    if IsOperand(e1) {
      OperandStays(fs, e1);
    } else {
      NumeralInv(fs, e1);
      assert fs1.freereg == fs0.freereg && fs.freereg <= fs1.freereg + 1;
      hide WF, Inv;
      RKOk(fs, fs, e1);
    }
  }

  lemma CompOk(fs0: FS, fs1: FS, op: CompareOp, cond: bool, e1: Exp, fs2: FS, e2: Exp)
    requires WF(fs0) && Inv(fs0, fs1, e1) && IsOperand(e1) && Inv(fs1, fs2, e2)
    requires fs1.freereg + 1 < 250 && Roomy(fs2, 7, 1)
    ensures Grows(fs2, CodeComp(fs2, op, cond, e1, e2).fs, 7, 1)
  {
    hide Inv, WF, Exp2RK, CondJump, FreeExp, CodeComp;
    InvParts(fs0, fs1, e1);
    var g2 := Exp2RK(fs2, e2);
    RKOk(fs1, fs2, e2);
    RKInv(fs1, fs2, e2);
    LeftFirstInv(fs0, fs1, e1, g2.fs, g2.e);
    CodeCompParts(fs2, op, cond, e1, e2);
    Free2Inv(fs0, g2.fs, e1, g2.e);
    var v := FreeExp(FreeExp(g2.fs, g2.e), e1);
    FreeKeeps(g2.fs, g2.e);
    FreeKeeps(FreeExp(g2.fs, g2.e), e1);
    if !cond && op != Eq { CondJumpOk(v, Compare(op, true, Operand(g2.e), Operand(e1))); }
    else { CondJumpOk(v, Compare(op, cond, Operand(e1), Operand(g2.e))); }
  }

  lemma FreeKeeps(fs: FS, e: Exp)
    ensures var v := FreeExp(fs, e);
            v.ok == fs.ok && v.code == fs.code && v.ks == fs.ks
  {
  }

  lemma LogicOk(fs0: FS, fs1: FS, e1: Exp, fs2: FS, e2: Exp, op: BinOpr)
    requires WF(fs0) && IsLogic(op) && CondInv(fs0, fs1, Open1(e1, op == And)) && Inv(fs1, fs2, e2)
    requires Roomy(fs2, 1, 0)
    ensures Grows(fs2, Posfix(fs2, op, e1, e2).fs, 1, 0)
  {
    hide Inv, WF, DischargeVars, Linkable, Ext;
    CondParts(fs0, fs1, Open1(e1, op == And));
    InvParts(fs1, fs2, e2);
    VarsOk(fs2, e2);
    DischargeVarsOf(fs1, fs2, e2);
    var g := DischargeVars(fs2, e2);
    ListsIn(fs1, g.fs, g.e);
    CondLists(fs0, fs1, Open1(e1, op == And));
    ExtLonger(fs1, g.fs, g.e);
    if op == And { LinksSmall(g.e.f, e1.f, |g.fs.code|); } else { LinksSmall(g.e.t, e1.t, |g.fs.code|); }
  }

  lemma CondLists(fs0: FS, fs: FS, l: seq<nat>)
    requires CondInv(fs0, fs, l)
    ensures forall j :: j in l ==> j < |fs.code|
  {
  }

  lemma ExtLonger(fs0: FS, fs: FS, e: Exp)
    requires Inv(fs0, fs, e)
    ensures |fs0.code| <= |fs.code|
  {
  }

  // ---- expressions -------------------------------------------------------------------------------------------------

  // Twelve instructions and three constants for each node are enough.
  predicate RoomFor(fs: FS, x: Expr) {
    Roomy(fs, 12 * Nodes(x), 3 * Nodes(x)) && fs.freereg + Registers(x) < 250
  }

  predicate GrowsFor(fs: FS, r: FS, x: Expr) {
    Grows(fs, r, 12 * Nodes(x), 3 * Nodes(x))
  }

  lemma {:induction false} GenFits(fs0: FS, x: Expr, nup: nat)
    requires WF(fs0) && Scoped(x, fs0.nactvar, nup) && RoomFor(fs0, x)
    ensures GrowsFor(fs0, GenExpr(fs0, x).fs, x)
    decreases x, 1
  {
    match x
    case EParen(y) => GenParenFits(fs0, y, nup);
    case EUnary(op, y) => GenUnaryFits(fs0, op, y, nup);
    case EBinary(op, l, r) =>
      if IsLogic(op) { GenLogicFits(fs0, op, l, r, nup); } else { GenOtherFits(fs0, op, l, r, nup); }
    case _ =>
  }

  lemma {:induction false} GenParenFits(fs0: FS, y: Expr, nup: nat)
    requires WF(fs0) && Scoped(y, fs0.nactvar, nup) && RoomFor(fs0, EParen(y))
    ensures GrowsFor(fs0, GenExpr(fs0, EParen(y)).fs, EParen(y))
    decreases EParen(y), 0
  {
    hide WF, Inv, DischargeVars;
    GenFits(fs0, y, nup);
    GenInv(fs0, y, nup);
    var g := GenExpr(fs0, y);
    InvParts(fs0, g.fs, g.e);
    VarsOk(g.fs, g.e);
  }

  lemma {:induction false} GenUnaryFits(fs0: FS, op: UnOpr, y: Expr, nup: nat)
    requires WF(fs0) && Scoped(y, fs0.nactvar, nup) && RoomFor(fs0, EUnary(op, y))
    ensures GrowsFor(fs0, GenExpr(fs0, EUnary(op, y)).fs, EUnary(op, y))
    decreases EUnary(op, y), 0
  {
    hide WF, Inv, Prefix;
    OneRegister(y);
    GenFits(fs0, y, nup);
    GenInv(fs0, y, nup);
    var g := GenExpr(fs0, y);
    PrefixOk(fs0, g.fs, op, g.e);
  }

  // The generator of a binary operator.
  lemma GenSteps(fs: FS, op: BinOpr, l: Expr, r: Expr)
    ensures var g1 := GenExpr(fs, l);
            var h1 := Infix(g1.fs, op, g1.e);
            var g2 := GenExpr(h1.fs, r);
            GenExpr(fs, EBinary(op, l, r)) == Posfix(g2.fs, op, h1.e, g2.e)
  {
    hide Infix, Posfix;
  }

  lemma {:induction false} GenLogicFits(fs0: FS, op: BinOpr, l: Expr, r: Expr, nup: nat)
    requires WF(fs0) && IsLogic(op) && Scoped(EBinary(op, l, r), fs0.nactvar, nup) && RoomFor(fs0, EBinary(op, l, r))
    ensures GrowsFor(fs0, GenExpr(fs0, EBinary(op, l, r)).fs, EBinary(op, l, r))
    decreases EBinary(op, l, r), 0
  {
    hide WF, Inv, Infix, Posfix, GoIf, CondInv, Ext;
    GenSteps(fs0, op, l, r);
    OneRegister(l);
    GenFits(fs0, l, nup);
    GenInv(fs0, l, nup);
    var g1 := GenExpr(fs0, l);
    GoOk(fs0, g1.fs, g1.e, op == And);
    InfixLogic(g1.fs, op, g1.e);
    var h1 := Infix(g1.fs, op, g1.e);
    GoInv(fs0, g1.fs, g1.e, op == And);
    CondParts(fs0, h1.fs, Open1(h1.e, op == And));
    CondRegister(fs0, h1.fs, Open1(h1.e, op == And));
    GenFits(h1.fs, r, nup);
    GenInv(h1.fs, r, nup);
    var g2 := GenExpr(h1.fs, r);
    LogicOk(fs0, h1.fs, h1.e, g2.fs, g2.e, op);
  }

  lemma CondRegister(fs0: FS, fs: FS, l: seq<nat>)
    requires CondInv(fs0, fs, l)
    ensures fs.freereg == fs0.freereg && fs.nactvar == fs0.nactvar
  {
  }

  lemma OtherOk(fs0: FS, fs1: FS, e1: Exp, fs2: FS, e2: Exp, op: BinOpr)
    requires WF(fs0) && !IsLogic(op) && Inv(fs0, fs1, e1) && (IsOperand(e1) || (op.BArith? && IsNumeral(e1)))
    requires Inv(fs1, fs2, e2) && fs1.freereg + 1 < 250 && fs0.freereg + 2 < 250
    requires Roomy(fs2, if IsOperand(e1) then 7 else 10, 2)
    ensures Grows(fs2, Posfix(fs2, op, e1, e2).fs, if IsOperand(e1) then 7 else 10, 2)
  {
    hide WF, Inv, CodeArith, CodeComp, Posfix;
    PosfixOther(fs2, op, e1, e2);
    if op.BArith? { ArithOk(fs0, fs1, op.op, e1, fs2, e2); }
    else { CompOk(fs0, fs1, CompareOpOf(op), SenseOf(op), e1, fs2, e2); }
  }

  lemma ScopedParts(op: BinOpr, l: Expr, r: Expr, n: nat, nup: nat)
    requires Scoped(EBinary(op, l, r), n, nup)
    ensures Scoped(l, n, nup) && Scoped(r, n, nup)
  {
  }

  lemma {:induction false} GenOtherFits(fs0: FS, op: BinOpr, l: Expr, r: Expr, nup: nat)
    requires WF(fs0) && !IsLogic(op) && Scoped(EBinary(op, l, r), fs0.nactvar, nup) && RoomFor(fs0, EBinary(op, l, r))
    ensures GrowsFor(fs0, GenExpr(fs0, EBinary(op, l, r)).fs, EBinary(op, l, r))
    decreases EBinary(op, l, r), 0
  {
    hide WF, Inv, Infix, Posfix, IsNumeral, IsOperand, Scoped;
    ScopedParts(op, l, r, fs0.nactvar, nup);
    GenSteps(fs0, op, l, r);
    OneRegister(l);
    OneRegister(r);
    GenFits(fs0, l, nup);
    GenInv(fs0, l, nup);
    var g1 := GenExpr(fs0, l);
    InfixOk(fs0, g1.fs, op, g1.e);
    InfixOther(fs0, g1.fs, op, g1.e);
    var h1 := Infix(g1.fs, op, g1.e);
    OperandRegister(fs0, h1.fs, h1.e);
    GenFits(h1.fs, r, nup);
    GenInv(h1.fs, r, nup);
    var g2 := GenExpr(h1.fs, r);
    OtherOk(fs0, h1.fs, h1.e, g2.fs, g2.e, op);
  }

  lemma OperandRegister(fs0: FS, fs: FS, e: Exp)
    requires Inv(fs0, fs, e)
    ensures WF(fs) && fs.freereg <= fs0.freereg + 1 && fs.nactvar == fs0.nactvar
  {
  }

  // ---- statements --------------------------------------------------------------------------------------------------

  /** A statement `local x = expr` is accepted whatever the rest of the function, as long as there is room for it. */
  lemma CompileFits(fs0: FS, x: Expr, nup: nat)
    requires WF(fs0) && Scoped(x, fs0.nactvar, nup) && fs0.ok
    requires |fs0.code| + 12 * Nodes(x) + 5 <= 131071 && |fs0.ks| + 3 * Nodes(x) + 1 <= 262143
    requires fs0.freereg + Registers(x) < 250
    ensures Grows(fs0, Compile(fs0, x), 12 * Nodes(x) + 5, 3 * Nodes(x) + 1)
  {
    hide WF, Inv, Exp2NextReg, Nodes, Registers, GenExpr, Scoped;
    OneRegister(x);
    GenFits(fs0, x, nup);
    GenInv(fs0, x, nup);
    var g := GenExpr(fs0, x);
    NextRegOk(fs0, g.fs, g.e);
  }

  /** The same for the assignment to a local variable. */
  lemma AssignFits(fs0: FS, reg: nat, x: Expr, nup: nat)
    requires WF(fs0) && Scoped(x, fs0.nactvar, nup) && fs0.ok && reg < fs0.nactvar
    requires |fs0.code| + 12 * Nodes(x) + 5 <= 131071 && |fs0.ks| + 3 * Nodes(x) + 1 <= 262143
    requires fs0.freereg + Registers(x) < 250
    ensures Grows(fs0, CompileAssign(fs0, reg, x), 12 * Nodes(x) + 5, 3 * Nodes(x) + 1)
  {
    hide WF, Inv, FreeExp, Exp2Reg, WFE, New, Ext, DischargeVars, Nodes, Registers, GenExpr, Scoped;
    OneRegister(x);
    GenFits(fs0, x, nup);
    GenInv(fs0, x, nup);
    var g := GenExpr(fs0, x);
    var v := FreeExp(g.fs, g.e);
    FreeInv(fs0, g.fs, g.e);
    FreeKeeps(g.fs, g.e);
    Exp2RegDischarged(v, g.e, reg);
    DischargeVarsKeeps(fs0, v, g.e);
    VarsOk(v, g.e);
    var h := DischargeVars(v, g.e);
    ActiveSmall(fs0);
    RegOk(h.fs, h.e, reg);
  }

  lemma ActiveSmall(fs0: FS)
    requires WF(fs0)
    ensures fs0.nactvar < MAXSTACK
  {
  }

  /** The first statement of a function: an expression of 10000 nodes is accepted if its registers fit the frame. */
  lemma FirstFits(ops: Ops, nparams: nat, x: Expr, nup: nat, i: Instr)
    requires Scoped(x, nparams, nup) && Nodes(x) <= 10000 && nparams + Registers(x) < 250
    ensures Emit(Compile(InitState(ops, nparams), x), i).ok
  {
    hide WF, Compile, Start;
    var fs0 := InitState(ops, nparams);
    OneRegister(x);
    InitWF(ops, nparams, seq(MAXSTACK, _ => Nil));
    CompileFits(fs0, x, nup);
    var r := Compile(fs0, x);
    assert WF(r) by { CompileWF(fs0, x, nup); }
    EmitOk(r, i);
  }

  lemma CompileWF(fs0: FS, x: Expr, nup: nat)
    requires WF(fs0) && Scoped(x, fs0.nactvar, nup) && Compile(fs0, x).ok
    ensures WF(Compile(fs0, x))
  {
    hide WF, Inv, Exp2NextReg;
    GenInv(fs0, x, nup);
    var g := GenExpr(fs0, x);
    NextRegInv(fs0, g.fs, g.e);
    var h := Exp2NextReg(g.fs, g.e);
    NextRegState(fs0, h.fs, h.e);
  }
}
