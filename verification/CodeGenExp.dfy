/** The operations that put an expression in a register, a constant or a RK operand preserve its meaning. */
module CodeGenExp {
  import opened LuaVM
  import opened CodeGen
  import opened CodeRun
  import opened CodeGenState
  import opened CodeGenSteps
  import opened CodeGenReg
  import opened CodeGenLists

  // ---- a value whose register is still open ------------------------------------------------------------

  function Open(fs: FS, e: Exp): Exp {
    e.(k := VReloc(|fs.code|))
  }

  lemma SuspendWF(fs0: FS, fs: FS, e: Exp, i: Instr)
    requires WF(fs) && WFE(fs, e) && !Suspended(e) && Ext(fs0, fs) && New(fs0, e)
    requires Loads(i) && !i.LoadBool?
    ensures var r := Emit(fs, i);
            && WF(r) && WFE(r, Open(fs, e)) && Ext(fs0, r) && New(fs0, Open(fs, e)) && r.freereg == fs.freereg
            && r.ks == fs.ks
  {
    EmitWF(fs, i);
    DischargeWF(fs);
    ExtTrans(fs0, fs, Emit(fs, i));
    OpenWF(fs, e, i);
  }

  lemma OpenWF(fs: FS, e: Exp, i: Instr)
    requires WF(fs) && WFE(fs, e) && Loads(i) && !i.LoadBool?
    requires var r := Emit(fs, i); WF(r) && Ext(fs, r)
    ensures WFE(Emit(fs, i), Open(fs, e))
  {
    DischargeWF(fs);
  }

  lemma SuspendDelivers(env: Env, fs: FS, e: Exp, i: Instr, n: nat, x: nat, s1: Regs, r: Result, o: Out)
    requires WF(fs) && WFE(fs, e) && Loads(i) && !i.LoadBool?
    requires o.Fall? ==> Agree(s1, o.s, n, x) && Computed(env, i, o.s) == OfResult(r)
    requires !o.Fall? ==> Delivers(env, fs, e, n, x, s1, r, o)
    ensures Delivers(env, Emit(fs, i), Open(fs, e), n, x, s1, r, o)
  {
    EmitWF(fs, i);
    DischargeWF(fs);
    assert Emit(fs, i).code[|fs.code|] == i;
  }

  // ---- variables -------------------------------------------------------------------------------------

  lemma DischargeVarsWF(fs0: FS, fs: FS, e: Exp)
    requires Inv(fs0, fs, e) && fs.nactvar <= fs0.freereg
    ensures var g := DischargeVars(fs, e);
            && Inv(fs0, g.fs, g.e) && Discharged(g.e) && g.fs.freereg == fs.freereg
            && g.e.t == e.t && g.e.f == e.f && (g.e.k.VK? ==> e.k.VK?)
  {
    if e.k.VUpval? { SuspendWF(fs0, fs, e, GetUpval(0, e.k.u)); }
  }

  lemma DischargeVarsMeans(env: Env, fs0: FS, fs: FS, e: Exp, r: Result, at: nat, s: Regs)
    requires WF(fs) && WFE(fs, e)
    requires Means(env, fs0, fs, e, MAXSTACK, r, at, s)
    ensures var g := DischargeVars(fs, e);
            Means(env, fs0, g.fs, g.e, MAXSTACK, r, at, s)
  {
    if e.k.VUpval? {
      var i := GetUpval(0, e.k.u);
      EmitCore(env, fs, i, Open(fs, e), at, s);
      var o0 := Arrive(env, fs0, at, s);
      if o0.Fall? { SuspendDelivers(env, fs, e, i, fs0.freereg, MAXSTACK, o0.s, r, Arrive(env, fs, at, s)); }
      assert DischargeVars(fs, e) == Gen(Emit(fs, i), Open(fs, e)) by { DischargeWF(fs); }
    }
  }

  // ---- registers -------------------------------------------------------------------------------------

  // From the value in `reg` and the exits of `e` to the value in `reg`.
  lemma ClosingDelivers(env: Env, fs: FS, fs': FS, e: Exp, reg: nat, n: nat, s1: Regs, r: Result, o: Out)
    requires WFE(fs, e) && (e.k == VNonReloc(reg) || e.k.VJmp?) && reg < MAXSTACK
    requires Delivers(env, fs, e, n, reg, s1, r, o)
    ensures Delivers(env, fs', Exp(VNonReloc(reg), [], []), n, reg, s1, r, Closing(env, fs, e, reg, o))
  {
  }

  lemma LandsDelivers(env: Env, fs: FS, fs': FS, e: Exp, reg: nat, n: nat, s1: Regs, r: Result, o: Out, o': Out)
    requires WFE(fs, e) && Ext(fs, fs') && reg < MAXSTACK
    requires Lands(o, if o.Fall? then Described(env, fs, e, o.s) else Bad, reg, o')
    requires Delivers(env, fs, e, n, MAXSTACK, s1, r, o)
    ensures Delivers(env, fs', e.(k := VNonReloc(reg)), n, reg, s1, r, o')
  {
  }

  lemma ClosingMeans(env: Env, fs0: FS, fs: FS, fs': FS, e: Exp, reg: nat, r: Result, at: nat, s: Regs)
    requires WFE(fs, e) && (e.k == VNonReloc(reg) || e.k.VJmp?) && reg < MAXSTACK
    requires Means(env, fs0, fs, e, reg, r, at, s)
    requires Arrive(env, fs0, at, s) != Wrong ==>
               Arrive(env, fs', at, s) == Closing(env, fs, e, reg, ArriveExp(env, fs, e, at, s))
    requires forall j :: j in e.t || j in e.f ==> !(Arrive(env, fs0, at, s).Exit? && Arrive(env, fs0, at, s).j == j)
    ensures Means(env, fs0, fs', Exp(VNonReloc(reg), [], []), reg, r, at, s)
  {
    var o0 := Arrive(env, fs0, at, s);
    if o0.Fall? { ClosingDelivers(env, fs, fs', e, reg, fs0.freereg, o0.s, r, ArriveExp(env, fs, e, at, s)); }
  }

  // A run that does not arrive at fs0 leaves through an older jump than those of `e`.
  lemma OldExit(env: Env, fs0: FS, e: Exp, at: nat, s: Regs)
    requires WF(fs0) && New(fs0, e)
    ensures forall j :: j in e.t || j in e.f ==> !(Arrive(env, fs0, at, s).Exit? && Arrive(env, fs0, at, s).j == j)
  {
    if Arrive(env, fs0, at, s).Exit? { ExitPending(env, fs0.code, fs0.pend, at, s); }
  }

  lemma ArriveFine(env: Env, fs0: FS, fs: FS, e: Exp, x: nat, r: Result, at: nat, s: Regs)
    requires Means(env, fs0, fs, e, x, r, at, s) && Arrive(env, fs0, at, s) != Wrong
    ensures ArriveExp(env, fs, e, at, s) != Wrong && TestFine(env, fs, e, ArriveExp(env, fs, e, at, s))
  {
  }

  lemma MeansWeaken(env: Env, fs0: FS, fs: FS, e: Exp, x: nat, r: Result, at: nat, s: Regs)
    requires Means(env, fs0, fs, e, MAXSTACK, r, at, s)
    ensures Means(env, fs0, fs, e, x, r, at, s)
  {
  }

  lemma Exp2RegJmp(env: Env, fs0: FS, fs: FS, e: Exp, reg: nat, r: Result, at: nat, s: Regs)
    requires WF(fs0) && New(fs0, e)
    requires WF(fs) && WFE(fs, e) && e.k.VJmp? && reg < MAXSTACK
    requires Means(env, fs0, fs, e, MAXSTACK, r, at, s)
    ensures Means(env, fs0, CloseLists(fs, e, reg), Exp(VNonReloc(reg), [], []), reg, r, at, s)
  {
    if Arrive(env, fs0, at, s) != Wrong {
      ArriveFine(env, fs0, fs, e, MAXSTACK, r, at, s);
      CloseJmpRun(env, fs, e, reg, at, s);
    }
    OldExit(env, fs0, e, at, s);
    MeansWeaken(env, fs0, fs, e, reg, r, at, s);
    ClosingMeans(env, fs0, fs, CloseLists(fs, e, reg), e, reg, r, at, s);
  }

  lemma Exp2RegValue(env: Env, fs0: FS, fs: FS, e: Exp, reg: nat, r: Result, at: nat, s: Regs)
    requires WF(fs0) && New(fs0, e)
    requires WF(fs) && WFE(fs, e) && e.k == VNonReloc(reg) && reg < MAXSTACK
    requires Means(env, fs0, fs, e, reg, r, at, s)
    ensures Means(env, fs0, CloseLists(fs, e, reg), Exp(VNonReloc(reg), [], []), reg, r, at, s)
  {
    if Arrive(env, fs0, at, s) != Wrong {
      ArriveFine(env, fs0, fs, e, reg, r, at, s);
      CloseValueRun(env, fs, e, reg, at, s);
    }
    OldExit(env, fs0, e, at, s);
    ClosingMeans(env, fs0, fs, CloseLists(fs, e, reg), e, reg, r, at, s);
  }

  lemma Discharge2RegMeans(env: Env, fs0: FS, fs: FS, e: Exp, reg: nat, r: Result, at: nat, s: Regs)
    requires WF(fs) && WFE(fs, e) && Discharged(e) && !e.k.VJmp? && Ext(fs0, fs) && New(fs0, e) && reg < MAXSTACK
    requires Start(fs0, at, s) && Discharge2Reg(fs, e, reg).fs.ks <= env.k
    requires Means(env, fs0, fs, e, MAXSTACK, r, at, s)
    ensures var h := Discharge2Reg(fs, e, reg);
            Means(env, fs0, h.fs, h.e, reg, r, at, s)
  {
    var h := Discharge2Reg(fs, e, reg);
    Discharge2RegWF(fs, e, reg);
    var o0 := Arrive(env, fs0, at, s);
    if o0 != Wrong {
      Discharge2RegRun(env, fs0, fs, e, reg, at, s);
      if o0.Fall? {
        LandsDelivers(env, fs, h.fs, e, reg, fs0.freereg, o0.s, r, ArriveExp(env, fs, e, at, s),
          Arrive(env, h.fs, at, s));
      }
    }
  }

  /** exp2reg: afterwards the run falls through with the value of the expression in `reg`. */
  lemma Exp2RegMeans(env: Env, fs0: FS, fs: FS, e: Exp, reg: nat, r: Result, at: nat, s: Regs)
    requires WF(fs0) && WF(fs) && WFE(fs, e) && Discharged(e) && Ext(fs0, fs) && New(fs0, e) && reg < MAXSTACK
    requires Start(fs0, at, s) && Exp2Reg(fs, e, reg).fs.ks <= env.k
    requires Means(env, fs0, fs, e, MAXSTACK, r, at, s)
    ensures var g := Exp2Reg(fs, e, reg);
            Means(env, fs0, g.fs, g.e, reg, r, at, s)
  {
    var h := Discharge2Reg(fs, e, reg);
    if e.k.VJmp? {
      Exp2RegJmp(env, fs0, fs, e, reg, r, at, s);
    } else {
      Discharge2RegWF(fs, e, reg);
      CloseListsRegs(h.fs, h.e, reg);
      Discharge2RegMeans(env, fs0, fs, e, reg, r, at, s);
      Exp2RegValue(env, fs0, h.fs, h.e, reg, r, at, s);
    }
  }

  lemma Exp2RegWF(fs0: FS, fs: FS, e: Exp, reg: nat)
    requires WF(fs0) && WF(fs) && WFE(fs, e) && Discharged(e) && Ext(fs0, fs) && New(fs0, e) && reg < MAXSTACK
    ensures var g := Exp2Reg(fs, e, reg);
            && WF(g.fs) && Ext(fs0, g.fs) && WFE(g.fs, g.e) && New(fs0, g.e) && g.e == Exp(VNonReloc(reg), [], [])
            && g.fs.freereg == fs.freereg && g.fs.maxstack == fs.maxstack
  {
    var h := Discharge2Reg(fs, e, reg);
    Discharge2RegWF(fs, e, reg);
    ExtTrans(fs0, fs, h.fs);
    CloseListsWF(fs0, h.fs, h.e, reg);
    CloseListsRegs(h.fs, h.e, reg);
  }

  // Two states that differ in register bookkeeping only.
  ghost predicate SameCode(a: FS, b: FS) {
    b == a.(freereg := b.freereg, maxstack := b.maxstack, ok := b.ok)
  }

  lemma SameCodeKeeps(fs0: FS, a: FS, b: FS, e: Exp)
    requires SameCode(a, b) && Ext(fs0, a) && WFE(a, e)
    ensures Ext(fs0, b) && WFE(b, e)
    ensures WF(a) && b.nactvar <= b.freereg <= b.maxstack < MAXSTACK ==> WF(b)
  {
  }

  lemma SameCodeMeans(env: Env, fs0: FS, a: FS, b: FS, e: Exp, x: nat, r: Result, at: nat, s: Regs)
    requires SameCode(a, b) && Means(env, fs0, a, e, x, r, at, s)
    ensures Means(env, fs0, b, e, x, r, at, s)
  {
    assert ArriveExp(env, b, e, at, s) == ArriveExp(env, a, e, at, s);
  }

  // The state in which exp2nextreg calls exp2reg: the register of `e` is free and one is reserved.
  function Room(fs: FS, e: Exp): FS {
    Reserve(FreeExp(fs, e), 1)
  }

  lemma RoomWF(fs0: FS, fs: FS, e: Exp)
    requires WF(fs0) && Inv(fs0, fs, e) && Room(fs, e).ok
    ensures var r := Room(fs, e);
            && WF(r) && WFE(r, e) && Ext(fs0, r) && SameCode(fs, r)
            && r.freereg == fs0.freereg + 1 && FreeExp(fs, e).freereg == fs0.freereg < MAXSTACK
  {
    SameCodeKeeps(fs0, fs, Room(fs, e), e);
  }

  /** exp2nextreg: the value goes to the first free register, which is then in use. */
  lemma NextRegInv(fs0: FS, fs: FS, e: Exp)
    requires WF(fs0) && Inv(fs0, fs, e) && Exp2NextReg(fs, e).fs.ok
    ensures var g := Exp2NextReg(fs, e);
            Inv(fs0, g.fs, g.e) && g.e == Exp(VNonReloc(fs0.freereg), [], []) && fs0.freereg < MAXSTACK
  {
    DischargeVarsWF(fs0, fs, e);
    var g := DischargeVars(fs, e);
    assert Room(g.fs, g.e).ok;
    RoomWF(fs0, g.fs, g.e);
    Exp2RegWF(fs0, Room(g.fs, g.e), g.e, fs0.freereg);
  }

  lemma NextRegMeans(env: Env, fs0: FS, fs: FS, e: Exp, r: Result, at: nat, s: Regs)
    requires WF(fs0) && Inv(fs0, fs, e) && Exp2NextReg(fs, e).fs.ok && Exp2NextReg(fs, e).fs.ks <= env.k
    requires Start(fs0, at, s) && Means(env, fs0, fs, e, MAXSTACK, r, at, s)
    ensures var g := Exp2NextReg(fs, e);
            Means(env, fs0, g.fs, g.e, MAXSTACK, r, at, s)
  {
    DischargeVarsWF(fs0, fs, e);
    DischargeVarsMeans(env, fs0, fs, e, r, at, s);
    var g := DischargeVars(fs, e);
    assert Room(g.fs, g.e).ok;
    RoomWF(fs0, g.fs, g.e);
    SameCodeMeans(env, fs0, g.fs, Room(g.fs, g.e), g.e, MAXSTACK, r, at, s);
    Exp2RegMeans(env, fs0, Room(g.fs, g.e), g.e, fs0.freereg, r, at, s);
    MeansAbove(env, fs0, Exp2NextReg(fs, e).fs, Exp2NextReg(fs, e).e, fs0.freereg, r, at, s);
  }

  // A register that was not in use does not count as changed.
  lemma MeansAbove(env: Env, fs0: FS, fs: FS, e: Exp, x: nat, r: Result, at: nat, s: Regs)
    requires fs0.freereg <= x && Means(env, fs0, fs, e, x, r, at, s)
    ensures Means(env, fs0, fs, e, MAXSTACK, r, at, s)
  {
  }

  /** exp2anyreg: the value is in some register, with no jumps left. */
  lemma AnyRegInv(fs0: FS, fs: FS, e: Exp)
    requires WF(fs0) && Inv(fs0, fs, e) && Exp2AnyReg(fs, e).fs.ok
    ensures var g := Exp2AnyReg(fs, e);
            Inv(fs0, g.fs, g.e) && g.e.k.VNonReloc? && !HasJumps(g.e)
  {
    DischargeVarsWF(fs0, fs, e);
    var g := DischargeVars(fs, e);
    if g.e.k.VNonReloc? && HasJumps(g.e) && g.e.k.reg >= fs.nactvar {
      Exp2RegWF(fs0, g.fs, g.e, g.e.k.reg);
    } else if !g.e.k.VNonReloc? || HasJumps(g.e) {
      NextRegInv(fs0, g.fs, g.e);
    }
  }

  lemma AnyRegMeans(env: Env, fs0: FS, fs: FS, e: Exp, r: Result, at: nat, s: Regs)
    requires WF(fs0) && Inv(fs0, fs, e) && Exp2AnyReg(fs, e).fs.ok && Exp2AnyReg(fs, e).fs.ks <= env.k
    requires Start(fs0, at, s) && Means(env, fs0, fs, e, MAXSTACK, r, at, s)
    ensures var g := Exp2AnyReg(fs, e);
            Means(env, fs0, g.fs, g.e, MAXSTACK, r, at, s)
  {
    DischargeVarsWF(fs0, fs, e);
    DischargeVarsMeans(env, fs0, fs, e, r, at, s);
    var g := DischargeVars(fs, e);
    if g.e.k.VNonReloc? && HasJumps(g.e) && g.e.k.reg >= fs.nactvar {
      Exp2RegMeans(env, fs0, g.fs, g.e, g.e.k.reg, r, at, s);
      var h := Exp2Reg(g.fs, g.e, g.e.k.reg);
      MeansAbove(env, fs0, h.fs, h.e, g.e.k.reg, r, at, s);
    } else if !g.e.k.VNonReloc? || HasJumps(g.e) {
      NextRegMeans(env, fs0, g.fs, g.e, r, at, s);
    }
  }

  lemma Exp2ValInv(fs0: FS, fs: FS, e: Exp)
    requires WF(fs0) && Inv(fs0, fs, e) && Exp2Val(fs, e).fs.ok
    ensures var g := Exp2Val(fs, e);
            Inv(fs0, g.fs, g.e) && Discharged(g.e) && !HasJumps(g.e)
  {
    if HasJumps(e) { AnyRegInv(fs0, fs, e); } else { DischargeVarsWF(fs0, fs, e); }
  }

  lemma Exp2ValMeans(env: Env, fs0: FS, fs: FS, e: Exp, r: Result, at: nat, s: Regs)
    requires WF(fs0) && Inv(fs0, fs, e) && Exp2Val(fs, e).fs.ok && Exp2Val(fs, e).fs.ks <= env.k
    requires Start(fs0, at, s) && Means(env, fs0, fs, e, MAXSTACK, r, at, s)
    ensures var g := Exp2Val(fs, e);
            Means(env, fs0, g.fs, g.e, MAXSTACK, r, at, s)
  {
    if HasJumps(e) { AnyRegMeans(env, fs0, fs, e, r, at, s); } else { DischargeVarsMeans(env, fs0, fs, e, r, at, s); }
  }

  // An operand: a register, or a constant that fits into an instruction; no code is left to run.
  predicate IsOperand(e: Exp) {
    !HasJumps(e) && (e.k.VNonReloc? || (e.k.VK? && e.k.k <= MAXINDEXRK))
  }

  predicate IsConst(k: Kind) {
    k.VKNum? || k.VTrue? || k.VFalse? || k.VNil?
  }

  lemma ConstInv(fs0: FS, fs: FS, e: Exp)
    requires Inv(fs0, fs, e) && IsConst(e.k) && !HasJumps(e) && |fs.ks| <= MAXINDEXRK
    ensures var (fs1, i) := AddK(fs, ConstOf(e.k));
            Inv(fs0, fs1, e.(k := VK(i))) && i <= MAXINDEXRK
  {
    AddKIndex(fs, ConstOf(e.k));
    FindKIndex(fs.ks, ConstOf(e.k));
  }

  lemma ConstMeans(env: Env, fs0: FS, fs: FS, e: Exp, r: Result, at: nat, s: Regs)
    requires IsConst(e.k) && !HasJumps(e) && Means(env, fs0, fs, e, MAXSTACK, r, at, s)
    requires AddK(fs, ConstOf(e.k)).0.ks <= env.k
    ensures var (fs1, i) := AddK(fs, ConstOf(e.k));
            Means(env, fs0, fs1, e.(k := VK(i)), MAXSTACK, r, at, s)
  {
    AddKIndex(fs, ConstOf(e.k));
    var (fs1, i) := AddK(fs, ConstOf(e.k));
    assert ArriveExp(env, fs1, e.(k := VK(i)), at, s) == ArriveExp(env, fs, e, at, s);
  }

  /** exp2RK: the value is an operand. */
  lemma RKInv(fs0: FS, fs: FS, e: Exp)
    requires WF(fs0) && Inv(fs0, fs, e) && Exp2RK(fs, e).fs.ok
    ensures var g := Exp2RK(fs, e);
            Inv(fs0, g.fs, g.e) && IsOperand(g.e)
  {
    Exp2ValInv(fs0, fs, e);
    var g := Exp2Val(fs, e);
    if IsConst(g.e.k) && |g.fs.ks| <= MAXINDEXRK {
      ConstInv(fs0, g.fs, g.e);
    } else if !(g.e.k.VK? && g.e.k.k <= MAXINDEXRK) {
      AnyRegInv(fs0, g.fs, g.e);
    }
  }

  lemma RKVal(fs: FS, e: Exp)
    ensures Later(Exp2Val(fs, e).fs, Exp2RK(fs, e).fs)
  {
    hide Exp2Val, Exp2AnyReg;
  }

  lemma RKMeans(env: Env, fs0: FS, fs: FS, e: Exp, r: Result, at: nat, s: Regs)
    requires WF(fs0) && Inv(fs0, fs, e) && Exp2RK(fs, e).fs.ok && Exp2RK(fs, e).fs.ks <= env.k
    requires Start(fs0, at, s) && Means(env, fs0, fs, e, MAXSTACK, r, at, s)
    ensures var g := Exp2RK(fs, e);
            Means(env, fs0, g.fs, g.e, MAXSTACK, r, at, s)
  {
    hide Exp2Val, Exp2AnyReg, AddK, Means, Inv, WF, Start;
    RKVal(fs, e);
    Exp2ValInv(fs0, fs, e);
    Exp2ValMeans(env, fs0, fs, e, r, at, s);
    var g := Exp2Val(fs, e);
    if IsConst(g.e.k) && |g.fs.ks| <= MAXINDEXRK {
      ConstMeans(env, fs0, g.fs, g.e, r, at, s);
    } else if !(g.e.k.VK? && g.e.k.k <= MAXINDEXRK) {
      AnyRegMeans(env, fs0, g.fs, g.e, r, at, s);
    }
  }
}
