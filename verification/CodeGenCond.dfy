/** Conditional jumps, `and`, `or` and `not` (jumponcond, luaK_goiftrue, luaK_goiffalse, codenot) preserve
    meaning. */
module CodeGenCond {
  import opened Basics
  import opened LuaVM
  import opened CodeGen
  import opened CodeRun
  import opened CodeGenState
  import opened CodeGenSteps
  import opened CodeGenReg
  import opened CodeGenLists
  import opened CodeGenExp

  // ---- one conditional jump ----------------------------------------------------------------------------

  /** After a conditional jump j0 on the value of an expression with exits t and f: falling through means
      that the value is false exactly if `cond`; the jump is taken otherwise and carries the value. */
  ghost predicate Branches(env: Env, code: seq<Instr>, t: seq<nat>, f: seq<nat>, j0: nat, cond: bool,
                           n: nat, s1: Regs, r: Result, o: Out) {
    match o
    case Fall(u) => Agree(s1, u, n, MAXSTACK) && r.Val? && Falsy(r.v) == cond
    case Exit(j, u) =>
      && Agree(s1, u, n, MAXSTACK) && r.Val?
      && ((j == j0 && Falsy(r.v) != cond && Carries(code, j, u, cond) == Got(r.v)) ||
          (j in t && !Falsy(r.v) && Carries(code, j, u, true) == Got(r.v)) ||
          (j in f && Falsy(r.v) && Carries(code, j, u, false) == Got(r.v)))
    case Fault => r.Err?
    case Wrong => false
  }

  ghost predicate BranchMeans(env: Env, fs0: FS, fs: FS, t: seq<nat>, f: seq<nat>, j0: nat, cond: bool, r: Result,
    at: nat, s: Regs) {
    var o := Arrive(env, fs0, at, s);
    match o
    case Fall(s1) => Branches(env, fs.code, t, f, j0, cond, fs0.freereg, s1, r, Arrive(env, fs, at, s))
    case Wrong => true
    case _ => Arrive(env, fs, at, s) == o
  }

  // The jumps of the list are pending, controlled, and were made after fs0.
  ghost predicate OwnList(fs0: FS, fs: FS, l: seq<nat>) {
    NoDup(l) && forall j :: j in l ==> Controlled(fs, j) && |fs0.code| <= j
  }

  ghost predicate BranchInv(fs0: FS, fs: FS, t: seq<nat>, f: seq<nat>, j0: nat) {
    && WF(fs) && Ext(fs0, fs) && fs.freereg == fs0.freereg && fs.jpc == []
    && OwnList(fs0, fs, t) && OwnList(fs0, fs, f) && (forall j :: j in t ==> j !in f)
    && Controlled(fs, j0) && |fs0.code| <= j0 && j0 !in t && j0 !in f
  }

  // The test that jumponcond makes of a value in a register.
  lemma TestSetBranches(env: Env, fs: FS, e: Exp, i: Instr, cond: bool, n: nat, s1: Regs, r: Result, o: Out)
    requires WF(fs) && WFE(fs, e) && e.k.VNonReloc? && i == TestSet(NO_REG, e.k.reg, cond)
    requires Delivers(env, fs, e, n, MAXSTACK, s1, r, o)
    ensures Branches(env, CondJump(fs, i).code, e.t, e.f, |fs.code| + 1, cond, n, s1, r,
      ThenJump(env, i, |fs.code| + 1, o))
  {
    CondJumpWF(fs, i);
    assert CondJump(fs, i).code[|fs.code|] == i by { DischargeWF(fs); }
  }

  lemma CondJumpInv(fs0: FS, fs: FS, e: Exp, i: Instr)
    requires WF(fs) && WFE(fs, e) && Ext(fs0, fs) && New(fs0, e) && IsTest(i) && fs.freereg == fs0.freereg
    ensures BranchInv(fs0, CondJump(fs, i), e.t, e.f, |fs.code| + 1)
  {
    CondJumpWF(fs, i);
    ExtTrans(fs0, fs, CondJump(fs, i));
    DischargeWF(fs);
  }

  // ---- jumponcond on a value in a register -------------------------------------------------------------

  lemma ToRegInv(fs0: FS, fs: FS, e: Exp)
    requires WF(fs0) && Inv(fs0, fs, e) && Discharged(e) && !e.k.VJmp? && Discharge2AnyReg(fs, e).fs.ok
    ensures var g := Discharge2AnyReg(fs, e);
            && Inv(fs0, g.fs, g.e) && g.e.k.VNonReloc? && g.e.t == e.t && g.e.f == e.f
  {
    if !e.k.VNonReloc? {
      var r := Reserve(fs, 1);
      SameCodeKeeps(fs0, fs, r, e);
      Discharge2RegWF(r, e, fs.freereg);
      ExtTrans(fs0, r, Discharge2AnyReg(fs, e).fs);
    }
  }

  lemma ToRegMeans(env: Env, fs0: FS, fs: FS, e: Exp, r: Result, at: nat, s: Regs)
    requires WF(fs0) && Inv(fs0, fs, e) && Discharged(e) && !e.k.VJmp?
    requires Discharge2AnyReg(fs, e).fs.ok && Discharge2AnyReg(fs, e).fs.ks <= env.k
    requires Start(fs0, at, s) && Means(env, fs0, fs, e, MAXSTACK, r, at, s)
    ensures var g := Discharge2AnyReg(fs, e);
            Means(env, fs0, g.fs, g.e, MAXSTACK, r, at, s)
  {
    if !e.k.VNonReloc? {
      var v := Reserve(fs, 1);
      SameCodeKeeps(fs0, fs, v, e);
      SameCodeMeans(env, fs0, fs, v, e, MAXSTACK, r, at, s);
      Discharge2RegMeans(env, fs0, v, e, fs.freereg, r, at, s);
      var g := Discharge2AnyReg(fs, e);
      MeansAbove(env, fs0, g.fs, g.e, fs.freereg, r, at, s);
    }
  }

  // Freeing the register of `e` brings the count back.
  lemma FreeInv(fs0: FS, fs: FS, e: Exp)
    requires WF(fs0) && Inv(fs0, fs, e)
    ensures var r := FreeExp(fs, e);
            WF(r) && WFE(r, e) && Ext(fs0, r) && SameCode(fs, r) && r.freereg == fs0.freereg
  {
    SameCodeKeeps(fs0, fs, FreeExp(fs, e), e);
  }

  lemma RegJumpInv(fs0: FS, fs: FS, e: Exp, cond: bool)
    requires WF(fs0) && Inv(fs0, fs, e) && e.k.VNonReloc?
    ensures BranchInv(fs0, CondJump(FreeExp(fs, e), TestSet(NO_REG, e.k.reg, cond)), e.t, e.f, |fs.code| + 1)
  {
    FreeInv(fs0, fs, e);
    CondJumpInv(fs0, FreeExp(fs, e), e, TestSet(NO_REG, e.k.reg, cond));
  }

  lemma RegJumpMeans(env: Env, fs0: FS, fs: FS, e: Exp, cond: bool, r: Result, at: nat, s: Regs)
    requires WF(fs0) && Inv(fs0, fs, e) && e.k.VNonReloc? && Means(env, fs0, fs, e, MAXSTACK, r, at, s)
    ensures BranchMeans(env, fs0, CondJump(FreeExp(fs, e), TestSet(NO_REG, e.k.reg, cond)), e.t, e.f, |fs.code| + 1,
      cond, r, at, s)
  {
    var i := TestSet(NO_REG, e.k.reg, cond);
    var v := FreeExp(fs, e);
    FreeInv(fs0, fs, e);
    SameCodeMeans(env, fs0, fs, v, e, MAXSTACK, r, at, s);
    var o0 := Arrive(env, fs0, at, s);
    if o0 != Wrong {
      CondJumpRun(env, v, i, at, s);
      if o0.Fall? { TestSetBranches(env, v, e, i, cond, fs0.freereg, o0.s, r, Arrive(env, v, at, s)); }
    }
  }

  // ---- jumponcond on a negation ------------------------------------------------------------------------

  // The state without the final NOT.
  function Dropped(fs: FS): FS
    requires |fs.code| > 0
  {
    fs.(code := fs.code[..|fs.code| - 1])
  }

  lemma DroppedWF(fs0: FS, fs: FS, e: Exp)
    requires WF(fs) && WFE(fs, e) && e.k.VReloc? && Ext(fs0, fs) && New(fs0, e)
    ensures var d := Dropped(fs);
            && WF(d) && WFE(d, e.(k := VNil)) && d.jpc == []
            && |fs0.code| <= |d.code|
              && (forall j :: Controlled(fs, j) ==> Controlled(d, j) && d.code[j - 1] == fs.code[j - 1])
  {
    var d := Dropped(fs);
    var n := |d.code|;
    assert n !in fs.pend;
    assert forall q: nat :: q < n ==> d.code[q] == fs.code[q];
    if n > 0 { assert !IsTest(fs.code[n - 1]); }
    assert Paired(d.code);
  }

  lemma NotJumpInv(fs0: FS, fs: FS, e: Exp, i: Instr)
    requires WF(fs) && Inv(fs0, fs, e) && e.k.VReloc? && IsTest(i)
    ensures BranchInv(fs0, CondJump(Dropped(fs), i), e.t, e.f, |fs.code|)
  {
    DroppedWF(fs0, fs, e);
    var d := Dropped(fs);
    CondJumpWF(d, i);
    var r := CondJump(d, i);
    assert r.code == d.code + [i, Jmp(NO_JUMP)];
    assert forall j :: Controlled(fs, j) ==> Controlled(r, j) && r.code[j - 1] == fs.code[j - 1];
  }

  lemma NotJumpMeans(env: Env, fs0: FS, fs: FS, e: Exp, cond: bool, r: Result, at: nat, s: Regs)
    requires WF(fs) && Inv(fs0, fs, e) && e.k.VReloc? && fs.code[e.k.pc].Not?
    requires Means(env, fs0, fs, e, MAXSTACK, r, at, s)
    ensures BranchMeans(env, fs0, CondJump(Dropped(fs), LuaVM.Test(fs.code[e.k.pc].b, !cond)), e.t, e.f, |fs.code|,
      cond, r, at, s)
  {
    var i := LuaVM.Test(fs.code[e.k.pc].b, !cond);
    DroppedWF(fs0, fs, e);
    var d := Dropped(fs);
    var o0 := Arrive(env, fs0, at, s);
    if o0 != Wrong {
      assert Arrive(env, d, at, s) == ArriveExp(env, fs, e, at, s);
      CondJumpRun(env, d, i, at, s);
      CondJumpWF(d, i);
      if o0.Fall? { NotBranches(env, fs, d, e, i, cond, fs0.freereg, o0.s, r, ArriveExp(env, fs, e, at, s)); }
    }
  }

  lemma NotBranches(env: Env, fs: FS, d: FS, e: Exp, i: Instr, cond: bool, n: nat, s1: Regs, r: Result, o: Out)
    requires WF(fs) && WFE(fs, e) && e.k.VReloc? && fs.code[e.k.pc].Not? && i == LuaVM.Test(fs.code[e.k.pc].b, !cond)
    requires d == Dropped(fs) && WF(d)
    requires Delivers(env, fs, e, n, MAXSTACK, s1, r, o)
    ensures Branches(env, CondJump(d, i).code, e.t, e.f, |fs.code|, cond, n, s1, r, ThenJump(env, i, |fs.code|, o))
  {
    CondJumpWF(d, i);
    assert CondJump(d, i).code == d.code + [i, Jmp(NO_JUMP)];
    assert CondJump(d, i).code[|fs.code| - 1] == i;
  }

  // ---- jumponcond --------------------------------------------------------------------------------------

  predicate IsNot(fs: FS, e: Exp) {
    e.k.VReloc? && e.k.pc < |fs.code| && fs.code[e.k.pc].Not?
  }

  lemma CondJumpPc(fs: FS, i: Instr)
    ensures CondJump(fs, i).Pc() == |fs.code| + 2
  {
  }

  lemma JumpOnNot(fs: FS, e: Exp, cond: bool)
    requires IsNot(fs, e)
    ensures JumpOnCond(fs, e, cond) == CondJump(Dropped(fs), LuaVM.Test(fs.code[e.k.pc].b, !cond))
    ensures JumpOnCond(fs, e, cond).Pc() - 1 == |fs.code|
  {
    CondJumpPc(Dropped(fs), LuaVM.Test(fs.code[e.k.pc].b, !cond));
  }

  lemma JumpOnReg(fs: FS, e: Exp, cond: bool)
    requires !IsNot(fs, e)
    ensures var g := Discharge2AnyReg(fs, e);
            g.e.k.VNonReloc? ==>
              && JumpOnCond(fs, e, cond) == CondJump(FreeExp(g.fs, g.e), TestSet(NO_REG, g.e.k.reg, cond))
              && JumpOnCond(fs, e, cond).Pc() - 1 == |g.fs.code| + 1
  {
    var g := Discharge2AnyReg(fs, e);
    if g.e.k.VNonReloc? { CondJumpPc(FreeExp(g.fs, g.e), TestSet(NO_REG, g.e.k.reg, cond)); }
  }

  lemma JumpOnCondInv(fs0: FS, fs: FS, e: Exp, cond: bool)
    requires WF(fs0) && Inv(fs0, fs, e) && Discharged(e) && !e.k.VJmp? && JumpOnCond(fs, e, cond).ok
    ensures var r := JumpOnCond(fs, e, cond);
            r.Pc() > 0 && BranchInv(fs0, r, e.t, e.f, r.Pc() - 1)
  {
    if IsNot(fs, e) {
      JumpOnNot(fs, e, cond);
      NotJumpInv(fs0, fs, e, LuaVM.Test(fs.code[e.k.pc].b, !cond));
    } else {
      var g := Discharge2AnyReg(fs, e);
      assert g.fs.ok;
      ToRegInv(fs0, fs, e);
      JumpOnReg(fs, e, cond);
      RegJumpInv(fs0, g.fs, g.e, cond);
    }
  }

  lemma JumpOnCondMeans(env: Env, fs0: FS, fs: FS, e: Exp, cond: bool, r: Result, at: nat, s: Regs)
    requires WF(fs0) && Inv(fs0, fs, e) && Discharged(e) && !e.k.VJmp?
    requires JumpOnCond(fs, e, cond).ok && JumpOnCond(fs, e, cond).ks <= env.k
    requires Start(fs0, at, s) && Means(env, fs0, fs, e, MAXSTACK, r, at, s)
    ensures var v := JumpOnCond(fs, e, cond);
            v.Pc() > 0 && BranchMeans(env, fs0, v, e.t, e.f, v.Pc() - 1, cond, r, at, s)
  {
    if IsNot(fs, e) {
      JumpOnNot(fs, e, cond);
      NotJumpMeans(env, fs0, fs, e, cond, r, at, s);
    } else {
      var g := Discharge2AnyReg(fs, e);
      assert g.fs.ok && g.fs.ks <= env.k;
      ToRegInv(fs0, fs, e);
      ToRegMeans(env, fs0, fs, e, r, at, s);
      JumpOnReg(fs, e, cond);
      RegJumpMeans(env, fs0, g.fs, g.e, cond, r, at, s);
    }
  }

  // ---- a comparison that already is a conditional jump ---------------------------------------------------

  // Invert the comparison when the jump must be taken on false.
  function Directed(fs: FS, e: Exp, cond: bool): FS {
    if cond then fs else InvertJump(fs, e)
  }

  lemma DirectedWF(fs0: FS, fs: FS, e: Exp, cond: bool)
    requires WF(fs) && WFE(fs, e) && e.k.VJmp? && Ext(fs0, fs) && New(fs0, e)
    ensures var d := Directed(fs, e, cond);
            && WF(d) && WFE(d, e) && Ext(fs0, d) && |d.code| == |fs.code| && d.freereg == fs.freereg && d.jpc == []
            && Core(d, e) == Core(fs, e)
            && (forall j :: Controlled(fs, j) && j != e.k.pc ==> Controlled(d, j) && d.code[j - 1] == fs.code[j - 1])
            && d.code[e.k.pc - 1].Compare? && d.pend == fs.pend
            && d.code[e.k.pc - 1] == (if cond then fs.code[e.k.pc - 1] else
                 var i := fs.code[e.k.pc - 1]; Compare(i.cop, !i.cond, i.b, i.c))
  {
    hide WF, WFE, Ext, New, InvertJump;
    JumpCode(fs, e);
    if !cond {
      InvertWF(fs0, fs, e);
      InvertCode(fs, e);
    }
  }

  lemma JumpCode(fs: FS, e: Exp)
    requires WFE(fs, e) && e.k.VJmp?
    ensures 0 < e.k.pc < |fs.code| && fs.jpc == [] && fs.code[e.k.pc - 1].Compare?
  {
  }

  lemma InvertWF(fs0: FS, fs: FS, e: Exp)
    requires WF(fs) && WFE(fs, e) && e.k.VJmp? && Ext(fs0, fs) && New(fs0, e)
    ensures var d := InvertJump(fs, e);
            WF(d) && WFE(d, e) && Ext(fs0, d)
  {
    var d := InvertJump(fs, e);
    assert forall q: nat :: q < |fs.code| && q != e.k.pc - 1 ==> d.code[q] == fs.code[q];
    assert Paired(d.code);
  }

  lemma InvertCode(fs: FS, e: Exp)
    requires WFE(fs, e) && e.k.VJmp?
    ensures var d := InvertJump(fs, e);
            && |d.code| == |fs.code| && d.freereg == fs.freereg && d.jpc == [] && Core(d, e) == Core(fs, e)
            && (forall j :: Controlled(fs, j) && j != e.k.pc ==> Controlled(d, j) && d.code[j - 1] == fs.code[j - 1])
            && 0 < e.k.pc < |fs.code| && d.code[e.k.pc - 1].Compare? && d.pend == fs.pend
            && d.code[e.k.pc - 1] == var i := fs.code[e.k.pc - 1]; Compare(i.cop, !i.cond, i.b, i.c)
  {
  }

  lemma JmpInv(fs0: FS, fs: FS, e: Exp, cond: bool)
    requires Inv(fs0, fs, e) && e.k.VJmp?
    ensures BranchInv(fs0, Directed(fs, e, cond), e.t, e.f, e.k.pc)
  {
    DirectedWF(fs0, fs, e, cond);
  }

  lemma JmpBranches(env: Env, fs: FS, code: seq<Instr>, e: Exp, cond: bool, n: nat, s1: Regs, r: Result, o: Out)
    requires e.k.VJmp? && 0 < e.k.pc < |fs.code| == |code| && fs.code[e.k.pc - 1].Compare?
    requires code[e.k.pc - 1] == (if cond then fs.code[e.k.pc - 1] else
               var i := fs.code[e.k.pc - 1]; Compare(i.cop, !i.cond, i.b, i.c))
    requires forall j :: j in e.t || j in e.f ==> 0 < j < |code| && code[j - 1] == fs.code[j - 1]
    requires Delivers(env, fs, e, n, MAXSTACK, s1, r, o)
    ensures Branches(env, code, e.t, e.f, e.k.pc, cond, n, s1, r, ThenJump(env, code[e.k.pc - 1], e.k.pc, o))
  {
  }

  lemma JmpMeans(env: Env, fs0: FS, fs: FS, e: Exp, cond: bool, r: Result, at: nat, s: Regs)
    requires Inv(fs0, fs, e) && e.k.VJmp? && Means(env, fs0, fs, e, MAXSTACK, r, at, s)
    ensures BranchMeans(env, fs0, Directed(fs, e, cond), e.t, e.f, e.k.pc, cond, r, at, s)
  {
    hide Directed, Branches, Run, WF;
    DirectedWF(fs0, fs, e, cond);
    var d := Directed(fs, e, cond);
    var o0 := Arrive(env, fs0, at, s);
    if o0 != Wrong {
      assert ArriveExp(env, d, e, at, s) == ArriveExp(env, fs, e, at, s);
      JmpRun(env, d, e, at, s);
      if o0.Fall? { JmpBranches(env, fs, d.code, e, cond, fs0.freereg, o0.s, r, ArriveExp(env, fs, e, at, s)); }
    }
  }

  // ---- goiftrue and goiffalse ----------------------------------------------------------------------------

  /** After goiftrue (sense) or goiffalse (!sense): falling through means that the value has that truth
      value; the jumps of `l` are taken otherwise and carry the value. */
  ghost predicate Decides(env: Env, code: seq<Instr>, l: seq<nat>, sense: bool, n: nat, s1: Regs, r: Result, o: Out) {
    match o
    case Fall(u) => Agree(s1, u, n, MAXSTACK) && r.Val? && Falsy(r.v) != sense
    case Exit(j, u) =>
      && Agree(s1, u, n, MAXSTACK) && r.Val? && Falsy(r.v) == sense
      && j in l && Carries(code, j, u, !sense) == Got(r.v)
    case Fault => r.Err?
    case Wrong => false
  }

  ghost predicate CondMeans(env: Env, fs0: FS, fs: FS, l: seq<nat>, sense: bool, r: Result, at: nat, s: Regs) {
    var o := Arrive(env, fs0, at, s);
    match o
    case Fall(s1) => Decides(env, fs.code, l, sense, fs0.freereg, s1, r, Arrive(env, fs, at, s))
    case Wrong => true
    case _ => Arrive(env, fs, at, s) == o
  }

  ghost predicate CondInv(fs0: FS, fs: FS, l: seq<nat>) {
    WF(fs) && Ext(fs0, fs) && fs.freereg == fs0.freereg && OwnList(fs0, fs, l)
  }

  // Send the jumps of `here` to the next instruction.
  lemma HereInv(fs0: FS, fs: FS, here: seq<nat>, l: seq<nat>)
    requires WF(fs0) && WF(fs) && Ext(fs0, fs) && fs.freereg == fs0.freereg
    requires OwnList(fs0, fs, here) && OwnList(fs0, fs, l) && forall j :: j in l ==> j !in here
    ensures CondInv(fs0, PatchToHere(fs, here), l)
  {
  }

  lemma HereRun(env: Env, fs: FS, here: seq<nat>, at: nat, s: Regs)
    ensures Arrive(env, PatchToHere(fs, here), at, s) == Norm(here, Arrive(env, fs, at, s))
  {
  }

  // Extending `l` with the new jump.
  lemma SnocOwn(fs0: FS, fs: FS, l: seq<nat>, j: nat)
    requires OwnList(fs0, fs, l) && Controlled(fs, j) && |fs0.code| <= j && j !in l
    ensures OwnList(fs0, fs, l + [j]) && forall i :: i in l + [j] <==> i in l || i == j
  {
  }

  lemma SplitDecides(env: Env, code: seq<Instr>, t: seq<nat>, f: seq<nat>, j0: nat, sense: bool, n: nat, s1: Regs,
    r: Result, o: Out)
    requires (forall j :: j in t ==> j !in f) && j0 !in t && j0 !in f
    requires Branches(env, code, t, f, j0, !sense, n, s1, r, o)
    ensures Decides(env, code, (if sense then f else t) + [j0], sense, n, s1, r, Norm(if sense then t else f, o))
  {
    var l := if sense then f else t;
    assert forall i :: i in l + [j0] <==> i in l || i == j0;
  }

  function GoIf(fs: FS, e: Exp, sense: bool): Gen {
    if sense then GoIfTrue(fs, e) else GoIfFalse(fs, e)
  }

  // The list that GoIf leaves open.
  function Open1(e: Exp, sense: bool): seq<nat> {
    if sense then e.f else e.t
  }

  function Closed1(e: Exp, sense: bool): seq<nat> {
    if sense then e.t else e.f
  }

  // The value is known to have the truth value `sense`: no jump is needed.
  predicate Known(k: Kind, sense: bool) {
    if sense then k.VK? || k.VKNum? || k.VTrue? else k.VNil? || k.VFalse?
  }

  // GoIf after its variable is discharged.
  lemma GoIfParts(fs: FS, e: Exp, sense: bool)
    ensures var g := DischargeVars(fs, e);
            var r := GoIf(fs, e, sense);
            if Known(g.e.k, sense) then
              r.fs == PatchToHere(g.fs, Closed1(g.e, sense)) && Open1(r.e, sense) == Open1(g.e, sense)
                && Closed1(r.e, sense) == []
            else
              var fs1 := if g.e.k.VJmp? then Directed(g.fs, g.e, !sense) else JumpOnCond(g.fs, g.e, !sense);
              var pc := if g.e.k.VJmp? then g.e.k.pc else fs1.Pc() - 1;
              && Open1(r.e, sense) == Open1(g.e, sense) + [pc] && Closed1(r.e, sense) == []
              && r.fs == PatchToHere(fs1.(ok := fs1.ok && Linkable(Open1(g.e, sense), [pc])), Closed1(g.e, sense))
  {
  }

  lemma KnownInv(fs0: FS, fs: FS, e: Exp, sense: bool)
    requires WF(fs0) && Inv(fs0, fs, e) && Known(e.k, sense)
    ensures CondInv(fs0, PatchToHere(fs, Closed1(e, sense)), Open1(e, sense))
  {
    HereInv(fs0, fs, Closed1(e, sense), Open1(e, sense));
  }

  lemma KnownMeans(env: Env, fs0: FS, fs: FS, e: Exp, sense: bool, r: Result, at: nat, s: Regs)
    requires WF(fs0) && Inv(fs0, fs, e) && Known(e.k, sense) && !e.k.VK? && Means(env, fs0, fs, e, MAXSTACK, r, at, s)
    ensures CondMeans(env, fs0, PatchToHere(fs, Closed1(e, sense)), Open1(e, sense), sense, r, at, s)
  {
    HereRun(env, fs, Closed1(e, sense), at, s);
    OldExit(env, fs0, e, at, s);
    assert ArriveExp(env, fs, e, at, s) == Arrive(env, fs, at, s);
  }

  lemma BranchHereInv(fs0: FS, fs: FS, e: Exp, pc: nat, sense: bool, ok: bool)
    requires WF(fs0) && BranchInv(fs0, fs, e.t, e.f, pc)
    ensures CondInv(fs0, PatchToHere(fs.(ok := ok), Closed1(e, sense)), Open1(e, sense) + [pc])
  {
    SnocOwn(fs0, fs, Open1(e, sense), pc);
    HereInv(fs0, fs.(ok := ok), Closed1(e, sense), Open1(e, sense) + [pc]);
  }

  lemma BranchHereMeans(env: Env, fs0: FS, fs: FS, e: Exp, pc: nat, sense: bool, ok: bool, r: Result, at: nat, s: Regs)
    requires WF(fs0) && New(fs0, e) && BranchInv(fs0, fs, e.t, e.f, pc)
    requires BranchMeans(env, fs0, fs, e.t, e.f, pc, !sense, r, at, s)
    ensures CondMeans(env, fs0, PatchToHere(fs.(ok := ok), Closed1(e, sense)), Open1(e, sense) + [pc], sense, r, at, s)
  {
    HereRun(env, fs.(ok := ok), Closed1(e, sense), at, s);
    OldExit(env, fs0, e, at, s);
    assert Arrive(env, fs.(ok := ok), at, s) == Arrive(env, fs, at, s);
    var o0 := Arrive(env, fs0, at, s);
    if o0.Fall? {
      SplitDecides(env, fs.code, e.t, e.f, pc, sense, fs0.freereg, o0.s, r, Arrive(env, fs, at, s));
    }
  }

  /** goiftrue and goiffalse. */
  lemma GoInv(fs0: FS, fs: FS, e: Exp, sense: bool)
    requires WF(fs0) && Inv(fs0, fs, e) && GoIf(fs, e, sense).fs.ok
    ensures var g := GoIf(fs, e, sense);
            CondInv(fs0, g.fs, Open1(g.e, sense)) && Closed1(g.e, sense) == []
  {
    hide JumpOnCond, PatchToHere, Directed, DischargeVars, GoIf, WFE, New, CondInv, BranchInv;
    DischargeVarsWF(fs0, fs, e);
    GoIfParts(fs, e, sense);
    var g := DischargeVars(fs, e);
    if Known(g.e.k, sense) {
      KnownInv(fs0, g.fs, g.e, sense);
    } else if g.e.k.VJmp? {
      JmpInv(fs0, g.fs, g.e, !sense);
      var fs1 := Directed(g.fs, g.e, !sense);
      BranchHereInv(fs0, fs1, g.e, g.e.k.pc, sense, fs1.ok && Linkable(Open1(g.e, sense), [g.e.k.pc]));
    } else {
      JumpOnCondInv(fs0, g.fs, g.e, !sense);
      var fs1 := JumpOnCond(g.fs, g.e, !sense);
      BranchHereInv(fs0, fs1, g.e, fs1.Pc() - 1, sense, fs1.ok && Linkable(Open1(g.e, sense), [fs1.Pc() - 1]));
    }
  }

  lemma GoJmpMeans(env: Env, fs0: FS, fs: FS, e: Exp, sense: bool, ok: bool, r: Result, at: nat, s: Regs)
    requires WF(fs0) && Inv(fs0, fs, e) && e.k.VJmp? && Means(env, fs0, fs, e, MAXSTACK, r, at, s)
    ensures CondMeans(env, fs0, PatchToHere(Directed(fs, e, !sense).(ok := ok), Closed1(e, sense)),
      Open1(e, sense) + [e.k.pc], sense, r, at, s)
  {
    JmpInv(fs0, fs, e, !sense);
    JmpMeans(env, fs0, fs, e, !sense, r, at, s);
    BranchHereMeans(env, fs0, Directed(fs, e, !sense), e, e.k.pc, sense, ok, r, at, s);
  }

  lemma GoValueMeans(env: Env, fs0: FS, fs: FS, e: Exp, sense: bool, r: Result, at: nat, s: Regs) returns (v: FS)
    requires WF(fs0) && Inv(fs0, fs, e) && Discharged(e) && !e.k.VJmp?
    requires Start(fs0, at, s) && Means(env, fs0, fs, e, MAXSTACK, r, at, s)
    requires JumpOnCond(fs, e, !sense).ok && JumpOnCond(fs, e, !sense).ks <= env.k
    ensures v == JumpOnCond(fs, e, !sense) && v.Pc() > 0
    ensures BranchInv(fs0, v, e.t, e.f, v.Pc() - 1) && BranchMeans(env, fs0, v, e.t, e.f, v.Pc() - 1, !sense, r, at, s)
  {
    hide JumpOnCond, PatchToHere, Directed, DischargeVars, GoIf;
    JumpOnCondInv(fs0, fs, e, !sense);
    JumpOnCondMeans(env, fs0, fs, e, !sense, r, at, s);
    v := JumpOnCond(fs, e, !sense);
  }

  lemma GoMeans(env: Env, fs0: FS, fs: FS, e: Exp, sense: bool, r: Result, at: nat, s: Regs)
    requires WF(fs0) && Inv(fs0, fs, e) && !e.k.VK? && GoIf(fs, e, sense).fs.ok && GoIf(fs, e, sense).fs.ks <= env.k
    requires Start(fs0, at, s) && Means(env, fs0, fs, e, MAXSTACK, r, at, s)
    ensures var g := GoIf(fs, e, sense);
            CondMeans(env, fs0, g.fs, Open1(g.e, sense), sense, r, at, s)
  {
    hide JumpOnCond, PatchToHere, Directed, DischargeVars, GoIf, WFE, New, Means, CondMeans, BranchMeans, Start;
    DischargeVarsWF(fs0, fs, e);
    DischargeVarsMeans(env, fs0, fs, e, r, at, s);
    GoIfParts(fs, e, sense);
    var g := DischargeVars(fs, e);
    if Known(g.e.k, sense) {
      KnownMeans(env, fs0, g.fs, g.e, sense, r, at, s);
    } else if g.e.k.VJmp? {
      var fs1 := Directed(g.fs, g.e, !sense);
      GoJmpMeans(env, fs0, g.fs, g.e, sense, fs1.ok && Linkable(Open1(g.e, sense), [g.e.k.pc]), r, at, s);
    } else {
      var v := GoValueMeans(env, fs0, g.fs, g.e, sense, r, at, s);
      BranchHereMeans(env, fs0, v, g.e, v.Pc() - 1, sense, v.ok && Linkable(Open1(g.e, sense), [v.Pc() - 1]), r, at, s);
    }
  }
}
