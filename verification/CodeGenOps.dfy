/** The operators (codenot, codearith, codecomp, `and`, `or`) preserve meaning, for every pair of operands. */
module CodeGenOps {
  import opened Basics
  import opened LuaVM
  import opened CodeGen
  import opened CodeRun
  import opened CodeGenState
  import opened CodeGenSteps
  import opened CodeGenReg
  import opened CodeGenLists
  import opened CodeGenExp
  import opened CodeGenCond

  // ---- not -------------------------------------------------------------------------------------------

  function NotOf(r: Result): Result {
    match r case Val(v) => Val(Bool(Falsy(v))) case Err => Err
  }

  // Halfway through codenot: the value that falls through is negated, the jumps still carry the old one.
  ghost predicate HalfNot(env: Env, fs0: FS, fs: FS, e: Exp, r: Result, at: nat, s: Regs) {
    var o0 := Arrive(env, fs0, at, s);
    var o := ArriveExp(env, fs, e, at, s);
    match o0
    case Fall(s1) => Delivers(env, fs, e, fs0.freereg, MAXSTACK, s1, if o.Fall? then NotOf(r) else r, o)
    case Wrong => true
    case _ => o == o0
  }

  lemma NegateRegInv(fs0: FS, fs: FS, e: Exp)
    requires WF(fs0) && Inv(fs0, fs, e) && e.k.VNonReloc?
    ensures var v := FreeExp(fs, e);
            Inv(fs0, Emit(v, Not(0, e.k.reg)), Open(v, e))
  {
    FreeInv(fs0, fs, e);
    SuspendWF(fs0, FreeExp(fs, e), e, Not(0, e.k.reg));
  }

  lemma NegateRegMeans(env: Env, fs0: FS, fs: FS, e: Exp, r: Result, at: nat, s: Regs)
    requires WF(fs0) && Inv(fs0, fs, e) && e.k.VNonReloc? && Means(env, fs0, fs, e, MAXSTACK, r, at, s)
    ensures var v := FreeExp(fs, e);
            HalfNot(env, fs0, Emit(v, Not(0, e.k.reg)), Open(v, e), r, at, s)
  {
    var v := FreeExp(fs, e);
    var i := Not(0, e.k.reg);
    FreeInv(fs0, fs, e);
    SameCodeMeans(env, fs0, fs, v, e, MAXSTACK, r, at, s);
    EmitCore(env, v, i, Open(v, e), at, s);
    var o0, o := Arrive(env, fs0, at, s), Arrive(env, v, at, s);
    if o0.Fall? {
      SuspendDelivers(env, v, e, i, fs0.freereg, MAXSTACK, o0.s, if o.Fall? then NotOf(r) else r, o);
    }
  }

  lemma NegateParts(fs: FS, e: Exp)
    requires Discharged(e)
    ensures var h := NegateValue(fs, e);
            if e.k.VJmp? then h == Gen(Directed(fs, e, false), e)
            else if IsConst(e.k) || e.k.VK?
              then h == Gen(fs, e.(k := if e.k.VNil? || e.k.VFalse? then VTrue else VFalse))
            else
              var g := Discharge2AnyReg(fs, e);
              g.e.k.VNonReloc? ==>
                var v := FreeExp(g.fs, g.e);
                h == Gen(Emit(v, Not(0, g.e.k.reg)), Open(v, g.e))
  {
    if e.k.VReloc? || e.k.VNonReloc? {
      var g := Discharge2AnyReg(fs, e);
      if g.e.k.VNonReloc? { EmitPc(FreeExp(g.fs, g.e), Not(0, g.e.k.reg)); }
    }
  }

  lemma EmitPc(fs: FS, i: Instr)
    ensures Emit(fs, i).Pc() == |fs.code| + 1
  {
  }

  lemma NegateInv(fs0: FS, fs: FS, e: Exp)
    requires WF(fs0) && Inv(fs0, fs, e) && Discharged(e) && NegateValue(fs, e).fs.ok
    ensures var h := NegateValue(fs, e);
            Inv(fs0, h.fs, h.e) && h.e.t == e.t && h.e.f == e.f
  {
    NegateParts(fs, e);
    if e.k.VJmp? {
      DirectedWF(fs0, fs, e, false);
    } else if e.k.VReloc? || e.k.VNonReloc? {
      var g := Discharge2AnyReg(fs, e);
      assert g.fs.ok;
      ToRegInv(fs0, fs, e);
      NegateRegInv(fs0, g.fs, g.e);
    }
  }

  lemma NegateJmpMeans(env: Env, fs0: FS, fs: FS, e: Exp, r: Result, at: nat, s: Regs)
    requires Inv(fs0, fs, e) && e.k.VJmp? && Means(env, fs0, fs, e, MAXSTACK, r, at, s)
    ensures HalfNot(env, fs0, Directed(fs, e, false), e, r, at, s)
  {
    DirectedWF(fs0, fs, e, false);
    var d := Directed(fs, e, false);
    assert ArriveExp(env, d, e, at, s) == ArriveExp(env, fs, e, at, s);
  }

  lemma NegateMeans(env: Env, fs0: FS, fs: FS, e: Exp, r: Result, at: nat, s: Regs)
    requires WF(fs0) && Inv(fs0, fs, e) && Discharged(e) && !e.k.VK?
    requires NegateValue(fs, e).fs.ok && NegateValue(fs, e).fs.ks <= env.k
    requires Start(fs0, at, s) && Means(env, fs0, fs, e, MAXSTACK, r, at, s)
    ensures var h := NegateValue(fs, e);
            HalfNot(env, fs0, h.fs, h.e, r, at, s)
  {
    NegateParts(fs, e);
    if e.k.VJmp? {
      NegateJmpMeans(env, fs0, fs, e, r, at, s);
    } else if e.k.VReloc? || e.k.VNonReloc? {
      var g := Discharge2AnyReg(fs, e);
      assert g.fs.ok && g.fs.ks <= env.k;
      ToRegInv(fs0, fs, e);
      ToRegMeans(env, fs0, fs, e, r, at, s);
      NegateRegMeans(env, fs0, g.fs, g.e, r, at, s);
    } else {
      NegateConstMeans(env, fs0, fs, e, r, at, s);
    }
  }

  lemma NegateConstMeans(env: Env, fs0: FS, fs: FS, e: Exp, r: Result, at: nat, s: Regs)
    requires IsConst(e.k) && Means(env, fs0, fs, e, MAXSTACK, r, at, s)
    ensures HalfNot(env, fs0, fs, e.(k := if e.k.VNil? || e.k.VFalse? then VTrue else VFalse), r, at, s)
  {
    var e' := e.(k := if e.k.VNil? || e.k.VFalse? then VTrue else VFalse);
    assert ArriveExp(env, fs, e', at, s) == ArriveExp(env, fs, e, at, s);
  }

  // The second half of codenot: the lists change places and their jumps lose their values.
  function Removed(fs: FS, e: Exp): FS {
    fs.(code := RemoveCode(RemoveCode(fs.code, e.t), e.f))
  }

  function Swapped(e: Exp): Exp {
    Exp(e.k, e.f, e.t)
  }

  lemma RemovedShape(fs: FS, e: Exp)
    ensures var d := Removed(fs, e);
            && |d.code| == |fs.code|
            && forall q: nat :: q < |fs.code| ==>
                 d.code[q] == if (q + 1 in e.t || q + 1 in e.f) && fs.code[q].TestSet?
                              then LuaVM.Test(fs.code[q].b, fs.code[q].cond)
                              else fs.code[q]
  {
  }

  lemma RemovedState(fs: FS, e: Exp)
    requires WF(fs)
    ensures var d := Removed(fs, e);
            && WF(d)
            && (forall j :: Controlled(fs, j) ==> Controlled(d, j))
            && (forall j :: Controlled(fs, j) && j !in e.t && j !in e.f ==> d.code[j - 1] == fs.code[j - 1])
  {
    hide Removed;
    RemovedShape(fs, e);
    var d := Removed(fs, e);
    assert d == fs.(code := d.code) by { RemovedSame(fs, e); }
    assert forall q: nat :: q < |fs.code| ==> (IsTest(d.code[q]) <==> IsTest(fs.code[q]));
    assert Paired(d.code);
  }

  lemma RemovedSame(fs: FS, e: Exp)
    ensures Removed(fs, e) == fs.(code := Removed(fs, e).code)
  {
  }

  lemma RemovedWF(fs0: FS, fs: FS, e: Exp)
    requires Inv(fs0, fs, e)
    ensures Inv(fs0, Removed(fs, e), Swapped(e))
    ensures forall j :: j in e.t || j in e.f ==> !SetControl(Removed(fs, e).code, j)
  {
    hide Removed;
    RemovedShape(fs, e);
    RemovedState(fs, e);
    RemovedSame(fs, e);
  }

  lemma RemovedCore(fs: FS, e: Exp)
    requires WF(fs) && WFE(fs, e)
    ensures Core(Removed(fs, e), Swapped(e)) == RemoveCode(RemoveCode(Core(fs, e), e.t), e.f)
  {
    var c, d := Core(fs, e), Core(Removed(fs, e), Swapped(e));
    assert |c| == |d|;
  }

  lemma RemovedRun(env: Env, fs: FS, e: Exp, at: nat, s: Regs)
    requires WF(fs) && WFE(fs, e)
    ensures ArriveExp(env, Removed(fs, e), Swapped(e), at, s) == ArriveExp(env, fs, e, at, s)
  {
    RemovedCore(fs, e);
    RemoveRun(env, Core(fs, e), fs.pend, e.t, at, s);
    RemoveRun(env, RemoveCode(Core(fs, e), e.t), fs.pend, e.f, at, s);
  }

  lemma RemovedDelivers(env: Env, fs: FS, d: FS, e: Exp, n: nat, s1: Regs, r: Result, o: Out)
    requires WFE(fs, e) && d == Removed(fs, e)
    requires forall j :: j in e.t || j in e.f ==> !SetControl(d.code, j)
    requires Suspended(e) ==>
        e.k.pc < |d.code| == |fs.code| && d.code[e.k.pc] == fs.code[e.k.pc]
        && (e.k.VJmp? ==> 0 < e.k.pc && d.code[e.k.pc - 1] == fs.code[e.k.pc - 1])
    requires Delivers(env, fs, e, n, MAXSTACK, s1, if o.Fall? then NotOf(r) else r, o)
    ensures Delivers(env, d, Swapped(e), n, MAXSTACK, s1, NotOf(r), o)
  {
  }

  /** codenot. */
  lemma NotInv(fs0: FS, fs: FS, e: Exp)
    requires WF(fs0) && Inv(fs0, fs, e) && CodeNot(fs, e).fs.ok
    ensures var g := CodeNot(fs, e);
            Inv(fs0, g.fs, g.e)
  {
    DischargeVarsWF(fs0, fs, e);
    var g := DischargeVars(fs, e);
    NegateInv(fs0, g.fs, g.e);
    var h := NegateValue(g.fs, g.e);
    RemovedWF(fs0, h.fs, h.e);
  }

  lemma RemovedMeans(env: Env, fs0: FS, fs: FS, e: Exp, r: Result, at: nat, s: Regs)
    requires Inv(fs0, fs, e) && HalfNot(env, fs0, fs, e, r, at, s)
    ensures Means(env, fs0, Removed(fs, e), Swapped(e), MAXSTACK, NotOf(r), at, s)
  {
    hide Removed, RemoveCode;
    var d := Removed(fs, e);
    RemovedShape(fs, e);
    RemovedWF(fs0, fs, e);
    RemovedRun(env, fs, e, at, s);
    var o0 := Arrive(env, fs0, at, s);
    if o0.Fall? {
      RemovedDelivers(env, fs, d, e, fs0.freereg, o0.s, r, ArriveExp(env, fs, e, at, s));
    }
  }

  lemma NotMeans(env: Env, fs0: FS, fs: FS, e: Exp, r: Result, at: nat, s: Regs)
    requires WF(fs0) && Inv(fs0, fs, e) && !e.k.VK? && CodeNot(fs, e).fs.ok && CodeNot(fs, e).fs.ks <= env.k
    requires Start(fs0, at, s) && Means(env, fs0, fs, e, MAXSTACK, r, at, s)
    ensures var g := CodeNot(fs, e);
            Means(env, fs0, g.fs, g.e, MAXSTACK, NotOf(r), at, s)
  {
    DischargeVarsWF(fs0, fs, e);
    DischargeVarsMeans(env, fs0, fs, e, r, at, s);
    var g := DischargeVars(fs, e);
    NegateInv(fs0, g.fs, g.e);
    NegateMeans(env, fs0, g.fs, g.e, r, at, s);
    var h := NegateValue(g.fs, g.e);
    RemovedMeans(env, fs0, h.fs, h.e, r, at, s);
  }

  // ---- and, or -----------------------------------------------------------------------------------------

  // The result of `and` (sense) or `or` (!sense).
  function ShortCut(sense: bool, r1: Result, r2: Result): Result {
    if r1.Err? then Err else if Falsy(r1.v) == sense then r1 else r2
  }

  function Appended(e: Exp, l: seq<nat>, sense: bool): Exp {
    if sense then e.(f := e.f + l) else e.(t := e.t + l)
  }

  lemma AppendedIn(e: Exp, l: seq<nat>, sense: bool)
    ensures var e' := Appended(e, l, sense);
            && (forall j :: j in e'.t <==> j in e.t || (!sense && j in l))
            && (forall j :: j in e'.f <==> j in e.f || (sense && j in l))
  {
  }

  lemma NoDupAppend(a: seq<nat>, b: seq<nat>)
    requires NoDup(a) && NoDup(b) && forall j :: j in a ==> j !in b
    ensures NoDup(a + b)
  {
    forall i, j | 0 <= i < j < |a + b|
      ensures (a + b)[i] != (a + b)[j]
    {
      if i < |a| <= j { assert a[i] in a && b[j - |a|] in b; }
    }
  }

  lemma JoinInv(fs0: FS, fs1: FS, fs2: FS, e: Exp, l: seq<nat>, sense: bool)
    requires CondInv(fs0, fs1, l) && Inv(fs1, fs2, e)
    ensures Inv(fs0, fs2, Appended(e, l, sense))
  {
    ExtTrans(fs0, fs1, fs2);
    AppendedIn(e, l, sense);
    assert forall j :: j in l ==> j < |fs1.code| && Controlled(fs2, j) && j !in e.t && j !in e.f;
    NoDupAppend(if sense then e.f else e.t, l);
  }

  lemma ExitJoins(env: Env, fs1: FS, fs2: FS, e: Exp, l: seq<nat>, sense: bool, n: nat, s1: Regs, r1: Result,
    r: Result, o: Out)
    requires Ext(fs1, fs2) && o.Exit? && (o.j in l ==> Controlled(fs1, o.j))
    requires Decides(env, fs1.code, l, sense, n, s1, r1, o) && r == r1
    ensures Delivers(env, fs2, Appended(e, l, sense), n, MAXSTACK, s1, r, o)
  {
    AppendedIn(e, l, sense);
  }

  lemma FallJoins(env: Env, fs2: FS, e: Exp, l: seq<nat>, sense: bool, n: nat, s1: Regs, u: Regs, r2: Result, o: Out)
    requires Agree(s1, u, n, MAXSTACK) && Delivers(env, fs2, e, n, MAXSTACK, u, r2, o)
    ensures Delivers(env, fs2, Appended(e, l, sense), n, MAXSTACK, s1, r2, o)
  {
    AppendedIn(e, l, sense);
  }

  lemma JoinMeans(env: Env, fs0: FS, fs1: FS, fs2: FS, e: Exp, l: seq<nat>, sense: bool, r1: Result, r2: Result,
    at: nat, s: Regs)
    requires CondInv(fs0, fs1, l) && Inv(fs1, fs2, e)
    requires CondMeans(env, fs0, fs1, l, sense, r1, at, s) && Means(env, fs1, fs2, e, MAXSTACK, r2, at, s)
    ensures Means(env, fs0, fs2, Appended(e, l, sense), MAXSTACK, ShortCut(sense, r1, r2), at, s)
  {
    assert ArriveExp(env, fs2, Appended(e, l, sense), at, s) == ArriveExp(env, fs2, e, at, s);
    var o0, o1, o2 := Arrive(env, fs0, at, s), Arrive(env, fs1, at, s), ArriveExp(env, fs2, e, at, s);
    if o0.Fall? {
      if o1.Fall? {
        FallJoins(env, fs2, e, l, sense, fs0.freereg, o0.s, o1.s, r2, o2);
      } else if o1.Exit? {
        ExitJoins(env, fs1, fs2, e, l, sense, fs0.freereg, o0.s, r1, ShortCut(sense, r1, r2), o1);
      }
    }
  }
}
