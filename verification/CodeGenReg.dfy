/** Putting the value of an expression in a register (discharge2reg, exp2reg) preserves its meaning. */
module CodeGenReg {
  import opened LuaVM
  import opened CodeGen
  import opened CodeRun
  import opened CodeGenState
  import opened CodeGenSteps

  // ---- nil -------------------------------------------------------------------------------------------

  lemma NilWF(fs: FS, reg: nat)
    requires WF(fs) && reg < MAXSTACK
    ensures WF(NilCode(fs, reg)) && Ext(fs, NilCode(fs, reg))
    ensures NilCode(fs, reg).freereg == fs.freereg && NilCode(fs, reg).maxstack == fs.maxstack
  {
    var r := NilCode(fs, reg);
    if r == Emit(fs, LoadNil(reg, reg)) { EmitWF(fs, LoadNil(reg, reg)); }
  }

  /** luaK_nil, with its two shortcuts, makes register `reg` nil and changes nothing else. */
  lemma NilRun(env: Env, fs0: FS, fs: FS, reg: nat, at: nat, s: Regs)
    requires WF(fs) && Ext(fs0, fs) && Start(fs0, at, s) && reg < MAXSTACK
    requires Arrive(env, fs, at, s) != Wrong
    ensures var o := Arrive(env, fs, at, s);
            var o' := Arrive(env, NilCode(fs, reg), at, s);
            if o.Fall? then o'.Fall? && o'.s[reg] == Nil && Agree(o.s, o'.s, MAXSTACK, reg) else o' == o
  {
    var r := NilCode(fs, reg);
    if |fs.code| > fs.lasttarget && |fs.code| > 0 && fs.code[|fs.code| - 1].LoadNil?
       && fs.code[|fs.code| - 1].a <= reg <= fs.code[|fs.code| - 1].b + 1 {
      NilWiden(env, fs0, fs, reg, at, s);
    } else if r == fs {
      assert fs.code == [];
    } else {
      EmitRun(env, fs, LoadNil(reg, reg), at, s);
    }
  }

  lemma NilWiden(env: Env, fs0: FS, fs: FS, reg: nat, at: nat, s: Regs)
    requires WF(fs) && Ext(fs0, fs) && Start(fs0, at, s) && reg < MAXSTACK
    requires Arrive(env, fs, at, s) != Wrong
    requires |fs.code| > fs.lasttarget && |fs.code| > 0 && fs.code[|fs.code| - 1].LoadNil?
    requires fs.code[|fs.code| - 1].a <= reg <= fs.code[|fs.code| - 1].b + 1
    ensures var o := Arrive(env, fs, at, s);
            var o' := Arrive(env, NilCode(fs, reg), at, s);
            if o.Fall? then o'.Fall? && o'.s[reg] == Nil && Agree(o.s, o'.s, MAXSTACK, reg) else o' == o
  {
    var last := fs.code[|fs.code| - 1];
    assert at < |fs.code|;
    var b := if reg > last.b then reg else last.b;
    WidenRun(env, fs.code, fs.pend, last.b, at, s);
    WidenRun(env, fs.code, fs.pend, b, at, s);
    assert fs.code[|fs.code| - 1 := last] == fs.code;
  }

  // ---- one value -------------------------------------------------------------------------------------

  lemma {:induction false} FindKIndex(ks: seq<Value>, v: Value)
    ensures v in ks ==> FindK(ks, v) < |ks| && ks[FindK(ks, v)] == v
    ensures v !in ks ==> FindK(ks, v) == |ks|
  {
    if ks != [] && ks[0] != v {
      FindKIndex(ks[1..], v);
      assert ks == [ks[0]] + ks[1..];
    }
  }

  /** addk: the constant is in the table under the index returned, and old constants stay. */
  lemma AddKIndex(fs: FS, v: Value)
    ensures var (r, i) := AddK(fs, v);
            fs.ks <= r.ks && i < |r.ks| && r.ks[i] == v && r == fs.(ks := r.ks, ok := r.ok)
  {
    FindKIndex(fs.ks, v);
  }

  // A well-formed descriptor stays so when the state is extended.
  lemma KeepLists(fs: FS, fs': FS, e: Exp, k: Kind)
    requires WFE(fs, e) && Ext(fs, fs') && !Suspended(e.(k := k)) && WFKind(fs', e.(k := k))
    ensures WFE(fs', e.(k := k))
  {
  }

  // The kinds discharge2reg still has to handle when variables are discharged.
  predicate Discharged(e: Exp) {
    !e.k.VLocal? && !e.k.VUpval?
  }

  lemma SetLastWF(fs: FS, e: Exp, reg: nat)
    requires WF(fs) && WFE(fs, e) && e.k.VReloc? && reg < MAXSTACK
    ensures var r := fs.(code := fs.code[e.k.pc := SetA(fs.code[e.k.pc], reg)]);
            WF(r) && Ext(fs, r) && WFE(r, e.(k := VNonReloc(reg)))
  {
  }

  lemma SetLastRun(env: Env, fs: FS, e: Exp, reg: nat, at: nat, s: Regs)
    requires WF(fs) && WFE(fs, e) && e.k.VReloc? && reg < MAXSTACK
    requires ArriveExp(env, fs, e, at, s) != Wrong
    ensures var r := fs.(code := fs.code[e.k.pc := SetA(fs.code[e.k.pc], reg)]);
            Arrive(env, r, at, s) == Then(env, SetA(fs.code[e.k.pc], reg), ArriveExp(env, fs, e, at, s))
  {
    var i := SetA(fs.code[e.k.pc], reg);
    var core := Core(fs, e);
    var r := fs.(code := fs.code[e.k.pc := i]);
    assert r.code == core + [i];
    assert forall j :: j in fs.pend ==> j < |core| by {
      assert fs.code[e.k.pc].Jmp? == false;
    }
    AppendRun(env, core, [i], fs.pend, fs.pend, at, s);
  }

  lemma LoadWF(fs: FS, e: Exp, i: Instr, reg: nat)
    requires WF(fs) && WFE(fs, e) && !Suspended(e) && reg < MAXSTACK
    requires Loads(i) && !(i.LoadBool? && i.skip)
    ensures WF(Emit(fs, i)) && Ext(fs, Emit(fs, i)) && WFE(Emit(fs, i), e.(k := VNonReloc(reg)))
    ensures Emit(fs, i).freereg == fs.freereg && Emit(fs, i).maxstack == fs.maxstack
  {
    EmitWF(fs, i);
    KeepLists(fs, Emit(fs, i), e, VNonReloc(reg));
  }

  lemma NumeralWF(fs: FS, e: Exp, reg: nat)
    requires WF(fs) && WFE(fs, e) && e.k.VKNum? && reg < MAXSTACK
    ensures var g := Discharge2Reg(fs, e, reg);
            && WF(g.fs) && Ext(fs, g.fs) && WFE(g.fs, g.e)
            && g.fs.freereg == fs.freereg && g.fs.maxstack == fs.maxstack
  {
    var (fs1, k) := AddK(fs, Number(Num(e.k.num)));
    AddKIndex(fs, Number(Num(e.k.num)));
    assert WFE(fs1, e);
    LoadWF(fs1, e, LoadK(reg, k), reg);
  }

  lemma Discharge2RegWF(fs: FS, e: Exp, reg: nat)
    requires WF(fs) && WFE(fs, e) && Discharged(e) && reg < MAXSTACK
    ensures var g := Discharge2Reg(fs, e, reg);
            && WF(g.fs) && Ext(fs, g.fs) && WFE(g.fs, g.e)
            && g.e == e.(k := if e.k.VJmp? then e.k else VNonReloc(reg))
            && g.fs.freereg == fs.freereg && g.fs.maxstack == fs.maxstack
  {
    hide Emit, NilCode, AddK, Discharge;
    match e.k
    case VNil => NilWF(fs, reg); KeepLists(fs, NilCode(fs, reg), e, VNonReloc(reg));
    case VFalse => LoadWF(fs, e, LoadBool(reg, false, false), reg);
    case VTrue => LoadWF(fs, e, LoadBool(reg, true, false), reg);
    case VK(k) => LoadWF(fs, e, LoadK(reg, k), reg);
    case VKNum(r) => NumeralWF(fs, e, reg);
    case VReloc(pc) => SetLastWF(fs, e, reg);
    case VNonReloc(r) => if reg != r { LoadWF(fs, e, Move(reg, r), reg); }
    case _ =>
  }

  // The value v of an outcome lands in register `reg` of the run o', and nothing else happens.
  ghost predicate Lands(o: Out, v: Outcome<Value>, reg: nat, o': Out) {
    if !o.Fall? then o' == o
    else match v
         case Got(w) => reg < MAXSTACK && o'.Fall? && o'.s[reg] == w && Agree(o.s, o'.s, MAXSTACK, reg)
         case Raise => o' == Fault
         case Bad => true
  }

  lemma LoadRun(env: Env, fs: FS, i: Instr, reg: nat, at: nat, s: Regs)
    requires WF(fs) && reg < MAXSTACK && Loads(i) && !(i.LoadBool? && i.skip) && i.a == reg
    requires Arrive(env, fs, at, s) != Wrong
    ensures var o := Arrive(env, fs, at, s);
            Lands(o, if o.Fall? then Computed(env, i, o.s) else Bad, reg, Arrive(env, Emit(fs, i), at, s))
  {
    EmitRun(env, fs, i, at, s);
  }

  lemma RelocRun(env: Env, fs: FS, e: Exp, reg: nat, at: nat, s: Regs)
    requires WF(fs) && WFE(fs, e) && e.k.VReloc? && reg < MAXSTACK && ArriveExp(env, fs, e, at, s) != Wrong
    ensures var o := ArriveExp(env, fs, e, at, s);
            Lands(o, if o.Fall? then Described(env, fs, e, o.s) else Bad, reg,
              Arrive(env, Discharge2Reg(fs, e, reg).fs, at, s))
  {
    hide Emit, NilCode, Discharge;
    SetLastRun(env, fs, e, reg, at, s);
  }

  lemma MoveRun(env: Env, fs: FS, e: Exp, reg: nat, at: nat, s: Regs)
    requires WF(fs) && WFE(fs, e) && e.k.VNonReloc? && reg < MAXSTACK && ArriveExp(env, fs, e, at, s) != Wrong
    ensures var o := ArriveExp(env, fs, e, at, s);
            Lands(o, if o.Fall? then Described(env, fs, e, o.s) else Bad, reg,
              Arrive(env, Discharge2Reg(fs, e, reg).fs, at, s))
  {
    hide Emit, NilCode, Discharge, Run;
    if reg != e.k.reg { LoadRun(env, fs, Move(reg, e.k.reg), reg, at, s); }
  }

  lemma NilLands(env: Env, fs0: FS, fs: FS, e: Exp, reg: nat, at: nat, s: Regs)
    requires WF(fs) && e.k.VNil? && reg < MAXSTACK && Ext(fs0, fs) && Start(fs0, at, s)
      && ArriveExp(env, fs, e, at, s) != Wrong
    ensures var o := ArriveExp(env, fs, e, at, s);
            Lands(o, if o.Fall? then Described(env, fs, e, o.s) else Bad, reg,
              Arrive(env, Discharge2Reg(fs, e, reg).fs, at, s))
  {
    hide Emit, NilCode, Discharge, Run;
    NilRun(env, fs0, fs, reg, at, s);
  }

  // What discharge2reg does to a run: nothing before the value, and then the value is in the register.
  lemma Discharge2RegRun(env: Env, fs0: FS, fs: FS, e: Exp, reg: nat, at: nat, s: Regs)
    requires WF(fs) && WFE(fs, e) && Discharged(e) && !e.k.VJmp? && reg < MAXSTACK
    requires Ext(fs0, fs) && Start(fs0, at, s)
    requires Discharge2Reg(fs, e, reg).fs.ks <= env.k
    requires ArriveExp(env, fs, e, at, s) != Wrong
    ensures var o := ArriveExp(env, fs, e, at, s);
            Lands(o, if o.Fall? then Described(env, fs, e, o.s) else Bad, reg,
              Arrive(env, Discharge2Reg(fs, e, reg).fs, at, s))
  {
    hide Emit, NilCode, Discharge, Run, Lands;
    match e.k
    case VNil => NilLands(env, fs0, fs, e, reg, at, s);
    case VFalse => LoadRun(env, fs, LoadBool(reg, false, false), reg, at, s);
    case VTrue => LoadRun(env, fs, LoadBool(reg, true, false), reg, at, s);
    case VK(k) => LoadRun(env, fs, LoadK(reg, k), reg, at, s);
    case VKNum(r) =>
      AddKIndex(fs, Number(Num(r)));
      var (fs1, k) := AddK(fs, Number(Num(r)));
      LoadRun(env, fs1, LoadK(reg, k), reg, at, s);
    case VReloc(pc) => RelocRun(env, fs, e, reg, at, s);
    case VNonReloc(r) => MoveRun(env, fs, e, reg, at, s);
    case _ =>
  }
}
