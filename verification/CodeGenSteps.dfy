/** The elementary steps of the generator keep its state well formed and act on runs as one instruction. */
module CodeGenSteps {
  import opened LuaVM
  import opened CodeGen
  import opened CodeRun
  import opened CodeGenState

  lemma DischargeWF(fs: FS)
    requires WF(fs)
    ensures WF(Discharge(fs)) && Ext(fs, Discharge(fs)) && Discharge(fs).jpc == []
    ensures |Discharge(fs).code| == |fs.code|
  {
    var d := Discharge(fs);
    if fs.jpc != [] {
      assert forall i: nat :: i < |fs.code| ==> d.code[i] == PatchAt(fs.code, fs.jpc, fs.Pc(), NO_REG, fs.Pc(), i);
      assert forall j :: j in d.pend <==> j in fs.pend && j !in fs.jpc;
    }
  }

  lemma DischargeRun(env: Env, fs: FS, at: nat, s: Regs)
    requires WF(fs)
    ensures Run(env, Discharge(fs).code, Discharge(fs).pend, at, s) == Arrive(env, fs, at, s)
  {
    DischargeWF(fs);
    if fs.jpc != [] {
      PatchRun(env, fs.code, fs.pend, fs.jpc, fs.Pc(), NO_REG, fs.Pc(), at, s);
    }
  }

  lemma EmitWF(fs: FS, i: Instr)
    requires WF(fs) && !i.Jmp? && !IsTest(i) && !(i.LoadBool? && i.skip) && NilFits(i)
    ensures WF(Emit(fs, i)) && Ext(fs, Emit(fs, i))
    ensures Emit(fs, i).code[..|fs.code|] == Discharge(fs).code
  {
    DischargeWF(fs);
  }

  // What one more instruction does to a run that arrives in front of it.
  function Then(env: Env, i: Instr, o: Out): Out {
    if !o.Fall? then o
    else match Simple(env, i, o.s) case Got(t) => Fall(t) case Raise => Fault case Bad => Wrong
  }

  lemma EmitRun(env: Env, fs: FS, i: Instr, at: nat, s: Regs)
    requires WF(fs) && !i.Jmp? && !IsTest(i) && !(i.LoadBool? && i.skip)
    requires Arrive(env, fs, at, s) != Wrong
    ensures Arrive(env, Emit(fs, i), at, s) == Then(env, i, Arrive(env, fs, at, s))
  {
    DischargeWF(fs);
    DischargeRun(env, fs, at, s);
    var d := Discharge(fs);
    AppendRun(env, d.code, [i], d.pend, d.pend, at, s);
  }

  // An instruction whose register is still open leaves runs of the code before it alone.
  lemma EmitCore(env: Env, fs: FS, i: Instr, e: Exp, at: nat, s: Regs)
    requires WF(fs) && e.k == VReloc(|fs.code|) && !i.Jmp? && !IsTest(i) && !(i.LoadBool? && i.skip)
    ensures ArriveExp(env, Emit(fs, i), e, at, s) == Arrive(env, fs, at, s)
  {
    DischargeWF(fs);
    DischargeRun(env, fs, at, s);
    var d := Discharge(fs);
    assert Core(Emit(fs, i), e) == d.code;
  }

  lemma DischargeSame(fs: FS)
    ensures var d := Discharge(fs);
            d.freereg == fs.freereg && d.ks == fs.ks && d.maxstack == fs.maxstack && d.nactvar == fs.nactvar
              && d.ops == fs.ops
  {
  }

  lemma CondJumpWF(fs: FS, i: Instr)
    requires WF(fs) && IsTest(i)
    ensures var r := CondJump(fs, i);
            && WF(r) && Ext(fs, r) && r.jpc == []
            && r.code == Discharge(fs).code + [i, Jmp(NO_JUMP)]
            && r.pend == Discharge(fs).pend + {|fs.code| + 1}
            && r.lasttarget <= |fs.code|
            && r.freereg == fs.freereg && r.ks == fs.ks && r.maxstack == fs.maxstack
  {
    hide Discharge;
    DischargeSame(fs);
    DischargeWF(fs);
    var d := Discharge(fs);
    var r := CondJump(fs, i);
    assert r.code == d.code + [i, Jmp(NO_JUMP)];
  }

  // What a test with a pending jump j does to a run that arrives in front of it.
  function ThenJump(env: Env, i: Instr, j: nat, o: Out): Out
    requires IsTest(i)
  {
    if !o.Fall? then o
    else
      match Taken(env, i, o.s)
      case Got(b) => if b then Exit(j, o.s) else Fall(o.s)
      case Raise => Fault
      case Bad => Wrong
  }

  lemma CondJumpRun(env: Env, fs: FS, i: Instr, at: nat, s: Regs)
    requires WF(fs) && IsTest(i)
    requires Arrive(env, fs, at, s) != Wrong
    ensures Arrive(env, CondJump(fs, i), at, s) == ThenJump(env, i, |fs.code| + 1, Arrive(env, fs, at, s))
  {
    DischargeWF(fs);
    DischargeRun(env, fs, at, s);
    CondJumpWF(fs, i);
    var d := Discharge(fs);
    var r := CondJump(fs, i);
    AppendRun(env, d.code, [i, Jmp(NO_JUMP)], d.pend, r.pend, at, s);
    assert r.code[|d.code|] == i;
  }

  lemma CondJumpCore(env: Env, fs: FS, i: Instr, e: Exp, at: nat, s: Regs)
    requires WF(fs) && IsTest(i) && e.k == VJmp(|fs.code| + 1)
    requires Arrive(env, fs, at, s) != Wrong
    ensures ArriveExp(env, CondJump(fs, i), e, at, s) == Arrive(env, fs, at, s)
  {
    hide CondJump;
    DischargeWF(fs);
    DischargeRun(env, fs, at, s);
    CondJumpWF(fs, i);
    var d := Discharge(fs);
    var r := CondJump(fs, i);
    assert Core(r, e) == d.code;
    AppendRun(env, d.code, [], d.pend, r.pend, at, s);
    assert d.code + [] == d.code;
  }
}
