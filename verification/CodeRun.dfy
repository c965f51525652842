/** Runs of code that is being edited */
module CodeRun {
  // How the elementary edits of the generator (append, patch, drop values, widen a LOADNIL) change what a forward
  // run of the code does.  Each lemma is about every starting point and every register contents.

  import opened LuaVM
  import opened CodeGen

  // ---- append ----------------------------------------------------------------------------------------

  /** Code put behind existing code only matters to runs that fall through to it. */
  lemma {:induction false} AppendRun(env: Env, code: seq<Instr>, tail: seq<Instr>, pend: set<nat>, pend': set<nat>,
    pc: nat, s: Regs)
    requires |code| !in pend
    requires forall j: nat :: j < |code| ==> (j in pend <==> j in pend')
    requires Run(env, code, pend, pc, s) != Wrong
    ensures Run(env, code + tail, pend', pc, s) ==
            match Run(env, code, pend, pc, s)
            case Fall(t) => Run(env, code + tail, pend', |code|, t)
            case o => o
    decreases |code| - pc
  {
    var all := code + tail;
    if pc < |code| {
      var i := code[pc];
      if i.Jmp? {
        if pc !in pend { AppendRun(env, code, tail, pend, pend', pc + 1 + i.sbx, s); }
      } else if IsTest(i) {
        if Taken(env, i, s).Got? {
          if !Taken(env, i, s).r {
            AppendRun(env, code, tail, pend, pend', pc + 2, s);
          } else if pc + 1 !in pend {
            AppendRun(env, code, tail, pend, pend', pc + 2 + code[pc + 1].sbx, AfterTaken(i, s).r);
          }
        }
      } else if Simple(env, i, s).Got? {
        AppendRun(env, code, tail, pend, pend', pc + (if i.LoadBool? && i.skip then 2 else 1), Simple(env, i, s).r);
      }
    }
  }

  // A run stops only at pending jumps of its code.
  lemma {:induction false} ExitPending(env: Env, code: seq<Instr>, pend: set<nat>, pc: nat, s: Regs)
    requires Run(env, code, pend, pc, s).Exit?
    ensures Run(env, code, pend, pc, s).j in pend && Run(env, code, pend, pc, s).j <= |code|
    decreases |code| - pc
  {
    if pc < |code| {
      var i := code[pc];
      if i.Jmp? {
        if pc !in pend { ExitPending(env, code, pend, pc + 1 + i.sbx, s); }
      } else if IsTest(i) {
        if !Taken(env, i, s).r { ExitPending(env, code, pend, pc + 2, s); }
        else if pc + 1 !in pend { ExitPending(env, code, pend, pc + 2 + code[pc + 1].sbx, AfterTaken(i, s).r); }
      } else {
        ExitPending(env, code, pend, pc + (if i.LoadBool? && i.skip then 2 else 1), Simple(env, i, s).r);
      }
    }
  }

  /** A run that meets no pending jump is the same run when nothing is pending. */
  lemma {:induction false} PendingUnmet(env: Env, code: seq<Instr>, pend: set<nat>, pc: nat, s: Regs)
    requires Run(env, code, pend, pc, s).Fall? || Run(env, code, pend, pc, s).Fault?
    ensures Run(env, code, {}, pc, s) == Run(env, code, pend, pc, s)
    decreases |code| - pc
  {
    if pc < |code| {
      var i := code[pc];
      if i.Jmp? {
        PendingUnmet(env, code, pend, pc + 1 + i.sbx, s);
      } else if IsTest(i) {
        if Taken(env, i, s).Got? {
          if !Taken(env, i, s).r { PendingUnmet(env, code, pend, pc + 2, s); }
          else { PendingUnmet(env, code, pend, pc + 2 + code[pc + 1].sbx, AfterTaken(i, s).r); }
        }
      } else if Simple(env, i, s).Got? {
        PendingUnmet(env, code, pend, pc + (if i.LoadBool? && i.skip then 2 else 1), Simple(env, i, s).r);
      }
    }
  }

  // ---- patching --------------------------------------------------------------------------------------

  // What a patched jump does to the registers on its way.
  function Carried(code: seq<Instr>, j: nat, reg: nat, s: Regs): Regs {
    if SetControl(code, j) && reg != NO_REG && reg < MAXSTACK && code[j - 1].b < MAXSTACK
    then s[reg := s[code[j - 1].b]]
    else s
  }

  predicate Patchable(code: seq<Instr>, pend: set<nat>, list: seq<nat>, vtarget: nat, dtarget: nat) {
    forall j :: j in list ==> j in pend && j < |code| && code[j].Jmp? && j < Dest(code, j, vtarget, dtarget) <= |code|
  }

  // How patching changes the instruction at pc.
  lemma PatchedInstr(env: Env, code: seq<Instr>, pend: set<nat>, list: seq<nat>, vtarget: nat, reg: nat, dtarget: nat,
    pc: nat, s: Regs)
    requires Patchable(code, pend, list, vtarget, dtarget)
    ensures var code' := PatchCode(code, list, vtarget, reg, dtarget);
            && |code'| == |code| && Half(code', pc) == Half(code, pc)
            && (pc < |code| ==>
                 && (IsTest(code[pc]) ==> IsTest(code'[pc]) && Taken(env, code'[pc], s) == Taken(env, code[pc], s))
                 && (!IsTest(code[pc]) && pc !in list ==> code'[pc] == code[pc])
                 && (pc in list ==> code'[pc] == Jmp(Dest(code, pc, vtarget, dtarget) - (pc + 1))))
  {
    var code' := PatchCode(code, list, vtarget, reg, dtarget);
    if pc < |code| { assert code'[pc] == PatchAt(code, list, vtarget, reg, dtarget, pc); }
    if 0 < pc <= |code| { assert code'[pc - 1] == PatchAt(code, list, vtarget, reg, dtarget, pc - 1); }
  }

  // What patching makes of a run that ends as o.
  function Sent(env: Env, code: seq<Instr>, code': seq<Instr>, pend': set<nat>, list: seq<nat>, vtarget: nat,
    reg: nat, dtarget: nat, o: Out): Out {
    if o.Exit? && o.j in list
    then Run(env, code', pend', Dest(code, o.j, vtarget, dtarget), Carried(code, o.j, reg, o.s))
    else o
  }

  /** Patching a list sends exactly its jumps on, each to its own destination; every other run ends as it
      did. */
  lemma {:induction false} PatchRun(env: Env, code: seq<Instr>, pend: set<nat>, list: seq<nat>,
                                    vtarget: nat, reg: nat, dtarget: nat, pc: nat, s: Regs)
    requires Patchable(code, pend, list, vtarget, dtarget)
    requires reg == NO_REG || reg < MAXSTACK
    ensures var code' := PatchCode(code, list, vtarget, reg, dtarget);
            var pend' := pend - ToSet(list);
            Run(env, code', pend', pc, s) == Sent(env, code, code', pend', list, vtarget, reg, dtarget,
              Run(env, code, pend, pc, s))
    decreases |code| - pc
  {
    hide PatchCode, Sent;
    var code' := PatchCode(code, list, vtarget, reg, dtarget);
    var pend' := pend - ToSet(list);
    PatchedInstr(env, code, pend, list, vtarget, reg, dtarget, pc, s);
    if pc < |code| && !Half(code, pc) {
      var i := code[pc];
      if i.Jmp? {
        SentExit(env, code, code', pend', list, vtarget, reg, dtarget, pc, s);
        if pc !in pend && pc < pc + 1 + i.sbx <= |code| {
          PatchRun(env, code, pend, list, vtarget, reg, dtarget, pc + 1 + i.sbx, s);
        }
      } else if IsTest(i) {
        PatchTestRun(env, code, pend, list, vtarget, reg, dtarget, pc, s);
      } else if Simple(env, i, s).Got? {
        PatchRun(env, code, pend, list, vtarget, reg, dtarget, pc + (if i.LoadBool? && i.skip then 2 else 1),
          Simple(env, i, s).r);
      }
    }
    SentEnds(env, code, code', pend', list, vtarget, reg, dtarget);
  }

  lemma SentEnds(env: Env, code: seq<Instr>, code': seq<Instr>, pend': set<nat>, list: seq<nat>, vtarget: nat,
    reg: nat, dtarget: nat)
    ensures Sent(env, code, code', pend', list, vtarget, reg, dtarget, Wrong) == Wrong
    ensures Sent(env, code, code', pend', list, vtarget, reg, dtarget, Fault) == Fault
    ensures forall t :: Sent(env, code, code', pend', list, vtarget, reg, dtarget, Fall(t)) == Fall(t)
  {
  }

  lemma SentExit(env: Env, code: seq<Instr>, code': seq<Instr>, pend': set<nat>, list: seq<nat>, vtarget: nat,
    reg: nat, dtarget: nat, j: nat, s: Regs)
    ensures Sent(env, code, code', pend', list, vtarget, reg, dtarget, Exit(j, s)) ==
            if j in list
            then Run(env, code', pend', Dest(code, j, vtarget, dtarget), Carried(code, j, reg, s))
            else Exit(j, s)
  {
  }

  lemma {:induction false} PatchTestRun(env: Env, code: seq<Instr>, pend: set<nat>, list: seq<nat>,
                                        vtarget: nat, reg: nat, dtarget: nat, pc: nat, s: Regs)
    requires Patchable(code, pend, list, vtarget, dtarget)
    requires reg == NO_REG || reg < MAXSTACK
    requires pc < |code| && !Half(code, pc) && IsTest(code[pc])
    ensures var code' := PatchCode(code, list, vtarget, reg, dtarget);
            var pend' := pend - ToSet(list);
            Run(env, code', pend', pc, s) == Sent(env, code, code', pend', list, vtarget, reg, dtarget,
              Run(env, code, pend, pc, s))
    decreases |code| - pc, 0
  {
    hide PatchCode, Sent;
    var code' := PatchCode(code, list, vtarget, reg, dtarget);
    var pend' := pend - ToSet(list);
    var i := code[pc];
    PatchedInstr(env, code, pend, list, vtarget, reg, dtarget, pc, s);
    if Taken(env, i, s).Got? {
      if !Taken(env, i, s).r {
        PatchRun(env, code, pend, list, vtarget, reg, dtarget, pc + 2, s);
      } else if pc + 1 !in pend {
        UnpatchedTest(env, code, pend, list, vtarget, reg, dtarget, pc, s);
        var d := pc + 2 + (if pc + 1 < |code| && code[pc + 1].Jmp? then code[pc + 1].sbx else 0);
        if pc < d <= |code| && AfterTaken(i, s).Got? {
          PatchRun(env, code, pend, list, vtarget, reg, dtarget, d, AfterTaken(i, s).r);
        }
      } else {
        SentExit(env, code, code', pend', list, vtarget, reg, dtarget, pc + 1, s);
        if pc + 1 in list { PatchedTest(env, code, pend, list, vtarget, reg, dtarget, pc, s); }
      }
    }
    SentEnds(env, code, code', pend', list, vtarget, reg, dtarget);
  }

  // A taken test whose jump has a destination already.
  lemma UnpatchedTest(env: Env, code: seq<Instr>, pend: set<nat>, list: seq<nat>,
                      vtarget: nat, reg: nat, dtarget: nat, pc: nat, s: Regs)
    requires Patchable(code, pend, list, vtarget, dtarget)
    requires pc < |code| && IsTest(code[pc]) && pc + 1 !in pend
    ensures var code' := PatchCode(code, list, vtarget, reg, dtarget);
            && code'[pc] == code[pc]
            && (pc + 1 < |code| && code[pc + 1].Jmp? ==> code'[pc + 1] == code[pc + 1])
            && (pc + 1 < |code| && !code[pc + 1].Jmp? ==> !code'[pc + 1].Jmp?)
  {
  }

  // A taken test whose jump is patched.
  lemma PatchedTest(env: Env, code: seq<Instr>, pend: set<nat>, list: seq<nat>,
                    vtarget: nat, reg: nat, dtarget: nat, pc: nat, s: Regs)
    requires Patchable(code, pend, list, vtarget, dtarget)
    requires reg == NO_REG || reg < MAXSTACK
    requires pc < |code| && !Half(code, pc) && IsTest(code[pc]) && Taken(env, code[pc], s) == Got(true)
      && pc + 1 in list
    ensures var code' := PatchCode(code, list, vtarget, reg, dtarget);
            Run(env, code', pend - ToSet(list), pc, s) ==
            Run(env, code', pend - ToSet(list), Dest(code, pc + 1, vtarget, dtarget), Carried(code, pc + 1, reg, s))
  {
    var code' := PatchCode(code, list, vtarget, reg, dtarget);
    var i, i' := code[pc], code'[pc];
    assert i' == PatchAt(code, list, vtarget, reg, dtarget, pc);
    assert code'[pc + 1] == Jmp(Dest(code, pc + 1, vtarget, dtarget) - (pc + 2));
    assert i.TestSet? ==> s[i.b := s[i.b]] == s;
    assert AfterTaken(i', s) == Got(Carried(code, pc + 1, reg, s));
    assert Half(code', pc) == Half(code, pc) by {
      if pc > 0 { assert code'[pc - 1] == PatchAt(code, list, vtarget, reg, dtarget, pc - 1); }
    }
  }

  // ---- dropping values -------------------------------------------------------------------------------

  /** Turning pending TESTSETs into TESTs does not change where a run stops. */
  lemma {:induction false} RemoveRun(env: Env, code: seq<Instr>, pend: set<nat>, list: seq<nat>, pc: nat, s: Regs)
    requires forall j :: j in list ==> j in pend
    ensures Run(env, RemoveCode(code, list), pend, pc, s) == Run(env, code, pend, pc, s)
    decreases |code| - pc
  {
    var code' := RemoveCode(code, list);
    if pc < |code| && !Half(code, pc) {
      var i := code[pc];
      assert code'[pc] == RemoveAt(code, list, pc);
      if i.Jmp? {
        if pc !in pend && pc < pc + 1 + i.sbx <= |code| { RemoveRun(env, code, pend, list, pc + 1 + i.sbx, s); }
      } else if IsTest(i) {
        assert Taken(env, code'[pc], s) == Taken(env, i, s);
        if Taken(env, i, s).Got? {
          if !Taken(env, i, s).r {
            RemoveRun(env, code, pend, list, pc + 2, s);
          } else if pc + 1 !in pend && pc + 1 < |code| && code[pc + 1].Jmp? && AfterTaken(i, s).Got? {
            var d := pc + 2 + code[pc + 1].sbx;
            assert code'[pc + 1] == code[pc + 1] && code'[pc] == i;
            if pc < d <= |code| { RemoveRun(env, code, pend, list, d, AfterTaken(i, s).r); }
          }
        }
      } else if Simple(env, i, s).Got? {
        RemoveRun(env, code, pend, list, pc + (if i.LoadBool? && i.skip then 2 else 1), Simple(env, i, s).r);
      }
    }
  }

  // ---- widening the last LOADNIL ---------------------------------------------------------------------

  // A jump follows every test.
  predicate Paired(code: seq<Instr>) {
    forall q: nat :: q < |code| && IsTest(code[q]) ==> q + 1 < |code| && code[q + 1].Jmp?
  }

  // Every jump with a destination, and every skip, lands at or before `limit`.
  predicate TargetsUpTo(code: seq<Instr>, pend: set<nat>, limit: int) {
    forall q: nat :: q < |code| ==>
      && (code[q].Jmp? && q !in pend ==> q + 1 + code[q].sbx <= limit)
      && (code[q].LoadBool? && code[q].skip ==> q + 2 <= limit)
  }

  function Widened(o: Out, a: nat, b: nat): Out
    requires a <= b < MAXSTACK
  {
    if o.Fall? then Fall(SetNils(o.s, a, b)) else o
  }

  /** If nothing jumps behind a final LOADNIL, letting it clear more registers only adds that to every run
      that falls through. */
  lemma {:induction false} WidenRun(env: Env, code: seq<Instr>, pend: set<nat>, b: nat, pc: nat, s: Regs)
    requires pc < |code| && code[|code| - 1].LoadNil?
    requires code[|code| - 1].a <= code[|code| - 1].b <= b < MAXSTACK
    requires Paired(code) && TargetsUpTo(code, pend, |code| - 1)
    ensures var last := code[|code| - 1];
            Run(env, code[|code| - 1 := LoadNil(last.a, b)], pend, pc, s) ==
            Widened(Run(env, code, pend, pc, s), last.a, b)
    decreases |code| - pc
  {
    var n := |code| - 1;
    var last := code[n];
    var code' := code[n := LoadNil(last.a, b)];
    if !Half(code, pc) {
      if pc == n {
        assert SetNils(SetNils(s, last.a, last.b), last.a, b) == SetNils(s, last.a, b);
      } else {
        WidenBefore(env, code, pend, b, pc, s);
      }
    }
  }

  lemma WidenBefore(env: Env, code: seq<Instr>, pend: set<nat>, b: nat, pc: nat, s: Regs)
    requires pc < |code| - 1 && code[|code| - 1].LoadNil? && !Half(code, pc)
    requires code[|code| - 1].a <= code[|code| - 1].b <= b < MAXSTACK
    requires Paired(code) && TargetsUpTo(code, pend, |code| - 1)
    ensures var last := code[|code| - 1];
            Run(env, code[|code| - 1 := LoadNil(last.a, b)], pend, pc, s) ==
            Widened(Run(env, code, pend, pc, s), last.a, b)
    decreases |code| - pc, 0
  {
    var n := |code| - 1;
    var last := code[n];
    var code' := code[n := LoadNil(last.a, b)];
    var i := code[pc];
    if i.Jmp? {
      if pc !in pend && pc < pc + 1 + i.sbx { WidenRun(env, code, pend, b, pc + 1 + i.sbx, s); }
    } else if IsTest(i) {
      if Taken(env, i, s).Got? {
        if !Taken(env, i, s).r {
          WidenRun(env, code, pend, b, pc + 2, s);
        } else if pc + 1 !in pend && code[pc + 1].Jmp? && AfterTaken(i, s).Got? {
          var d := pc + 2 + code[pc + 1].sbx;
          if pc < d { WidenRun(env, code, pend, b, d, AfterTaken(i, s).r); }
        }
      }
    } else if Simple(env, i, s).Got? {
      WidenRun(env, code, pend, b, pc + (if i.LoadBool? && i.skip then 2 else 1), Simple(env, i, s).r);
    }
  }
}
