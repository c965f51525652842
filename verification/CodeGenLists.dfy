/** The end of exp2reg: where the jumps that leave an expression meet */
module CodeGenLists {
  // The jumps that leave an expression are brought together behind it, each with its value in the target register.

  import opened LuaVM
  import opened CodeGen
  import opened CodeRun
  import opened CodeGenState
  import opened CodeGenSteps
  import opened CodeGenReg

  // Jumps of the list `l` can get the truth value `b` from the LOADBOOL at `d`, or carry their own value.
  ghost predicate Loadable(code: seq<Instr>, pend: set<nat>, l: seq<nat>, reg: nat, d: nat, b: bool) {
    && (forall j :: j in l ==> j in pend && 0 < j < |code| && code[j].Jmp? && IsTest(code[j - 1]))
    && (NeedValue(code, l) ==>
         && d < |code| && code[d] == LoadBool(reg, b, !b) && d + (if b then 1 else 2) == |code| && !Half(code, d)
         && (forall j :: j in l ==> j < d))
  }

  // Where a run ends after the lists f and t are patched behind the expression.
  function Joined(code: seq<Instr>, f: seq<nat>, t: seq<nat>, reg: nat, o: Out): Out
    requires reg < MAXSTACK
  {
    if o.Exit? && (o.j in f || o.j in t) then
      Fall(if SetControl(code, o.j) then Carried(code, o.j, reg, o.s) else o.s[reg := Bool(o.j in t)])
    else o
  }

  // The LOADBOOL at d gives the jumps that carry nothing their value.
  lemma LoadsAfterPatch(env: Env, code: seq<Instr>, code': seq<Instr>, pend': set<nat>, reg: nat, d: nat, b: bool,
    s: Regs)
    requires |code'| == |code| && d < |code| && code'[d] == LoadBool(reg, b, !b) && d + (if b then 1 else 2) == |code|
    requires !Half(code', d) && !Half(code', |code|) && reg < MAXSTACK
    ensures Run(env, code', pend', d, s) == Fall(s[reg := Bool(b)])
  {
    assert Simple(env, code'[d], s) == Got(s[reg := Bool(b)]);
    assert Run(env, code', pend', |code|, s[reg := Bool(b)]) == Fall(s[reg := Bool(b)]);
  }

  lemma PatchOne(env: Env, code: seq<Instr>, pend: set<nat>, l: seq<nat>, reg: nat, d: nat, b: bool, at: nat, s: Regs)
    requires Loadable(code, pend, l, reg, d, b) && Paired(code) && reg < MAXSTACK
    ensures var o := Run(env, code, pend, at, s);
            Run(env, PatchCode(code, l, |code|, reg, d), pend - ToSet(l), at, s) ==
            if b then Joined(code, [], l, reg, o) else Joined(code, l, [], reg, o)
  {
    PatchRun(env, code, pend, l, |code|, reg, d, at, s);
    var code' := PatchCode(code, l, |code|, reg, d);
    var o := Run(env, code, pend, at, s);
    if o.Exit? && o.j in l {
      PatchShape(code, l, |code|, reg, d);
      assert !Half(code', |code|);
      if !SetControl(code, o.j) {
        assert NeedValue(code, l) && d !in l && d + 1 !in l;
        LoadsAfterPatch(env, code, code', pend - ToSet(l), reg, d, b, o.s);
      }
    }
  }

  // Patching keeps tests and jumps where they are.
  lemma PatchShape(code: seq<Instr>, l: seq<nat>, v: nat, reg: nat, d: nat)
    requires forall j :: j in l ==> j < |code| && code[j].Jmp?
    ensures var code' := PatchCode(code, l, v, reg, d);
            && |code'| == |code|
            && forall i: nat :: i < |code| ==>
                 code'[i] == PatchAt(code, l, v, reg, d, i) && (IsTest(code'[i]) <==> IsTest(code[i]))
  {
  }

  // Patching one list leaves the other, and its LOADBOOL, alone.
  lemma PatchKeeps(code: seq<Instr>, pend: set<nat>, f: seq<nat>, t: seq<nat>, reg: nat, pf: nat, pt: nat)
    requires Paired(code)
    requires Loadable(code, pend, f, reg, pf, false) && Loadable(code, pend, t, reg, pt, true)
    requires forall j :: j in f ==> j !in t
    ensures var code1 := PatchCode(code, f, |code|, reg, pf);
            && Paired(code1) && |code1| == |code| && Loadable(code1, pend - ToSet(f), t, reg, pt, true)
            && (forall j :: j in t ==> code1[j - 1] == code[j - 1])
  {
    var code1 := PatchCode(code, f, |code|, reg, pf);
    PatchShape(code, f, |code|, reg, pf);
    assert forall j :: j in t ==> code1[j - 1] == code[j - 1] && code1[j] == code[j];
    if NeedValue(code1, t) {
      assert NeedValue(code, t);
      assert code1[pt] == code[pt];
    }
  }

  lemma JoinedTwice(code: seq<Instr>, code1: seq<Instr>, f: seq<nat>, t: seq<nat>, reg: nat, o: Out)
    requires reg < MAXSTACK && |code1| == |code|
    requires forall j :: j in f ==> j !in t
    requires forall j :: j in t ==> 0 < j < |code| && code1[j - 1] == code[j - 1]
    ensures Joined(code1, [], t, reg, Joined(code, f, [], reg, o)) == Joined(code, f, t, reg, o)
  {
  }

  /** Both lists patched: each jump falls through behind the expression with its value in `reg`. */
  lemma PatchBoth(env: Env, code: seq<Instr>, pend: set<nat>, f: seq<nat>, t: seq<nat>, reg: nat, pf: nat, pt: nat,
    at: nat, s: Regs)
    requires Paired(code) && reg < MAXSTACK
    requires Loadable(code, pend, f, reg, pf, false) && Loadable(code, pend, t, reg, pt, true)
    requires forall j :: j in f ==> j !in t
    ensures var code1 := PatchCode(code, f, |code|, reg, pf);
            var code2 := PatchCode(code1, t, |code|, reg, pt);
            Run(env, code2, pend - ToSet(f) - ToSet(t), at, s) == Joined(code, f, t, reg, Run(env, code, pend, at, s))
  {
    var code1 := PatchCode(code, f, |code|, reg, pf);
    PatchKeeps(code, pend, f, t, reg, pf, pt);
    PatchOne(env, code, pend, f, reg, pf, false, at, s);
    PatchOne(env, code1, pend - ToSet(f), t, reg, pt, true, at, s);
    JoinedTwice(code, code1, f, t, reg, Run(env, code, pend, at, s));
  }

  // ---- the LOADBOOL pair -----------------------------------------------------------------------------

  function PairTail(reg: nat, skip: bool): seq<Instr> {
    (if skip then [Jmp(NO_JUMP)] else []) + [LoadBool(reg, false, true), LoadBool(reg, true, false)]
  }

  lemma LoadPairCode(fs: FS, reg: nat, skip: bool)
    requires skip || fs.jpc == []
    ensures var r := LoadPair(fs, reg, skip);
            && r.code == fs.code + PairTail(reg, skip)
            && r.pend == (if skip then fs.pend + {|fs.code|} else fs.pend)
            && r.jpc == (if skip then [|fs.code|] + fs.jpc else [])
            && r.lasttarget == |r.code|
            && r == fs.(code := r.code, pend := r.pend, jpc := r.jpc, lasttarget := r.lasttarget, ok := r.ok)
  {
  }

  lemma PairedAppend(code: seq<Instr>, tail: seq<Instr>)
    requires Paired(code) && forall i :: i in tail ==> !IsTest(i)
    ensures Paired(code + tail)
  {
  }

  lemma TargetsAppend(code: seq<Instr>, tail: seq<Instr>, pend: set<nat>, pend': set<nat>, limit: int, limit': int)
    requires TargetsUpTo(code, pend, limit) && limit <= limit' && pend <= pend'
    requires forall j :: j in pend' && j < |code| ==> j in pend
    requires forall k: nat :: k < |tail| ==>
      && (tail[k].Jmp? ==> |code| + k in pend')
      && (tail[k].LoadBool? && tail[k].skip ==> |code| + k + 2 <= limit')
    ensures TargetsUpTo(code + tail, pend', limit')
  {
  }

  lemma LoadPairWF(fs: FS, reg: nat, skip: bool)
    requires WF(fs) && (skip || fs.jpc == [])
    ensures WF(LoadPair(fs, reg, skip))
  {
    hide LoadPair, CloseLists;
    LoadPairCode(fs, reg, skip);
    var r := LoadPair(fs, reg, skip);
    var tail := PairTail(reg, skip);
    PairedAppend(fs.code, tail);
    TargetsAppend(fs.code, tail, fs.pend, r.pend, fs.lasttarget, r.lasttarget);
  }

  lemma LoadPairExt(fs: FS, reg: nat, skip: bool)
    requires WF(fs) && (skip || fs.jpc == [])
    ensures Ext(fs, LoadPair(fs, reg, skip))
    ensures forall q: nat :: q < |fs.code| ==> LoadPair(fs, reg, skip).code[q] == fs.code[q]
  {
    hide LoadPair, CloseLists;
    LoadPairCode(fs, reg, skip);
    var r := LoadPair(fs, reg, skip);
    assert forall q: nat :: q < |fs.code| ==> r.code[q] == fs.code[q];
    assert skip ==> |fs.code| !in fs.pend;
  }

  // Code in which a run falls through does not end in the middle of a test and its jump.
  lemma {:induction false} FallEnd(env: Env, code: seq<Instr>, pend: set<nat>, pc: nat, s: Regs)
    requires Run(env, code, pend, pc, s).Fall?
    ensures !Half(code, |code|)
    decreases |code| - pc
  {
    if pc < |code| {
      var i := code[pc];
      if i.Jmp? {
        FallEnd(env, code, pend, pc + 1 + i.sbx, s);
      } else if IsTest(i) {
        if Taken(env, i, s).r { FallEnd(env, code, pend, pc + 2 + code[pc + 1].sbx, AfterTaken(i, s).r); }
        else { FallEnd(env, code, pend, pc + 2, s); }
      } else {
        FallEnd(env, code, pend, pc + (if i.LoadBool? && i.skip then 2 else 1), Simple(env, i, s).r);
      }
    }
  }

  // The pair, entered from the front.
  lemma PairRun(env: Env, code: seq<Instr>, reg: nat, skip: bool, pend: set<nat>, t: Regs)
    requires reg < MAXSTACK && !Half(code, |code|) && (skip ==> |code| in pend)
    ensures Run(env, code + PairTail(reg, skip), pend, |code|, t) ==
            if skip then Exit(|code|, t) else Fall(t[reg := Bool(false)])
  {
    var all := code + PairTail(reg, skip);
    assert all[|code|] == PairTail(reg, skip)[0];
    assert !Half(all, |code|);
    if !skip {
      assert all[|code| + 1] == LoadBool(reg, true, false);
      assert Run(env, all, pend, |code| + 2, t[reg := Bool(false)]) == Fall(t[reg := Bool(false)]);
    }
  }

  lemma LoadPairRun(env: Env, fs: FS, reg: nat, skip: bool, at: nat, s: Regs)
    requires WF(fs) && (skip || fs.jpc == []) && reg < MAXSTACK
    requires Run(env, fs.code, fs.pend, at, s) != Wrong
    ensures var r := LoadPair(fs, reg, skip);
            Run(env, r.code, r.pend, at, s) ==
            match Run(env, fs.code, fs.pend, at, s)
            case Fall(t) => if skip then Exit(|fs.code|, t) else Fall(t[reg := Bool(false)])
            case o => o
  {
    LoadPairCode(fs, reg, skip);
    var r := LoadPair(fs, reg, skip);
    AppendRun(env, fs.code, PairTail(reg, skip), fs.pend, r.pend, at, s);
    var o := Run(env, fs.code, fs.pend, at, s);
    if o.Fall? {
      FallEnd(env, fs.code, fs.pend, at, s);
      PairRun(env, fs.code, reg, skip, r.pend, o.s);
    }
  }

  lemma PatchWF(fs: FS, l: seq<nat>, reg: nat, d: nat)
    requires WF(fs) && fs.lasttarget == |fs.code| && d <= |fs.code|
    requires forall j :: j in l ==> Controlled(fs, j)
    ensures var r := Patch(fs, l, fs.Pc(), reg, d);
            && WF(r) && |r.code| == |fs.code| && r.lasttarget == fs.lasttarget && r.jpc == fs.jpc
            && (forall j :: j in r.pend ==> j in fs.pend)
            && (forall j :: Controlled(fs, j) && j !in l ==> Controlled(r, j) && r.code[j - 1] == fs.code[j - 1])
  {
    PatchShape(fs.code, l, fs.Pc(), reg, d);
  }

  // What CloseLists is about: the list t includes the jump of a comparison.
  function TList(e: Exp): seq<nat> {
    if e.k.VJmp? then e.t + [e.k.pc] else e.t
  }

  // The state before the two lists are patched, and where values are loaded.
  function Joint(fs: FS, e: Exp, reg: nat): FS {
    Label(if NeedValue(fs.code, TList(e)) || NeedValue(fs.code, e.f) then LoadPair(fs, reg, !e.k.VJmp?) else fs)
  }

  function Pf(fs: FS, e: Exp, reg: nat): nat {
    if NeedValue(fs.code, TList(e)) || NeedValue(fs.code, e.f) then |LoadPair(fs, reg, !e.k.VJmp?).code| - 2 else 0
  }

  function Pt(fs: FS, e: Exp, reg: nat): nat {
    if NeedValue(fs.code, TList(e)) || NeedValue(fs.code, e.f) then |LoadPair(fs, reg, !e.k.VJmp?).code| - 1 else 0
  }

  lemma CloseListsParts(fs: FS, e: Exp, reg: nat)
    requires TList(e) != [] || e.f != []
    ensures var p := Joint(fs, e, reg);
            var q := Patch(Patch(p, e.f, p.Pc(), reg, Pf(fs, e, reg)), TList(e), p.Pc(), reg, Pt(fs, e, reg));
            CloseLists(fs, e, reg) == q.(ok := CloseLists(fs, e, reg).ok)
  {
  }

  lemma JointWF(fs: FS, e: Exp, reg: nat)
    requires WF(fs) && WFE(fs, e) && (e.k == VNonReloc(reg) || e.k.VJmp?)
    ensures var p := Joint(fs, e, reg);
            && WF(p) && Ext(fs, p) && p.lasttarget == |p.code|
            && |fs.code| <= |p.code| && fs.code <= p.code && p.freereg == fs.freereg && p.maxstack == fs.maxstack
              && p.ks == fs.ks
  {
    LoadPairCode(fs, reg, !e.k.VJmp?);
    LoadPairWF(fs, reg, !e.k.VJmp?);
    LoadPairExt(fs, reg, !e.k.VJmp?);
  }

  lemma TListControlled(fs: FS, e: Exp)
    requires WF(fs) && WFE(fs, e)
    ensures forall j :: j in TList(e) ==> Controlled(fs, j) && j !in e.f
    ensures forall j :: j in e.f ==> Controlled(fs, j) && j !in TList(e)
  {
  }

  // A list of controlled jumps stays what it is when code is put behind it.
  lemma ListKept(code: seq<Instr>, code': seq<Instr>, l: seq<nat>)
    requires code <= code' && forall j :: j in l ==> j < |code|
    ensures NeedValue(code', l) <==> NeedValue(code, l)
    ensures forall j :: j in l ==> SetControl(code', j) == SetControl(code, j)
  {
  }

  // The LOADBOOLs of the pair, where one is needed.
  lemma JointLoads(fs: FS, e: Exp, reg: nat)
    requires NeedValue(fs.code, TList(e)) || NeedValue(fs.code, e.f)
    requires e.k.VJmp? ==> fs.jpc == [] && |fs.code| > 0 && fs.code[|fs.code| - 1].Jmp?
    ensures var p := Joint(fs, e, reg);
            var pf, pt := Pf(fs, e, reg), Pt(fs, e, reg);
            && |fs.code| <= pf && pt == pf + 1 && pf + 2 == |p.code|
            && p.code[pf] == LoadBool(reg, false, true) && p.code[pt] == LoadBool(reg, true, false)
            && !Half(p.code, pf) && !Half(p.code, pt)
  {
    hide LoadPair, CloseLists;
    LoadPairCode(fs, reg, !e.k.VJmp?);
    PairEnds(fs.code, LoadPair(fs, reg, !e.k.VJmp?).code, reg, !e.k.VJmp?);
  }

  lemma PairEnds(code: seq<Instr>, all: seq<Instr>, reg: nat, skip: bool)
    requires all == code + PairTail(reg, skip) && (!skip ==> |code| > 0 && code[|code| - 1].Jmp?)
    ensures var n := |all| - 2;
            && |code| <= n && all[n] == LoadBool(reg, false, true) && all[n + 1] == LoadBool(reg, true, false)
            && !Half(all, n) && !Half(all, n + 1)
  {
    var n := |all| - 2;
    assert all[n - 1] == if skip then Jmp(NO_JUMP) else code[|code| - 1];
  }

  lemma JointLists(fs: FS, e: Exp, reg: nat)
    requires WF(fs) && WFE(fs, e) && (e.k == VNonReloc(reg) || e.k.VJmp?)
    ensures var p := Joint(fs, e, reg);
            && (forall j :: j in e.f || j in TList(e) ==>
                Controlled(p, j) && j < |fs.code| && SetControl(p.code, j) == SetControl(fs.code, j))
            && (NeedValue(p.code, e.f) <==> NeedValue(fs.code, e.f))
            && (NeedValue(p.code, TList(e)) <==> NeedValue(fs.code, TList(e)))
  {
    JointWF(fs, e, reg);
    TListControlled(fs, e);
    var p := Joint(fs, e, reg);
    ListKept(fs.code, p.code, e.f);
    ListKept(fs.code, p.code, TList(e));
  }

  lemma JointLoadable(fs: FS, e: Exp, reg: nat)
    requires WF(fs) && WFE(fs, e) && (e.k == VNonReloc(reg) || e.k.VJmp?)
    ensures var p := Joint(fs, e, reg);
            && Loadable(p.code, p.pend, e.f, reg, Pf(fs, e, reg), false)
            && Loadable(p.code, p.pend, TList(e), reg, Pt(fs, e, reg), true)
  {
    hide Joint, LoadPair, Pf, Pt, CloseLists;
    JointWF(fs, e, reg);
    JointLists(fs, e, reg);
    var p := Joint(fs, e, reg);
    assert forall j :: j in e.f || j in TList(e) ==> p.code[j].Jmp?;
    if NeedValue(fs.code, TList(e)) || NeedValue(fs.code, e.f) {
      JointLoads(fs, e, reg);
    }
  }

  // Patching jumps that came after fs0 keeps the promise to everything before.
  lemma PatchExt(fs0: FS, fs: FS, l: seq<nat>, reg: nat, d: nat)
    requires WF(fs0) && WF(fs) && Ext(fs0, fs) && fs.lasttarget == |fs.code| && d <= |fs.code|
    requires forall j :: j in l ==> Controlled(fs, j) && |fs0.code| <= j
    ensures Ext(fs0, Patch(fs, l, fs.Pc(), reg, d))
  {
    PatchWF(fs, l, reg, d);
  }

  lemma JointReady(fs0: FS, fs: FS, e: Exp, reg: nat)
    requires WF(fs) && WFE(fs, e) && (e.k == VNonReloc(reg) || e.k.VJmp?)
    requires Ext(fs0, fs) && New(fs0, e)
    ensures var p := Joint(fs, e, reg);
            && WF(p) && Ext(fs0, p) && p.lasttarget == |p.code| && Pf(fs, e, reg) <= |p.code|
              && Pt(fs, e, reg) <= |p.code|
            && (forall j :: j in e.f ==> Controlled(p, j) && |fs0.code| <= j && j !in TList(e))
            && (forall j :: j in TList(e) ==> Controlled(p, j) && |fs0.code| <= j)
  {
    hide LoadPair, CloseLists;
    JointWF(fs, e, reg);
    ExtTrans(fs0, fs, Joint(fs, e, reg));
    JointLists(fs, e, reg);
    TListControlled(fs, e);
  }

  lemma CloseListsWF(fs0: FS, fs: FS, e: Exp, reg: nat)
    requires WF(fs0) && WF(fs) && WFE(fs, e) && (e.k == VNonReloc(reg) || e.k.VJmp?)
    requires Ext(fs0, fs) && New(fs0, e)
    ensures var r := CloseLists(fs, e, reg);
            WF(r) && Ext(fs0, r)
  {
    if TList(e) != [] || e.f != [] {
      CloseListsParts(fs, e, reg);
      JointReady(fs0, fs, e, reg);
      var p := Joint(fs, e, reg);
      PatchBothWF(fs0, p, e.f, TList(e), reg, Pf(fs, e, reg), Pt(fs, e, reg));
    }
  }

  lemma CloseListsRegs(fs: FS, e: Exp, reg: nat)
    ensures var r := CloseLists(fs, e, reg);
            r.freereg == fs.freereg && r.maxstack == fs.maxstack && r.ks == fs.ks && (r.ok ==> fs.ok)
  {
  }

  lemma PatchBothWF(fs0: FS, p: FS, f: seq<nat>, t: seq<nat>, reg: nat, pf: nat, pt: nat)
    requires WF(fs0) && WF(p) && Ext(fs0, p) && p.lasttarget == |p.code| && pf <= |p.code| && pt <= |p.code|
    requires forall j :: j in f ==> Controlled(p, j) && |fs0.code| <= j && j !in t
    requires forall j :: j in t ==> Controlled(p, j) && |fs0.code| <= j
    ensures var r := Patch(Patch(p, f, p.Pc(), reg, pf), t, p.Pc(), reg, pt);
            WF(r) && Ext(fs0, r)
  {
    PatchWF(p, f, reg, pf);
    PatchExt(fs0, p, f, reg, pf);
    var q := Patch(p, f, p.Pc(), reg, pf);
    PatchWF(q, t, reg, pt);
    PatchExt(fs0, q, t, reg, pt);
  }

  // ---- runs through the end of exp2reg ---------------------------------------------------------------

  lemma TestTail(env: Env, core: seq<Instr>, test: Instr, jump: Instr, pend: set<nat>, at: nat, s: Regs)
    requires IsTest(test) && jump.Jmp? && |core| !in pend && |core| + 1 in pend
    requires Run(env, core, pend, at, s) != Wrong
    ensures Run(env, core + [test, jump], pend, at, s) == ThenJump(env, test, |core| + 1, Run(env, core, pend, at, s))
  {
    AppendRun(env, core, [test, jump], pend, pend, at, s);
    var all := core + [test, jump];
    assert all[|core|] == test && all[|core| + 1] == jump;
    var o := Run(env, core, pend, at, s);
    if o.Fall? {
      assert !Half(core, |core|) by { FallEnd(env, core, pend, at, s); }
      assert !Half(all, |core|);
    }
  }

  // The comparison and its jump, for runs that arrive in front of them.
  lemma JmpRun(env: Env, fs: FS, e: Exp, at: nat, s: Regs)
    requires WF(fs) && WFE(fs, e) && e.k.VJmp?
    requires ArriveExp(env, fs, e, at, s) != Wrong
    ensures Run(env, fs.code, fs.pend, at, s) ==
            ThenJump(env, fs.code[e.k.pc - 1], e.k.pc, ArriveExp(env, fs, e, at, s))
  {
    var core := Core(fs, e);
    assert fs.code == core + [fs.code[e.k.pc - 1], fs.code[e.k.pc]];
    assert |core| !in fs.pend;
    TestTail(env, core, fs.code[e.k.pc - 1], fs.code[e.k.pc], fs.pend, at, s);
  }

  predicate TestFine(env: Env, fs: FS, e: Exp, o: Out) {
    e.k.VJmp? && o.Fall? && 0 < e.k.pc <= |fs.code| && IsTest(fs.code[e.k.pc - 1]) ==>
        Taken(env, fs.code[e.k.pc - 1], o.s) != Bad
  }

  // How the run o that leaves or reaches the value of `e` ends after the lists of `e` are closed.
  function Closing(env: Env, fs: FS, e: Exp, reg: nat, o: Out): Out
    requires reg < MAXSTACK
  {
    if o.Fall? && e.k.VJmp? && 0 < e.k.pc <= |fs.code| && IsTest(fs.code[e.k.pc - 1]) then
      match Taken(env, fs.code[e.k.pc - 1], o.s)
      case Got(b) => Fall(o.s[reg := Bool(b)])
      case Raise => Fault
      case Bad => Wrong
    else Joined(fs.code, e.f, e.t, reg, o)
  }

  lemma JoinedSame(code: seq<Instr>, code': seq<Instr>, f: seq<nat>, t: seq<nat>, reg: nat, o: Out)
    requires reg < MAXSTACK && code <= code' && forall j :: j in f || j in t ==> j < |code|
    ensures Joined(code', f, t, reg, o) == Joined(code, f, t, reg, o)
  {
  }

  lemma CloseListsPatched(env: Env, fs: FS, e: Exp, reg: nat, at: nat, s: Regs)
    requires WF(fs) && WFE(fs, e) && (e.k == VNonReloc(reg) || e.k.VJmp?) && reg < MAXSTACK
    requires TList(e) != [] || e.f != []
    ensures var p := Joint(fs, e, reg);
            Arrive(env, CloseLists(fs, e, reg), at, s) ==
            Norm(p.jpc, Joined(fs.code, e.f, TList(e), reg, Run(env, p.code, p.pend, at, s)))
  {
    CloseListsParts(fs, e, reg);
    JointWF(fs, e, reg);
    JointLists(fs, e, reg);
    JointLoadable(fs, e, reg);
    TListControlled(fs, e);
    var p := Joint(fs, e, reg);
    PatchBoth(env, p.code, p.pend, e.f, TList(e), reg, Pf(fs, e, reg), Pt(fs, e, reg), at, s);
    JoinedSame(fs.code, p.code, e.f, TList(e), reg, Run(env, p.code, p.pend, at, s));
  }

  // A run that falls through takes the extra jump j instead, and then counts as arriving.
  function Detour(j: nat, o: Out): Out {
    if o.Fall? then Exit(j, o.s) else o
  }

  lemma DetourJoined(code: seq<Instr>, f: seq<nat>, t: seq<nat>, jpc: seq<nat>, j: nat, reg: nat, o: Out)
    requires reg < MAXSTACK && j !in f && j !in t
    requires forall i :: i in f || i in t ==> i !in jpc
    requires o.Exit? ==> o.j != j
    ensures Norm([j] + jpc, Joined(code, f, t, reg, Detour(j, o))) == Joined(code, f, t, reg, Norm(jpc, o))
    ensures Norm(jpc, Joined(code, f, t, reg, o)) == Joined(code, f, t, reg, Norm(jpc, o))
  {
  }

  lemma CloseValueRun(env: Env, fs: FS, e: Exp, reg: nat, at: nat, s: Regs)
    requires WF(fs) && WFE(fs, e) && e.k == VNonReloc(reg) && reg < MAXSTACK
    requires Arrive(env, fs, at, s) != Wrong
    ensures Arrive(env, CloseLists(fs, e, reg), at, s) == Closing(env, fs, e, reg, Arrive(env, fs, at, s))
  {
    hide LoadPair;
    if e.t != [] || e.f != [] {
      CloseListsPatched(env, fs, e, reg, at, s);
      if Run(env, fs.code, fs.pend, at, s).Exit? { ExitPending(env, fs.code, fs.pend, at, s); }
      DetourJoined(fs.code, e.f, e.t, fs.jpc, |fs.code|, reg, Run(env, fs.code, fs.pend, at, s));
      if NeedValue(fs.code, e.t) || NeedValue(fs.code, e.f) {
        LoadPairRun(env, fs, reg, true, at, s);
        LoadPairCode(fs, reg, true);
      }
    }
  }

  lemma CloseJmpRun(env: Env, fs: FS, e: Exp, reg: nat, at: nat, s: Regs)
    requires WF(fs) && WFE(fs, e) && e.k.VJmp? && reg < MAXSTACK
    requires ArriveExp(env, fs, e, at, s) != Wrong && TestFine(env, fs, e, ArriveExp(env, fs, e, at, s))
    ensures Arrive(env, CloseLists(fs, e, reg), at, s) == Closing(env, fs, e, reg, ArriveExp(env, fs, e, at, s))
  {
    hide CloseLists, LoadPair;
    CloseListsPatched(env, fs, e, reg, at, s);
    JmpRun(env, fs, e, at, s);
    assert TList(e)[|e.t|] == e.k.pc && !SetControl(fs.code, e.k.pc);
    assert NeedValue(fs.code, TList(e));
    LoadPairRun(env, fs, reg, false, at, s);
    LoadPairCode(fs, reg, false);
    if ArriveExp(env, fs, e, at, s).Exit? { ExitPending(env, Core(fs, e), fs.pend, at, s); }
    JoinedJmp(env, fs, e, reg, ArriveExp(env, fs, e, at, s));
  }

  lemma JoinedJmp(env: Env, fs: FS, e: Exp, reg: nat, o: Out)
    requires e.k.VJmp? && 0 < e.k.pc < |fs.code| && fs.code[e.k.pc - 1].Compare? && e.k.pc !in e.f && reg < MAXSTACK
    requires TestFine(env, fs, e, o) && (o.Exit? ==> o.j != e.k.pc)
    ensures var o1 := ThenJump(env, fs.code[e.k.pc - 1], e.k.pc, o);
            Joined(fs.code, e.f, TList(e), reg,
              if o1.Fall? then Fall(o1.s[reg := Bool(false)]) else o1) == Closing(env, fs, e, reg, o)
  {
    assert e.k.pc in TList(e);
  }
}
