/** What the generator keeps true between its calls: the shape of its state, and the meaning of an
    expression under construction. */
module CodeGenState {
  import opened Basics
  import opened LuaVM
  import opened CodeGen
  import opened CodeRun

  // ---- shape -----------------------------------------------------------------------------------------

  ghost predicate WF(fs: FS) {
    && fs.nactvar <= fs.freereg <= fs.maxstack < MAXSTACK
    && (forall j :: j in fs.pend ==> j < |fs.code| && fs.code[j].Jmp?)
    && (forall j :: j in fs.jpc ==> j in fs.pend)
    && fs.lasttarget <= |fs.code|
    && (fs.jpc != [] ==> fs.lasttarget == |fs.code|)
    && Paired(fs.code)
    && TargetsUpTo(fs.code, fs.pend, fs.lasttarget)
    && (forall q: nat :: q < |fs.code| ==> NilFits(fs.code[q]))
  }

  predicate NilFits(i: Instr) {
    i.LoadNil? ==> i.a <= i.b < MAXSTACK
  }

  // A pending jump that a test controls.
  predicate Controlled(fs: FS, j: nat) {
    j in fs.pend && j !in fs.jpc && 0 < j < |fs.code| && IsTest(fs.code[j - 1])
  }

  // The last instructions belong to the value of `e` and nothing jumps into or behind them.
  predicate Suspended(e: Exp) {
    e.k.VReloc? || e.k.VJmp?
  }

  // The code before the instructions that still have to produce the value of `e`.
  function Core(fs: FS, e: Exp): seq<Instr> {
    if e.k.VReloc? && 1 <= |fs.code| then fs.code[..|fs.code| - 1]
    else if e.k.VJmp? && 2 <= |fs.code| then fs.code[..|fs.code| - 2]
    else fs.code
  }

  ghost predicate WFKind(fs: FS, e: Exp) {
    match e.k
    case VK(k) => k < |fs.ks|
    case VLocal(r) => r < fs.nactvar
    case VNonReloc(r) => r < MAXSTACK
    case VReloc(pc) =>
      && pc + 1 == |fs.code| && Loads(fs.code[pc]) && !(fs.code[pc].LoadBool?)
      && fs.jpc == [] && fs.lasttarget <= pc
    case VJmp(pc) =>
      && 0 < pc && pc + 1 == |fs.code| && fs.code[pc - 1].Compare? && pc in fs.pend
      && pc !in e.t && pc !in e.f
      && fs.jpc == [] && fs.lasttarget <= pc - 1
    case _ => true
  }

  ghost predicate WFE(fs: FS, e: Exp) {
    && WFKind(fs, e)
    && (forall j :: j in e.t ==> Controlled(fs, j) && j !in e.f)
    && (forall j :: j in e.f ==> Controlled(fs, j) && j !in e.t)
    && NoDup(e.t) && NoDup(e.f)
  }

  // A run that starts at the end of this code cannot be confused by a LOADNIL before the end.
  predicate SafeEnd(fs: FS) {
    |fs.code| == 0 || fs.lasttarget == |fs.code| || !fs.code[|fs.code| - 1].LoadNil?
  }

  /** `fs` continues `fs0`: constants stay, and of the code that was there only the jumps to its end (and
      the tests that control them) may have changed. */
  ghost predicate Ext(fs0: FS, fs: FS) {
    && fs.ops == fs0.ops && fs.nactvar == fs0.nactvar && fs0.ks <= fs.ks
    && |fs0.code| <= |fs.code|
    && (forall j :: j in fs0.pend && j !in fs0.jpc ==> j in fs.pend && j !in fs.jpc)
    && (forall j :: Controlled(fs0, j) ==> Controlled(fs, j) && fs.code[j - 1] == fs0.code[j - 1])
    && (forall j :: j in fs.pend ==> j in fs0.pend || |fs0.code| <= j)
    && (forall j :: j in fs.jpc ==> j in fs0.jpc || |fs0.code| <= j)
    && (|fs.code| == |fs0.code| && SafeEnd(fs0) ==> SafeEnd(fs))
  }

  lemma ExtTrans(a: FS, b: FS, c: FS)
    requires Ext(a, b) && Ext(b, c)
    ensures Ext(a, c)
  {
  }

  // Everything that `e` refers to was made after `fs0`.
  ghost predicate New(fs0: FS, e: Exp) {
    && (forall j :: j in e.t ==> |fs0.code| <= j)
    && (forall j :: j in e.f ==> |fs0.code| <= j)
    && (e.k.VReloc? ==> |fs0.code| <= e.k.pc)
    && (e.k.VJmp? ==> |fs0.code| < e.k.pc)
  }

  predicate IsTemp(fs: FS, e: Exp) {
    e.k.VNonReloc? && fs.nactvar <= e.k.reg
  }

  // `e` holds at most one register above those in use at `fs0`.
  ghost predicate Temp(fs0: FS, fs: FS, e: Exp) {
    if IsTemp(fs, e) then e.k.reg == fs0.freereg && fs.freereg == fs0.freereg + 1 else fs.freereg == fs0.freereg
  }

  ghost predicate Inv(fs0: FS, fs: FS, e: Exp) {
    WF(fs) && WFE(fs, e) && Ext(fs0, fs) && New(fs0, e) && Temp(fs0, fs, e)
  }

  // ---- meaning ---------------------------------------------------------------------------------------

  // Jumps in the list `l` lead to the end of the code.
  function Norm(l: seq<nat>, o: Out): Out {
    if o.Exit? && o.j in l then Fall(o.s) else o
  }

  // A run of the code of `fs`, where the jumps in jpc count as arriving at its end.
  function Arrive(env: Env, fs: FS, at: nat, s: Regs): Out {
    Norm(fs.jpc, Run(env, fs.code, fs.pend, at, s))
  }

  // A run of the code before the part that still has to produce the value of `e`.
  function ArriveExp(env: Env, fs: FS, e: Exp, at: nat, s: Regs): Out {
    Norm(fs.jpc, Run(env, Core(fs, e), fs.pend, at, s))
  }

  // The value of `e` when control falls through with registers `t`.
  function Described(env: Env, fs: FS, e: Exp, t: Regs): Outcome<Value> {
    match e.k
    case VNil => Got(Nil)
    case VTrue => Got(Bool(true))
    case VFalse => Got(Bool(false))
    case VK(k) => if k < |env.k| then Got(env.k[k]) else Bad
    case VKNum(r) => Got(Number(Num(r)))
    case VLocal(r) => Reg(t, r)
    case VNonReloc(r) => Reg(t, r)
    case VUpval(u) => if u < |env.up| then Got(env.up[u]) else Bad
    case VReloc(pc) => if pc < |fs.code| then Computed(env, fs.code[pc], t) else Bad
    case VJmp(pc) =>
      if 0 < pc <= |fs.code| && IsTest(fs.code[pc - 1]) then
        match Taken(env, fs.code[pc - 1], t) case Got(b) => Got(Bool(b)) case Raise => Raise case Bad => Bad
      else Bad
  }

  // The value that the jump j carries: the operand of its TESTSET, or else just the truth value.
  function Carries(code: seq<Instr>, j: nat, t: Regs, sense: bool): Outcome<Value> {
    if SetControl(code, j) then Reg(t, code[j - 1].b) else Got(Bool(sense))
  }

  // The first n registers are unchanged, except possibly register x.
  predicate Agree(s: Regs, t: Regs, n: nat, x: nat) {
    forall i: nat :: i < n && i < MAXSTACK && i != x ==> s[i] == t[i]
  }

  // A run that began where the registers were s1 ends, with the value r of the expression, as `e` says.
  ghost predicate Delivers(env: Env, fs: FS, e: Exp, n: nat, x: nat, s1: Regs, r: Result, o: Out) {
    match o
    case Fall(t) => Agree(s1, t, n, x) && Described(env, fs, e, t) == OfResult(r)
    case Exit(j, t) =>
      && Agree(s1, t, n, x) && r.Val?
      && ((j in e.t && !Falsy(r.v) && Carries(fs.code, j, t, true) == Got(r.v)) ||
          (j in e.f && Falsy(r.v) && Carries(fs.code, j, t, false) == Got(r.v)))
    case Fault => r.Err?
    case Wrong => false
  }

  /** Meaning of `e`, whose code begins at the end of `fs0`: a run that arrives there with registers s1
      delivers the result r, changing none of the registers in use except possibly x; a run that does not
      arrive there is not affected. */
  ghost predicate Means(env: Env, fs0: FS, fs: FS, e: Exp, x: nat, r: Result, at: nat, s: Regs) {
    var o := Arrive(env, fs0, at, s);
    match o
    case Fall(s1) => Delivers(env, fs, e, fs0.freereg, x, s1, r, ArriveExp(env, fs, e, at, s))
    case Wrong => true
    case _ => ArriveExp(env, fs, e, at, s) == o
  }

  // Where a run may begin.
  ghost predicate Start(fs0: FS, at: nat, s: Regs) {
    && at <= |fs0.code| && (at == |fs0.code| ==> SafeEnd(fs0))
    && (|fs0.code| == 0 ==> forall r :: fs0.nactvar <= r < MAXSTACK ==> s[r] == Nil)
  }
}
