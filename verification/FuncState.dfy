/** The code generator of lcode.c as the source has it: an object updated in place, with every list of
    pending jumps threaded through the offsets of the jumps themselves.

    The ghost field A is the same state on values (CodeGen.dfy).  Every method says that it does to A what
    the function of the same name does, and that it fails exactly when that function exceeds a limit. */
module FuncStates {
  import opened Basics
  import opened LuaVM
  import opened CodeGen
  import opened CodeGenState
  import opened CodeGenSteps
  import opened CodeGenReg
  import opened CodeGenLists
  import opened CodeGenExp
  import opened CodeGenCond
  import opened CodeGenOps
  import opened CodeGenArith
  import opened CodeGenCorrect

  // The source leaves through a syntax error when a limit is exceeded.
  datatype Status = Ok | SyntaxError {
    predicate IsFailure() { SyntaxError? }
    function PropagateFailure(): Status requires SyntaxError? { this }
  }

  // getjump: the jump behind pc in its list.
  function GetJump(code: seq<Instr>, pc: nat): int
    requires pc < |code| && code[pc].Jmp?
  {
    if code[pc].sbx == NO_JUMP then NO_JUMP else pc + 1 + code[pc].sbx
  }

  // The i-th jump of the list is pending and leads to the next one.
  ghost predicate Links(code: seq<Instr>, pend: set<nat>, l: seq<nat>, i: nat)
    requires i < |l|
  {
    && l[i] in pend && l[i] < |code| && code[l[i]].Jmp?
    && GetJump(code, l[i]) == if i + 1 < |l| then l[i + 1] else NO_JUMP
  }

  /** The list that starts at `head` consists of the pending jumps l, in this order. */
  ghost predicate ListIs(code: seq<Instr>, pend: set<nat>, head: int, l: seq<nat>) {
    && NoDup(l)
    && head == (if l == [] then NO_JUMP else l[0])
    && (forall i: nat :: i < |l| ==> Links(code, pend, l, i))
  }

  // `a` is `code` without the links that thread the pending jumps.
  ghost predicate Unthreaded(code: seq<Instr>, pend: set<nat>, a: seq<Instr>) {
    && |a| == |code|
    && (forall i: nat :: i < |code| ==> if i in pend then code[i].Jmp? && a[i] == Jmp(NO_JUMP) else code[i] == a[i])
    && (forall i :: i in pend ==> i < |code|)
  }

  // The jumps that are pending at fs and do not lead to its end are untouched: their lists stay as they are.
  ghost predicate Kept(fs: FS, c: seq<Instr>, c': seq<Instr>) {
    forall j :: j in fs.pend && j !in fs.jpc ==> j < |c| && j < |c'| && c'[j] == c[j]
  }

  // expdesc
  class ExpDesc {
    var k: Kind
    var t: int
    var f: int

    constructor (k: Kind)
      ensures this.k == k && t == NO_JUMP && f == NO_JUMP
    {
      this.k := k;
      t, f := NO_JUMP, NO_JUMP;
    }
  }

  class FuncState {
    const ops: Ops
    var code: seq<Instr>
    var jpc: int
    var lasttarget: int
    var freereg: nat
    var nactvar: nat
    var maxstacksize: nat
    var k: seq<Value>
    var h: map<Value, nat>  // where a constant is in k
    ghost var A: FS

    ghost predicate Valid()
      reads this
    {
      && A.ops == ops && A.lasttarget == lasttarget && A.freereg == freereg && A.nactvar == nactvar
      && A.maxstack == maxstacksize && A.ks == k && A.ok
      && Unthreaded(code, A.pend, A.code)
      && ListIs(code, A.pend, jpc, A.jpc)
      && (forall v :: v in h <==> v in k)
      && (forall v :: v in h ==> h[v] == FindK(k, v))
    }

    // open_func, with the registers of the parameters
    constructor (ops: Ops, nparams: nat)
      ensures Valid() && A == InitState(ops, nparams) && nactvar == nparams && this.ops == ops
    {
      this.ops := ops;
      code, jpc, lasttarget := [], NO_JUMP, -1;
      freereg, nactvar, maxstacksize := nparams, nparams, if nparams > 2 then nparams else 2;
      k, h := [], map[];
      A := InitState(ops, nparams);
    }

    // `e` is the descriptor `a`.
    ghost predicate Rep(e: ExpDesc, a: Exp)
      reads this, e
    {
      && e.k == a.k && ListIs(code, A.pend, e.t, a.t) && ListIs(code, A.pend, e.f, a.f)
      && (a.k.VJmp? ==> ListIs(code, A.pend, a.k.pc, [a.k.pc]))
    }

    // ---- jump lists --------------------------------------------------------------------------------

    method FixJump(pc: nat, dest: int) returns (s: Status)
      requires pc < |code| && code[pc].Jmp? && 0 <= dest
      modifies this`code
      ensures s.Ok? <==> -131071 <= dest - (pc + 1) <= 131071
      ensures s.Ok? ==> code == old(code)[pc := Jmp(dest - (pc + 1))]
    {
      var offset := dest - (pc + 1);
      if offset > MAXARG_SBX || offset < -MAXARG_SBX {
        return SyntaxError;
      }
      code := code[pc := Jmp(offset)];
      return Ok;
    }

    // luaK_concat: walks to the end of l1 and links l2 there.
    method Concat(l1: int, l2: int, ghost a1: seq<nat>, ghost a2: seq<nat>) returns (s: Status, l: int)
      requires ListIs(code, A.pend, l1, a1) && ListIs(code, A.pend, l2, a2)
      requires forall j :: j in a1 ==> j !in a2
      modifies this`code
      ensures s.Ok? <==> Linkable(a1, a2)
      ensures s.Ok? ==>
        && ListIs(code, A.pend, l, a1 + a2)
        && |code| == |old(code)|
        && (forall i: nat :: i < |code| && (a1 == [] || i != a1[|a1| - 1]) ==> code[i] == old(code)[i])
        && (a1 != [] ==> a1[|a1| - 1] < |code| && code[a1[|a1| - 1]].Jmp?)
    {
      ListJumps(code, A.pend, l1, a1);
      assert a1 != [] ==> a1[|a1| - 1] in a1;
      if l2 == NO_JUMP {
        assert a1 + a2 == a1;
        return Ok, l1;
      } else if l1 == NO_JUMP {
        assert a1 + a2 == a2;
        return Ok, l2;
      }
      l := l1;
      var list := l1;
      ghost var n := 0;
      assert Links(code, A.pend, a1, 0);
      var next := GetJump(code, list);
      while next != NO_JUMP
        invariant code == old(code)
        invariant 0 <= n < |a1| && Links(code, A.pend, a1, n) && list == a1[n] && next == GetJump(code, list)
        decreases |a1| - n
      {
        list := next;
        n := n + 1;
        assert Links(code, A.pend, a1, n);
        next := GetJump(code, list);
      }
      assert n == |a1| - 1;
      :- FixJump(list, l2);
      LinkedLists(old(code), code, A.pend, l1, a1, l2, a2);
      return Ok, l1;
    }

    // need_value
    method HasPlainJump(list: int, ghost a: seq<nat>) returns (b: bool)
      requires ListIs(code, A.pend, list, a)
      ensures b == NeedValue(code, a)
    {
      var l := list;
      ghost var n := 0;
      while l != NO_JUMP
        invariant 0 <= n <= |a| && l == (if n < |a| then a[n] else NO_JUMP)
        invariant forall m :: 0 <= m < n ==> SetControl(code, a[m])
        decreases |a| - n
      {
        assert Links(code, A.pend, a, n);
        if !(l >= 1 && code[l - 1].TestSet?) {
          assert a[n] in a && !SetControl(code, a[n]);
          return true;
        }
        l := GetJump(code, l);
        n := n + 1;
      }
      return false;
    }

    // patchtestreg
    method PatchTestReg(node: nat, reg: nat) returns (done: bool)
      requires node < |code| && code[node].Jmp?
      modifies this`code
      ensures done == SetControl(old(code), node)
      ensures code == if done then old(code)[node - 1 := PatchTest(old(code)[node - 1], reg)] else old(code)
    {
      if !(node >= 1 && code[node - 1].TestSet?) {
        return false;
      }
      var i := code[node - 1];
      if reg != NO_REG && reg != i.b {
        code := code[node - 1 := TestSet(reg, i.b, i.cond)];
      } else {
        code := code[node - 1 := LuaVM.Test(i.b, i.cond)];
      }
      return true;
    }

    // removevalues
    method RemoveValues(list: int, ghost a: seq<nat>)
      requires ListIs(code, A.pend, list, a)
      modifies this`code
      ensures code == RemoveCode(old(code), a)
    {
      var l := list;
      ghost var n := 0;
      RemoveNone(code);
      while l != NO_JUMP
        invariant 0 <= n <= |a| && l == (if n < |a| then a[n] else NO_JUMP)
        invariant code == RemoveCode(old(code), a[..n])
        decreases |a| - n
      {
        assert Links(old(code), A.pend, a, n);
        ListJumps(old(code), A.pend, list, a);
        RemoveOne(old(code), a, n);
        var done := PatchTestReg(l, NO_REG);
        l := GetJump(code, l);
        n := n + 1;
      }
      assert a[..n] == a;
    }

    // patchlistaux: the default target is not looked at if every jump of the list carries a value.
    method PatchListAux(list: int, vtarget: nat, reg: nat, dtarget: int, ghost a: seq<nat>, ghost d: nat)
      returns (s: Status)
      requires ListIs(code, A.pend, list, a)
      requires dtarget == d || !NeedValue(code, a)
      modifies this`code
      ensures s.Ok? <==> AllFit(old(code), a, vtarget, d)
      ensures s.Ok? ==> code == PatchCode(old(code), a, vtarget, reg, d)
    {
      hide PatchCode;
      var l := list;
      ghost var n := 0;
      PatchNone(code, vtarget, reg, d);
      while l != NO_JUMP
        invariant 0 <= n <= |a| && l == (if n < |a| then a[n] else NO_JUMP)
        invariant code == PatchCode(old(code), a[..n], vtarget, reg, d)
        invariant forall m :: 0 <= m < n ==> Fits(a[m], Dest(old(code), a[m], vtarget, d))
        decreases |a| - n
      {
        assert Links(old(code), A.pend, a, n);
        ListJumps(old(code), A.pend, list, a);
        PatchedSoFar(old(code), a, n, vtarget, reg, d);
        var next := GetJump(code, l);
        var done := PatchTestReg(l, reg);
        if done { :- FixJump(l, vtarget); } else { :- FixJump(l, dtarget); }
        PatchNext(old(code), a, n, vtarget, reg, d);
        l := next;
        n := n + 1;
      }
      assert a[..n] == a;
      return Ok;
    }

    // ---- code ----------------------------------------------------------------------------------------

    // dischargejpc
    method DischargeJpc() returns (s: Status)
      requires Valid()
      modifies this
      ensures s.Ok? <==> Discharge(old(A)).ok
      ensures s.Ok? ==> Valid() && A == Discharge(old(A)) && jpc == NO_JUMP && Kept(old(A), old(code), code)
    {
      ListJumps(code, A.pend, jpc, A.jpc);
      PatchThreads(code, A.pend, A.code, A.jpc, |code|, NO_REG, |code|);
      :- PatchListAux(jpc, |code|, NO_REG, |code|, A.jpc, |code|);
      jpc := NO_JUMP;
      PatchNone(old(code), |old(code)|, NO_REG, |old(code)|);
      A := Discharge(A);
      return Ok;
    }

    // luaK_code
    method Code(i: Instr) returns (s: Status)
      requires Valid()
      modifies this
      ensures s.Ok? ==> |code| == |old(code)| + 1
      ensures s.Ok? <==> Emit(old(A), i).ok
      ensures s.Ok? ==> Valid() && A == Emit(old(A), i) && jpc == NO_JUMP && Kept(old(A), old(code), code)
    {
      s := DischargeJpc();
      if !s.Ok? { return; }
      code := code + [i];
      A := A.(code := A.code + [i]);
      return Ok;
    }

    // luaK_getlabel
    method GetLabel()
      requires Valid()
      modifies this
      ensures Valid() && A == Label(old(A)) && code == old(code) && jpc == old(jpc)
    {
      lasttarget := |code|;
      A := Label(A);
    }

    // luaK_patchtohere
    method PatchJumpsToHere(list: int, ghost l: seq<nat>) returns (s: Status)
      requires Valid() && ListIs(code, A.pend, list, l) && forall j :: j in A.jpc ==> j !in l
      modifies this
      ensures s.Ok? <==> PatchToHere(old(A), l).ok
      ensures s.Ok? ==> Valid() && A == PatchToHere(old(A), l) && Kept(old(A), old(code), code)
    {
      GetLabel();
      ghost var c := code;
      ListJumps(code, A.pend, jpc, A.jpc);
      var head :- Concat(jpc, list, A.jpc, l);
      LinkThreads(c, code, A.pend, A.code, A.jpc);
      jpc := head;
      A := PatchToHere(old(A), l);
      return Ok;
    }

    // luaK_jump: jumps that were to go to the new jump are held back in its list.
    method Jump() returns (s: Status, j: int)
      requires Valid()
      modifies this
      ensures s.Ok? <==> EmitJump(old(A)).0.ok
      ensures s.Ok? ==> Valid() && A == EmitJump(old(A)).0 && ListIs(code, A.pend, j, EmitJump(old(A)).1)
      ensures s.Ok? ==> jpc == NO_JUMP && |code| == |old(code)| + 1 && Kept(old(A), old(code), code)
    {
      var held := jpc;
      ghost var l := A.jpc;
      ghost var pc := |code|;
      ListJumps(code, A.pend, jpc, l);
      jpc := NO_JUMP;
      A := A.(jpc := []);
      j := |code|;
      var s1 := Code(Jmp(NO_JUMP));
      A := A.(pend := A.pend + {pc});
      ghost var c := code;
      assert ListIs(c, A.pend, pc, [pc]) by { assert Links(c, A.pend, [pc], 0); }
      KeepList(old(code), c, old(A).pend, A.pend, held, l);
      var head :- Concat(j, held, [pc], l);
      j := head;
      LinkThreads(c, code, A.pend, A.code, [pc]);
      A := EmitJump(old(A)).0;
      return Ok, j;
    }

    // condjump
    method CondJumpTo(i: Instr) returns (s: Status, j: int)
      requires Valid() && WF(A) && IsTest(i)
      modifies this
      ensures s.Ok? <==> CondJump(old(A), i).ok
      ensures s.Ok? ==>
        && Valid() && A == CondJump(old(A), i) && j == |code| - 1 == |old(code)| + 1 && jpc == NO_JUMP
        && ListIs(code, A.pend, j, [j]) && Kept(old(A), old(code), code)
    {
      DischargeWF(A);
      ghost var A0 := A;
      j := NO_JUMP;
      :- Code(i);
      assert EmitJump(A).1 == [|A.code|];
      s, j := Jump();
      CondJumpWF(A0, i);
    }

    // ---- registers and constants -----------------------------------------------------------------------

    // luaK_reserveregs, with luaK_checkstack
    method ReserveRegs(n: nat) returns (s: Status)
      requires Valid()
      modifies this
      ensures s.Ok? <==> Reserve(old(A), n).ok
      ensures s.Ok? <==> old(freereg) + n <= old(maxstacksize) || old(freereg) + n < 250
      ensures s.Ok? ==> Valid() && A == Reserve(old(A), n) && code == old(code) && jpc == old(jpc)
    {
      var newstack := freereg + n;
      if newstack > maxstacksize {
        if newstack >= MAXSTACK {
          return SyntaxError;
        }
        maxstacksize := newstack;
      }
      freereg := freereg + n;
      A := Reserve(A, n);
      return Ok;
    }

    // freereg: only the topmost register in use is ever freed.
    method FreeReg(reg: nat)
      requires Valid() && (reg < BITRK && nactvar <= reg ==> reg + 1 == freereg)
      modifies this
      ensures Valid() && A == old(A).(freereg := freereg) && code == old(code) && jpc == old(jpc)
      ensures freereg == if reg < BITRK && nactvar <= reg then reg else old(freereg)
    {
      if !(reg >= BITRK) && reg >= nactvar {
        freereg := freereg - 1;
        assert reg == freereg;
      }
      A := A.(freereg := freereg);
    }

    // freeexp
    method FreeExpr(e: ExpDesc, ghost a: Exp)
      requires Valid() && e.k == a.k && (IsTemp(A, a) ==> a.k.reg + 1 == freereg && a.k.reg < MAXSTACK)
      modifies this
      ensures Valid() && A == FreeExp(old(A), a) && code == old(code) && jpc == old(jpc)
    {
      if e.k.VNonReloc? {
        FreeReg(e.k.reg);
      }
    }

    // addk
    method AddConstant(v: Value) returns (s: Status, i: nat)
      requires Valid()
      modifies this
      ensures s.Ok? <==> AddK(old(A), v).0.ok
      ensures s.Ok? <==> v in old(k) || |old(k)| < 262143
      ensures s.Ok? ==>
          Valid() && A == AddK(old(A), v).0 && i == AddK(old(A), v).1 && code == old(code) && jpc == old(jpc)
    {
      i := 0;
      FindKIndex(k, v);
      if v in h {
        return Ok, h[v];
      }
      if |k| >= MAXARG_BX {
        return SyntaxError, 0;
      }
      forall w | w in k + [v]
        ensures FindK(k + [v], w) == if w == v then |k| else FindK(k, w)
      {
        FindKSnoc(k, v, w);
      }
      h := h[v := |k|];
      k := k + [v];
      A := AddK(A, v).0;
      return Ok, |k| - 1;
    }

    // luaK_nil for one register
    method LoadNilTo(from: nat) returns (s: Status)
      requires Valid()
      modifies this
      ensures s.Ok? <==> NilCode(old(A), from).ok
      ensures s.Ok? ==> Valid() && A == NilCode(old(A), from) && Kept(old(A), old(code), code)
    {
      if |code| > lasttarget {
        if |code| == 0 {
          if from >= nactvar {
            return Ok;
          }
        } else {
          var previous := code[|code| - 1];
          if previous.LoadNil? {
            assert A.code[|code| - 1] == previous;
            if previous.a <= from <= previous.b + 1 {
              if from > previous.b {
                code := code[|code| - 1 := LoadNil(previous.a, from)];
              }
              ListJumps(old(code), A.pend, jpc, A.jpc);
              KeepList(old(code), code, A.pend, A.pend, jpc, A.jpc);
              A := NilCode(A, from);
              return Ok;
            }
          }
        }
      }
      s := Code(LoadNil(from, from));
    }

    // ---- expressions -----------------------------------------------------------------------------------

    // luaK_dischargevars
    method DischargeVarsOf(e: ExpDesc, ghost a: Exp, ghost base: FS) returns (s: Status)
      requires Valid() && Rep(e, a) && Framed(base, A, a)
      modifies this, e
      ensures s.Ok? <==> DischargeVars(old(A), a).fs.ok
      ensures s.Ok? ==>
        var g := DischargeVars(old(A), a);
        Valid() && A == g.fs && Rep(e, g.e) && Framed(base, A, g.e) && Discharged(g.e) && Kept(base, old(code), code)
    {
      hide WF, WFE, Ext, New, Emit;
      DischargeVarsKeeps(base, A, a);
      KeptSame(base, A, code);
      if e.k.VLocal? {
        e.k := VNonReloc(e.k.reg);
      } else if e.k.VUpval? {
        ghost var fs0 := A;
        EmitWF(A, GetUpval(0, e.k.u));
        :- Code(GetUpval(0, e.k.u));
        e.k := VReloc(|code| - 1);
        KeepRep(fs0, old(code), A, code, a, e.t, e.f);
        KeptTrans(base, fs0, old(code), old(code), code);
      }
      return Ok;
    }

    // The instruction of discharge2reg for a value that is already known.
    method LoadTo(k: Kind, reg: nat, ghost a: Exp) returns (s: Status)
      requires Valid() && WF(A) && WFE(A, a) && a.k == k && Discharged(a) && !k.VJmp? && reg < MAXSTACK
      modifies this
      ensures s.Ok? <==> Discharge2Reg(old(A), a, reg).fs.ok
      ensures s.Ok? ==> Valid() && A == Discharge2Reg(old(A), a, reg).fs && Kept(old(A), old(code), code)
    {
      hide WF, Emit, NilCode, AddK, Patch;
      KeptSame(A, A, code);
      s := Ok;
      if k.VNil? { s := LoadNilTo(reg); }
      else if k.VFalse? || k.VTrue? { s := Code(LoadBool(reg, k.VTrue?, false)); }
      else if k.VK? { s := Code(LoadK(reg, k.k)); }
      else if k.VKNum? {
        AddKIndex(A, Number(Num(k.num)));
        var c :- AddConstant(Number(Num(k.num)));
        s := Code(LoadK(reg, c));
      } else if k.VReloc? {
        code := code[k.pc := SetA(code[k.pc], reg)];
        RetargetThreads(old(code), code, A, a, reg, jpc);
        A := Discharge2Reg(A, a, reg).fs;
      } else if reg != k.reg { s := Code(Move(reg, k.reg)); }
    }

    // discharge2reg
    method DischargeTo(e: ExpDesc, reg: nat, ghost a0: Exp, ghost base: FS) returns (s: Status)
      requires Valid() && Rep(e, a0) && Framed(base, A, a0) && reg < MAXSTACK
      modifies this, e
      ensures s.Ok? <==> Discharge2Reg(old(A), a0, reg).fs.ok
      ensures s.Ok? ==>
        var g := Discharge2Reg(old(A), a0, reg);
        Valid() && A == g.fs && Rep(e, g.e) && Framed(base, A, g.e) && Kept(base, old(code), code)
    {
      hide WF, WFE, Ext, New, DischargeVars, Discharge2Reg;
      DischargeTwice(A, a0, reg);
      :- DischargeVarsOf(e, a0, base);
      ghost var fs1, a, c := A, DischargeVars(old(A), a0).e, code;
      Discharge2RegKeeps(base, A, a, reg);
      if e.k.VJmp? {
        return Ok;
      }
      :- LoadTo(e.k, reg, a);
      e.k := VNonReloc(reg);
      KeepRep(fs1, c, A, code, a, e.t, e.f);
      KeptTrans(base, fs1, old(code), c, code);
      return Ok;
    }

    // discharge2anyreg
    method DischargeToAny(e: ExpDesc, ghost a: Exp, ghost base: FS) returns (s: Status)
      requires Valid() && Rep(e, a) && Framed(base, A, a)
      modifies this, e
      ensures s.Ok? <==> Discharge2AnyReg(old(A), a).fs.ok
      ensures s.Ok? ==>
        var g := Discharge2AnyReg(old(A), a);
        Valid() && A == g.fs && Rep(e, g.e) && Framed(base, A, g.e) && Kept(base, old(code), code)
    {
      hide Discharge2Reg, Kept, WF, WFE, Ext, New;
      KeptSame(base, A, code);
      if !e.k.VNonReloc? {
        ReserveFramed(base, A, a);
        :- ReserveRegs(1);
        :- DischargeTo(e, freereg - 1, a, base);
      }
      return Ok;
    }

    // patchlistaux on an open list
    method PatchOpen(list: int, vtarget: nat, reg: nat, dtarget: int, ghost l: seq<nat>, ghost d: nat)
      returns (s: Status)
      requires Valid() && ListIs(code, A.pend, list, l) && forall j :: j in l ==> j !in A.jpc
      requires dtarget == d || !NeedValue(code, l)
      modifies this
      ensures s.Ok? <==> Patch(old(A), l, vtarget, reg, d).ok
      ensures s.Ok? ==>
          Valid() && A == Patch(old(A), l, vtarget, reg, d) && code == PatchCode(old(code), l, vtarget, reg, d)
      ensures s.Ok? ==> |code| == |old(code)| && forall j :: j in A.pend ==> j < |code| && code[j] == old(code)[j]
    {
      hide PatchCode;
      ListJumps(code, A.pend, list, l);
      ListJumps(code, A.pend, jpc, A.jpc);
      PatchThreads(code, A.pend, A.code, l, vtarget, reg, d);
      :- PatchListAux(list, vtarget, reg, dtarget, l, d);
      A := Patch(A, l, vtarget, reg, d);
      KeepList(old(code), code, old(A).pend, A.pend, jpc, A.jpc);
      return Ok;
    }

    // code_label
    method CodeLabel(reg: nat, value: bool, skip: bool) returns (s: Status, pc: nat)
      requires Valid()
      modifies this
      ensures s.Ok? <==> Emit(Label(old(A)), LoadBool(reg, value, skip)).ok
      ensures s.Ok? ==> Valid() && A == Emit(Label(old(A)), LoadBool(reg, value, skip)) && jpc == NO_JUMP
      ensures s.Ok? ==> pc == |old(code)| == |code| - 1 && Kept(old(A), old(code), code)
    {
      pc := |code|;
      GetLabel();
      :- Code(LoadBool(reg, value, skip));
      return Ok, pc;
    }

    // The instructions of exp2reg that jumps without a value go to.
    method CodeLoadPair(reg: nat, skip: bool) returns (s: Status, pf: nat, pt: nat)
      requires Valid() && WF(A) && (skip || A.jpc == [])
      modifies this
      ensures s.Ok? <==> LoadPair(old(A), reg, skip).ok
      ensures s.Ok? ==>
        && Valid() && A == LoadPair(old(A), reg, skip) && pf == |code| - 2 && pt == |code| - 1
        && Kept(old(A), old(code), code)
    {
      hide WF;
      pf, pt := 0, 0;
      var fj := NO_JUMP;
      ghost var l := [];
      if skip {
        l := EmitJump(A).1;
        fj :- Jump();
      }
      ghost var c := code;
      ListJumps(c, A.pend, fj, l);
      s, pf := CodeLabel(reg, false, true);
      s, pt := CodeLabel(reg, true, false);
      KeepList(c, code, A.pend, A.pend, fj, l);
      s := PatchJumpsToHere(fj, l);
    }

    // The two lists of exp2reg meet here: each jump brings its value, or goes by the instruction that loads it.
    method PatchBoth(t: int, f: int, reg: nat, pt: int, pf: int, ghost lt: seq<nat>, ghost lf: seq<nat>,
      ghost dt: nat, ghost df: nat)
      returns (s: Status)
      requires Valid() && ListIs(code, A.pend, t, lt) && ListIs(code, A.pend, f, lf)
      requires Apart(A, lt, lf)
      requires (pt == dt && pf == df) || (!NeedValue(code, lt) && !NeedValue(code, lf))
      modifies this
      ensures s.Ok? <==> Met(old(A), lt, lf, reg, dt, df).ok
      ensures s.Ok? ==> Valid() && A == Met(old(A), lt, lf, reg, dt, df)
      ensures s.Ok? ==> |code| == |old(code)| && forall j :: j in A.pend ==> j < |code| && code[j] == old(code)[j]
    {
      hide PatchCode, NeedValue;
      GetLabel();
      ghost var fs, c := A, code;
      ListJumps(code, A.pend, t, lt);
      ListJumps(code, A.pend, f, lf);
      if pt != dt || pf != df { PlainAfter(code, lt, lf, |code|, reg, df); }
      :- PatchOpen(f, |code|, reg, pf, lf, df);
      KeepList(c, code, fs.pend, A.pend, t, lt);
      :- PatchOpen(t, |code|, reg, pt, lt, dt);
      return Ok;
    }

    // The part of exp2reg for an expression with jumps.
    method CloseBoth(t: int, f: int, reg: nat, skip: bool, ghost lt: seq<nat>, ghost lf: seq<nat>) returns (s: Status)
      requires Valid() && WF(A) && ListIs(code, A.pend, t, lt) && ListIs(code, A.pend, f, lf)
      requires Apart(A, lt, lf) && (skip || A.jpc == [])
      modifies this
      ensures s.Ok? <==> Closed(old(A), lt, lf, reg, skip).ok
      ensures s.Ok? ==> Valid() && A == Closed(old(A), lt, lf, reg, skip)
      ensures s.Ok? ==> KeptOthers(old(A), lt, lf, old(code), code)
    {
      hide LoadPair, Met, NeedValue, WF, Ext, ListIs, Apart, Kept;
      var pf, pt := NO_JUMP, NO_JUMP;
      var need := HasPlainJump(t, lt);
      if !need { need := HasPlainJump(f, lf); }
      PlainSame(code, A, lt, lf);
      ghost var c, fs := code, A;
      StayApart(fs, A, c, c, t, lt, f, lf);
      if need {
        LoadPairExt(A, reg, skip);
        pf, pt :- CodeLoadPair(reg, skip);
        StayApart(fs, A, c, code, t, lt, f, lf);
      }
      ghost var fs1, c1 := A, code;
      :- PatchBoth(t, f, reg, pt, pf, lt, lf, if need then |code| - 1 else 0, if need then |code| - 2 else 0);
      OthersKept(fs, fs1, A, lt, lf, reg, c, c1, code);
      return Ok;
    }

    method CloseJumps(e: ExpDesc, reg: nat, ghost a: Exp, ghost base: FS) returns (s: Status)
      requires Valid() && Rep(e, a) && Framed(base, A, a) && (a.k == VNonReloc(reg) || a.k.VJmp?)
      modifies this, e
      ensures s.Ok? <==> CloseLists(old(A), a, reg).ok
      ensures s.Ok? ==> Valid() && A == CloseLists(old(A), a, reg) && Kept(base, old(code), code)
    {
      hide WF, WFE, Ext, New, Closed, PatchCode;
      ghost var t := a.t;
      ghost var fs := A;
      ListsApart(A, a);
      KeptSame(base, A, code);
      if e.k.VJmp? {
        t := a.t + [a.k.pc];
        var head :- Concat(e.t, e.k.pc, a.t, [a.k.pc]);
        LinkedWith(old(code), code, base, A, a, e.f, jpc);
        e.t := head;
      }
      HeadsDiffer(code, A.pend, e.t, t, e.f, a.f);
      ClosedParts(fs, a, reg);
      if e.t != e.f {
        ghost var c := code;
        s := CloseBoth(e.t, e.f, reg, !e.k.VJmp?, t, a.f);
        if s.Ok? { KeptAround(base, fs, a, t, old(code), c, code); }
      } else {
        s := Ok;
      }
    }

    // exp2reg
    method ExpToReg(e: ExpDesc, reg: nat, ghost a: Exp, ghost base: FS) returns (s: Status)
      requires Valid() && Rep(e, a) && Framed(base, A, a) && reg < MAXSTACK
      modifies this, e
      ensures s.Ok? <==> Exp2Reg(old(A), a, reg).fs.ok
      ensures s.Ok? ==>
        var g := Exp2Reg(old(A), a, reg);
        Valid() && A == g.fs && Rep(e, g.e) && Framed(base, A, g.e) && Kept(base, old(code), code)
    {
      hide WF, WFE, Ext, New, Discharge2Reg, CloseLists, Kept;
      ghost var fs0 := A;
      Discharged2Reg(base, A, a, reg);
      :- DischargeTo(e, reg, a, base);
      ghost var g, c := Discharge2Reg(fs0, a, reg), code;
      :- CloseJumps(e, reg, g.e, base);
      CloseFramed(base, g.fs, g.e, reg);
      KeptTwice(base, old(code), c, code);
      e.f, e.t := NO_JUMP, NO_JUMP;
      e.k := VNonReloc(reg);
      return Ok;
    }

    // `e` is the expression `a`, whose code begins at the end of `base`, or an operand made after it.
    ghost predicate Builds(base: FS, e: ExpDesc, a: Exp)
      reads this, e
    {
      Valid() && Rep(e, a) && Framed(base, A, a) && (Inv(base, A, a) || IsOperand(a))
    }

    // luaK_exp2nextreg
    method ExpToNextReg(e: ExpDesc, ghost a: Exp, ghost base: FS) returns (s: Status)
      requires Builds(base, e, a) && Inv(base, A, a)
      modifies this, e
      ensures s.Ok? <==> Exp2NextReg(old(A), a).fs.ok
      ensures s.Ok? ==>
        var g := Exp2NextReg(old(A), a);
        A == g.fs && Builds(base, e, g.e) && Inv(base, A, g.e) && Kept(base, old(code), code)
    {
      hide WF, WFE, Ext, New, Temp, DischargeVars, Exp2Reg, FreeExp, Reserve, Kept;
      ghost var g := DischargeVars(A, a);
      DischargeInv(base, A, a);
      ghost var c0 := code;
      :- DischargeVarsOf(e, a, base);
      ghost var c := code;
      TempTop(base, A, g.e);
      FreeExpr(e, g.e);
      :- ReserveRegs(1);
      RoomWF(base, g.fs, g.e);
      NextReg(base, old(A), a);
      :- ExpToReg(e, freereg - 1, g.e, base);
      KeptTwice(base, c0, c, code);
      return Ok;
    }

    // luaK_exp2anyreg
    method ExpToAnyReg(e: ExpDesc, ghost a: Exp, ghost base: FS) returns (s: Status)
      requires Builds(base, e, a) && (Inv(base, A, a) || a.k.VNonReloc?)
      modifies this, e
      ensures s.Ok? <==> Exp2AnyReg(old(A), a).fs.ok
      ensures s.Ok? ==>
        var g := Exp2AnyReg(old(A), a);
        A == g.fs && Builds(base, e, g.e) && (Inv(base, old(A), a) ==> Inv(base, A, g.e)) && Kept(base, old(code), code)
    {
      hide WF, WFE, Ext, New, Temp, DischargeVars, Exp2Reg, Exp2NextReg, Kept;
      ghost var g := DischargeVars(A, a);
      ghost var c0 := code;
      AnyRegGoal(base, A, a);
      :- DischargeVarsOf(e, a, base);
      HeadsDiffer(code, A.pend, e.t, g.e.t, e.f, g.e.f);
      ghost var c := code;
      if e.k.VNonReloc? {
        if e.t == e.f { return Ok; }
        if e.k.reg >= nactvar {
          :- ExpToReg(e, e.k.reg, g.e, base);
          KeptTwice(base, c0, c, code);
          return Ok;
        }
      }
      :- ExpToNextReg(e, g.e, base);
      KeptTwice(base, c0, c, code);
      return Ok;
    }

    // luaK_exp2val
    method ExpToVal(e: ExpDesc, ghost a: Exp, ghost base: FS) returns (s: Status)
      requires Builds(base, e, a)
      modifies this, e
      ensures s.Ok? <==> Exp2Val(old(A), a).fs.ok
      ensures s.Ok? ==>
        var g := Exp2Val(old(A), a);
        A == g.fs && Builds(base, e, g.e) && (Inv(base, old(A), a) ==> Inv(base, A, g.e)) && Kept(base, old(code), code)
    {
      hide WF, WFE, Ext, New, Temp, DischargeVars, Exp2AnyReg, Kept;
      HeadsDiffer(code, A.pend, e.t, a.t, e.f, a.f) by { ListsDisjoint(A, a); }
      if Inv(base, A, a) { DischargeInv(base, A, a); } else { OperandCalls(A, a); }
      if e.t != e.f { s := ExpToAnyReg(e, a, base); }
      else { s := DischargeVarsOf(e, a, base); }
    }

    // The constants of exp2RK.
    method AddConst(k: Kind) returns (s: Status, i: nat)
      requires Valid() && IsConst(k)
      modifies this
      ensures s.Ok? <==> AddK(old(A), ConstOf(k)).0.ok
      ensures s.Ok? ==>
        Valid() && A == AddK(old(A), ConstOf(k)).0 && i == AddK(old(A), ConstOf(k)).1 && code == old(code)
          && jpc == old(jpc)
    {
      if k.VNil? { s, i := AddConstant(Nil); }
      else if k.VKNum? { s, i := AddConstant(Number(Num(k.num))); }
      else { s, i := AddConstant(Bool(k.VTrue?)); }
    }

    // luaK_exp2RK: the operand is a register, or a constant counted from BITRK on.
    method ExpToRK(e: ExpDesc, ghost a: Exp, ghost base: FS) returns (s: Status, o: nat)
      requires Builds(base, e, a)
      modifies this, e
      ensures s.Ok? <==> Exp2RK(old(A), a).fs.ok
      ensures s.Ok? ==>
        var g := Exp2RK(old(A), a);
        && A == g.fs && Builds(base, e, g.e) && (Inv(base, old(A), a) ==> Inv(base, A, g.e))
          && Kept(base, old(code), code)
        && IsOperand(g.e) && o == Operand(g.e)
        && (if e.k.VK? then o == 256 + e.k.k <= 511 else e.k.VNonReloc? && o == e.k.reg)
    {
      hide WF, WFE, Ext, New, Temp, Exp2Val, Exp2AnyReg, Kept, AddK;
      o := 0;
      ghost var g, c0 := Exp2Val(A, a), code;
      RKGoal(base, A, a);
      :- ExpToVal(e, a, base);
      ghost var c := code;
      KeptSame(base, A, code);
      if e.k.VKNum? || e.k.VTrue? || e.k.VFalse? || e.k.VNil? {
        if |k| <= MAXINDEXRK {
          AddKIndex(A, ConstOf(e.k));
          var i :- AddConst(e.k);
          e.k := VK(i);
          return Ok, BITRK + i;
        }
      } else if e.k.VK? {
        if e.k.k <= MAXINDEXRK { return Ok, BITRK + e.k.k; }
      }
      :- ExpToAnyReg(e, g.e, base);
      KeptTwice(base, c0, c, code);
      return Ok, e.k.reg;
    }

    // luaK_storevar for a local variable
    method StoreVar(reg: nat, e: ExpDesc, ghost a: Exp, ghost base: FS) returns (s: Status)
      requires Builds(base, e, a) && Inv(base, A, a) && reg < nactvar
      modifies this, e
      ensures s.Ok? <==> StoreLocal(old(A), reg, a).ok
      ensures s.Ok? ==> Valid() && A == StoreLocal(old(A), reg, a) && Framed(base, A, Exp(VNonReloc(reg), [], []))
      ensures s.Ok? ==> Kept(base, old(code), code)
    {
      hide WFE, Ext, New, Temp, Exp2Reg, Kept;
      TempTop(base, A, a);
      FreeInv(base, A, a);
      FreeExpr(e, a);
      StoredIn(A, a, reg);
      s := ExpToReg(e, reg, a, base);
    }

    // ---- conditions ------------------------------------------------------------------------------------

    // invertjump
    method Invert(e: ExpDesc, ghost a: Exp, ghost base: FS)
      requires Valid() && Rep(e, a) && Framed(base, A, a) && a.k.VJmp?
      modifies this`code, this`A
      ensures Valid() && A == InvertJump(old(A), a) && Rep(e, a) && Framed(base, A, a) && Kept(base, old(code), code)
    {
      hide Ext, New, Kept;
      DirectedWF(base, A, a, false);
      InvertThreads(code, A, a, base);
      var i := code[e.k.pc - 1];
      code := code[e.k.pc - 1 := Compare(i.cop, !i.cond, i.b, i.c)];
      KeepList(old(code), code, A.pend, A.pend, jpc, A.jpc);
      KeepList(old(code), code, A.pend, A.pend, e.t, a.t);
      KeepList(old(code), code, A.pend, A.pend, e.f, a.f);
      KeepList(old(code), code, A.pend, A.pend, e.k.pc, [a.k.pc]);
      A := InvertJump(A, a);
    }

    // jumponcond on a value that an OP_NOT computes: the instruction is dropped and its operand tested.
    method JumpOnNotOf(e: ExpDesc, cond: bool, ghost a: Exp, ghost base: FS) returns (s: Status, pc: int)
      requires Builds(base, e, a) && Inv(base, A, a) && IsNot(A, a)
      modifies this
      ensures s.Ok? <==> JumpOnCond(old(A), a, cond).ok
      ensures s.Ok? ==>
        && Valid() && A == JumpOnCond(old(A), a, cond) && pc == |code| - 1
        && ListIs(code, A.pend, e.t, a.t) && ListIs(code, A.pend, e.f, a.f) && ListIs(code, A.pend, pc, [|code| - 1])
        && Kept(base, old(code), code)
    {
      hide WFE, Ext, New, CondJump, Kept;
      ghost var fs, c := A, code;
      JumpOnNot(A, a, cond);
      DroppedWF(base, A, a);
      DroppedThreads(code, A, a, jpc, e.t, e.f, base);
      var i := code[e.k.pc];
      code := code[..|code| - 1];
      A := Dropped(A);
      ghost var d, cd := A, code;
      CondJumpWF(A, LuaVM.Test(i.b, !cond));
      var j: int;
      s, j := CondJumpTo(LuaVM.Test(i.b, !cond));
      pc := j;
      if s.Ok? {
        KeepRep(d, cd, A, code, a.(k := VNil), e.t, e.f);
        DroppedKept(base, fs, a, c, cd, code);
      }
    }

    // jumponcond
    method JumpOnCondition(e: ExpDesc, cond: bool, ghost a: Exp, ghost base: FS) returns (s: Status, pc: int)
      requires Builds(base, e, a) && Inv(base, A, a) && Discharged(a) && !a.k.VJmp?
      modifies this, e
      ensures s.Ok? <==> JumpOnCond(old(A), a, cond).ok
      ensures s.Ok? ==>
        && Valid() && A == JumpOnCond(old(A), a, cond) && pc == |code| - 1
        && ListIs(code, A.pend, e.t, a.t) && ListIs(code, A.pend, e.f, a.f) && ListIs(code, A.pend, pc, [|code| - 1])
        && Kept(base, old(code), code)
    {
      hide WFE, Ext, New, CondJump, Kept, JumpOnCond, Discharge2AnyReg;
      pc := NO_JUMP;
      NotHere(code, A, a);
      if e.k.VReloc? && code[e.k.pc].Not? {
        s, pc := JumpOnNotOf(e, cond, a, base);
        return;
      }
      ghost var c0 := code;
      ghost var g := Discharge2AnyReg(A, a);
      JumpOnRegGoal(base, A, a, cond);
      :- DischargeToAny(e, a, base);
      ghost var c1 := code;
      TempTop(base, A, g.e);
      FreeInv(base, A, g.e);
      FreeExpr(e, g.e);
      ghost var i := TestSet(NO_REG, e.k.reg, cond);
      ghost var fs := A;
      CondJumpWF(A, i);
      pc :- CondJumpTo(TestSet(NO_REG, e.k.reg, cond));
      KeepRep(fs, c1, A, code, g.e, e.t, e.f);
      KeptTrans(base, fs, c0, c1, code);
      return Ok, pc;
    }

    // The end of goiftrue and goiffalse: the new jump joins the open list, the other list ends here.
    method OpenAndClose(open: int, pc: int, closed: int, ghost lo: seq<nat>, ghost lp: seq<nat>, ghost lc: seq<nat>)
      returns (s: Status, head: int)
      requires Valid() && ListIs(code, A.pend, open, lo) && ListIs(code, A.pend, pc, lp)
        && ListIs(code, A.pend, closed, lc)
      requires Apart(A, lo, lc) && Apart(A, lo, lp) && Apart(A, lp, lc)
      modifies this
      ensures var fs := old(A).(ok := old(A).ok && Linkable(lo, lp));
              && (s.Ok? <==> PatchToHere(fs, lc).ok)
              && (s.Ok? ==>
                   && Valid() && A == PatchToHere(fs, lc) && ListIs(code, A.pend, head, lo + lp)
                   && KeptOthers(fs, lo, lc, old(code), code))
    {
      ghost var c := code;
      head :- Concat(open, pc, lo, lp);
      LinkThreads(c, code, A.pend, A.code, lo);
      ListJumps(c, A.pend, closed, lc);
      ListJumps(c, A.pend, jpc, A.jpc);
      KeepList(c, code, A.pend, A.pend, closed, lc);
      KeepList(c, code, A.pend, A.pend, jpc, A.jpc);
      ghost var c1 := code;
      :- PatchJumpsToHere(closed, lc);
      ListJumps(c1, A.pend, head, lo + lp);
      KeepList(c1, code, A.pend, A.pend, head, lo + lp);
      return Ok, head;
    }

    // The jump of goiftrue (sense) or goiffalse (!sense) for a value that is not known.
    method TakeJump(e: ExpDesc, sense: bool, ghost a: Exp, ghost base: FS) returns (s: Status, pc: int, ghost j: nat)
      requires Builds(base, e, a) && Inv(base, A, a) && Discharged(a) && !Known(a.k, sense)
      modifies this, e
      ensures s.Ok? <==> Branched(old(A), a, sense).ok
      ensures s.Ok? ==>
        && Valid() && A == Branched(old(A), a, sense) && j == BranchPc(A, a)
        && ListIs(code, A.pend, e.t, a.t) && ListIs(code, A.pend, e.f, a.f) && ListIs(code, A.pend, pc, [j])
        && Kept(base, old(code), code)
      ensures s.Ok? ==>
          Apart(A, a.t, a.f) && Apart(A, a.f, a.t) && Apart(A, a.t, [j]) && Apart(A, a.f, [j]) && Apart(A, [j], a.t)
          && Apart(A, [j], a.f)
      ensures s.Ok? ==>
          forall i :: i in base.pend && i !in base.jpc ==> i !in a.t && i !in a.f && i in A.pend && i !in A.jpc
    {
      hide WF, WFE, Ext, New, Kept, JumpOnCond, InvertJump, Apart, BranchInv;
      pc, j := NO_JUMP, 0;
      KeptSame(base, A, code);
      if e.k.VJmp? {
        JmpInv(base, A, a, !sense);
        if sense { Invert(e, a, base); }
        pc, j, s := e.k.pc, a.k.pc, Ok;
      } else {
        if JumpOnCond(A, a, !sense).ok { JumpOnCondInv(base, A, a, !sense); }
        pc :- JumpOnCondition(e, !sense, a, base);
        j, s := |code| - 1, Ok;
      }
      BranchApart(base, A, a, j);
    }

    // luaK_goiftrue
    method CodeGoIfTrue(e: ExpDesc, ghost a: Exp, ghost base: FS) returns (s: Status)
      requires Builds(base, e, a) && Inv(base, A, a)
      modifies this, e
      ensures s.Ok? <==> GoIfTrue(old(A), a).fs.ok
      ensures s.Ok? ==>
        var g := GoIfTrue(old(A), a);
        Valid() && A == g.fs && e.t == NO_JUMP && ListIs(code, A.pend, e.f, g.e.f) && Kept(base, old(code), code)
    {
      hide WF, WFE, Ext, New, Kept, DischargeVars, PatchToHere, Apart, Branched;
      ghost var g, c0 := DischargeVars(A, a), code;
      DischargeInv(base, A, a);
      GoIfBranch(A, a, true);
      :- DischargeVarsOf(e, a, base);
      var pc := NO_JUMP;
      ghost var lp, c1 := [], code;
      ListsOwn(base, A, g.e);
      if !(e.k.VK? || e.k.VKNum? || e.k.VTrue?) {
        ghost var j;
        s, pc, j := TakeJump(e, true, g.e, base);
        if !s.Ok? { return s; }
        lp := [j];
      }
      ghost var fs, c2 := A, code;
      var head :- OpenAndClose(e.f, pc, e.t, g.e.f, lp, g.e.t);
      KeptOwn(base, fs, g.e.f, g.e.t, c0, c1, c2, code);
      e.f, e.t := head, NO_JUMP;
      return Ok;
    }

    // luaK_goiffalse
    method CodeGoIfFalse(e: ExpDesc, ghost a: Exp, ghost base: FS) returns (s: Status)
      requires Builds(base, e, a) && Inv(base, A, a)
      modifies this, e
      ensures s.Ok? <==> GoIfFalse(old(A), a).fs.ok
      ensures s.Ok? ==>
        var g := GoIfFalse(old(A), a);
        Valid() && A == g.fs && e.f == NO_JUMP && ListIs(code, A.pend, e.t, g.e.t) && Kept(base, old(code), code)
    {
      hide WF, WFE, Ext, New, Kept, DischargeVars, PatchToHere, Apart, Branched;
      ghost var g, c0 := DischargeVars(A, a), code;
      DischargeInv(base, A, a);
      GoIfBranch(A, a, false);
      :- DischargeVarsOf(e, a, base);
      var pc := NO_JUMP;
      ghost var lp, c1 := [], code;
      ListsOwn(base, A, g.e);
      if !(e.k.VNil? || e.k.VFalse?) {
        ghost var j;
        s, pc, j := TakeJump(e, false, g.e, base);
        if !s.Ok? { return s; }
        lp := [j];
      }
      ghost var fs, c2 := A, code;
      var head :- OpenAndClose(e.t, pc, e.f, g.e.t, lp, g.e.f);
      KeptOwn(base, fs, g.e.t, g.e.f, c0, c1, c2, code);
      e.t, e.f := head, NO_JUMP;
      return Ok;
    }

    // The OP_NOT of codenot for a value in a register
    method CodeNotReg(e: ExpDesc, ghost a: Exp, ghost base: FS) returns (s: Status)
      requires Builds(base, e, a) && Inv(base, A, a) && a.k.VNonReloc?
      modifies this, e
      ensures var v := Emit(FreeExp(old(A), a), Not(0, Operand(a)));
              && (s.Ok? <==> v.ok)
              && (s.Ok? ==>
                   && Valid() && A == v && v.Pc() > 0 && e.k == VReloc(v.Pc() - 1)
                   && ListIs(code, A.pend, e.t, a.t) && ListIs(code, A.pend, e.f, a.f) && Kept(base, old(code), code))
    {
      hide WF, WFE, Ext, New, Temp, Kept, Emit;
      ghost var c := code;
      TempTop(base, A, a);
      FreeInv(base, A, a);
      FreeExpr(e, a);
      ghost var fs := A;
      KeptSame(base, A, code);
      EmitWF(A, Not(0, e.k.reg));
      :- Code(Not(0, e.k.reg));
      e.k := VReloc(|code| - 1);
      KeepRep(fs, c, A, code, a, e.t, e.f);
      KeptTrans(base, fs, c, c, code);
      return Ok;
    }

    // The first half of codenot
    method Negate(e: ExpDesc, ghost a: Exp, ghost base: FS) returns (s: Status)
      requires Builds(base, e, a) && Inv(base, A, a) && Discharged(a)
      modifies this, e
      ensures s.Ok? <==> NegateValue(old(A), a).fs.ok
      ensures s.Ok? ==>
        var h := NegateValue(old(A), a);
        A == h.fs && Builds(base, e, h.e) && Inv(base, A, h.e) && Kept(base, old(code), code)
    {
      hide WF, WFE, Ext, New, Temp, Kept, InvertJump, Discharge2AnyReg, Emit, FreeExp;
      ghost var g, c0 := Discharge2AnyReg(A, a), code;
      NegateGoal(base, A, a);
      KeptSame(base, A, code);
      if e.k.VNil? || e.k.VFalse? {
        e.k := VTrue;
      } else if e.k.VK? || e.k.VKNum? || e.k.VTrue? {
        e.k := VFalse;
      } else if e.k.VJmp? {
        Invert(e, a, base);
      } else {
        :- DischargeToAny(e, a, base);
        ghost var c1 := code;
        :- CodeNotReg(e, g.e, base);
        KeptTwice(base, c0, c1, code);
      }
      return Ok;
    }

    // codenot
    method CodeNotOf(e: ExpDesc, ghost a: Exp, ghost base: FS) returns (s: Status)
      requires Builds(base, e, a) && Inv(base, A, a)
      modifies this, e
      ensures s.Ok? <==> CodeNot(old(A), a).fs.ok
      ensures s.Ok? ==>
        var g := CodeNot(old(A), a);
        A == g.fs && Builds(base, e, g.e) && Inv(base, A, g.e) && Kept(base, old(code), code)
    {
      hide WF, WFE, Ext, New, Temp, Kept, NegateValue, DischargeVars, RemoveCode;
      ghost var g, c0 := DischargeVars(A, a), code;
      ghost var h := NegateValue(g.fs, g.e);
      DischargeInv(base, A, a);
      if CodeNot(A, a).fs.ok { NotInv(base, A, a); }
      :- DischargeVarsOf(e, a, base);
      ghost var c1 := code;
      :- Negate(e, g.e, base);
      ghost var c2 := code;
      RemoveThreads(code, A, h.e, base, jpc, e.t, e.f, e.k.VJmp?, if e.k.VJmp? then e.k.pc else 0);
      e.t, e.f := e.f, e.t;
      RemoveValues(e.f, h.e.t);
      RemoveValues(e.t, h.e.f);
      A := Removed(A, h.e);
      KeptTwice(base, c0, c1, c2);
      KeptTwice(base, c0, c2, code);
      return Ok;
    }

    // ---- operators -------------------------------------------------------------------------------------

    // The left operand of a binary operator: made before the code of the right one, and without jumps.
    ghost predicate LeftOperand(base: FS, fs: FS, e: ExpDesc, a: Exp)
      reads e
    {
      OperandIs(base, fs, e.k, e.t, e.f, a)
    }

    // constfolding
    method ConstFolding(op: ArithOp, e1: ExpDesc, e2: ExpDesc, ghost a1: Exp, ghost a2: Exp) returns (r: Option<real>)
      requires Rep(e1, a1) && Rep(e2, a2)
      ensures r == if IsNumeral(a1) && IsNumeral(a2) then Fold(ops, op, a1.k.num, a2.k.num) else None
    {
      if !(e1.k.VKNum? && e1.t == NO_JUMP && e1.f == NO_JUMP) || !(e2.k.VKNum? && e2.t == NO_JUMP && e2.f == NO_JUMP) {
        return None;
      }
      if (op == Div || op == Mod) && e2.k.num == 0.0 {
        return None;
      }
      var v := ops.num(op, Num(e1.k.num), Num(e2.k.num));
      return if v.NaN? then None else Some(v.r);
    }

    // Both operands of codearith, freed from the top of the stack down.
    method FreePair(e1: ExpDesc, e2: ExpDesc, o1: nat, o2: nat, ghost a1: Exp, ghost a2: Exp)
      requires Valid() && e1.k == a1.k && e2.k == a2.k && IsOperand(a1) && IsOperand(a2)
      requires o1 == Operand(a1) && o2 == Operand(a2) && Stacked(A, a1, a2)
      modifies this
      ensures Valid() && A == Free2(old(A), a1, a2) && code == old(code) && jpc == old(jpc)
    {
      if o1 > o2 {
        FreeExpr(e1, a1);
        FreeExpr(e2, a2);
      } else {
        FreeExpr(e2, a2);
        FreeExpr(e1, a1);
      }
    }

    // codearith for a binary operator
    method CodeArithOf(op: ArithOp, e1: ExpDesc, e2: ExpDesc, ghost a1: Exp, ghost a2: Exp, ghost base0: FS,
      ghost base1: FS)
      returns (s: Status)
      requires e1 != e2 && LeftOperand(base0, base1, e1, a1) && Builds(base1, e2, a2) && Inv(base1, A, a2)
      modifies this, e1, e2
      ensures s.Ok? <==> CodeArith(old(A), op, a1, a2).fs.ok
      ensures s.Ok? ==>
        var g := CodeArith(old(A), op, a1, a2);
        A == g.fs && Builds(base0, e1, g.e) && Inv(base0, A, g.e) && Kept(base1, old(code), code)
    {
      hide WF, WFE, Ext, New, Temp, Kept, Exp2RK, Free2, Emit, Stacked, Inv;
      ghost var fs, c0 := A, code;
      ArithGoal(base0, base1, a1, A, a2, op);
      LeftRep(code, A, e1.t, e1.f, a1);
      KeptSame(base1, A, code);
      var fold := ConstFolding(op, e1, e2, a1, a2);
      if fold.Some? {
        e1.k := VKNum(fold.value);
        return Ok;
      }
      var o1, o2 :- PlacePair(e1, e2, a1, a2, base0, base1);
      ghost var g2 := Exp2RK(fs, a2);
      ghost var g1, c2 := Exp2RK(g2.fs, a1), code;
      PairReady(base0, base1, a1, fs, a2);
      FreePair(e1, e2, o1, o2, g1.e, g2.e);
      ghost var v := A;
      EmitWF(A, LuaVM.Arith(op, 0, o1, o2));
      :- Code(LuaVM.Arith(op, 0, o1, o2));
      e1.k := VReloc(|code| - 1);
      LeftRep(code, A, e1.t, e1.f, Open(v, g1.e));
      KeptTrans(base1, v, c0, c2, code);
      return Ok;
    }

    // codearith: the operands, the second one first
    method PlacePair(e1: ExpDesc, e2: ExpDesc, ghost a1: Exp, ghost a2: Exp, ghost base0: FS, ghost base1: FS)
      returns (s: Status, o1: nat, o2: nat)
      requires e1 != e2 && LeftOperand(base0, base1, e1, a1) && Builds(base1, e2, a2) && Inv(base1, A, a2)
      modifies this, e1, e2
      ensures s.Ok? <==> Exp2RK(old(A), a2).fs.ok && Exp2RK(Exp2RK(old(A), a2).fs, a1).fs.ok
      ensures s.Ok? ==>
        var g2 := Exp2RK(old(A), a2);
        var g1 := Exp2RK(g2.fs, a1);
        && Valid() && A == g1.fs && e1.k == g1.e.k && e2.k == g2.e.k && e1.t == e1.f == NO_JUMP
        && o1 == Operand(g1.e) && o2 == Operand(g2.e) && Kept(base1, old(code), code)
    {
      hide WF, WFE, Ext, New, Temp, Kept, Exp2RK, Inv;
      o1, o2 := 0, 0;
      ghost var fs, c0 := A, code;
      KeptSame(base1, A, code);
      o2 :- ExpToRK(e2, a2, base1);
      ghost var g2, c1 := Exp2RK(fs, a2), code;
      LeftReady(base0, base1, a1, fs, a2);
      LeftRep(code, A, e1.t, e1.f, a1);
      o1 :- ExpToRK(e1, a1, A);
      NoHeads(code, A.pend, e1.t, e1.f, Exp2RK(g2.fs, a1).e);
      KeptTrans(base1, g2.fs, c0, c1, code);
      return Ok, o1, o2;
    }

    // codearith for unary minus and length, with luaK_prefix's operand
    method CodeUnaryOf(op: UnaryOp, e: ExpDesc, ghost a: Exp, ghost base: FS) returns (s: Status)
      requires Builds(base, e, a) && Inv(base, A, a) && !HasJumps(a) && (a.k.VNonReloc? || (op == Unm && a.k.VKNum?))
      modifies this, e
      ensures s.Ok? <==> CodeUnary(old(A), op, a).fs.ok
      ensures s.Ok? ==>
        var g := CodeUnary(old(A), op, a);
        A == g.fs && Builds(base, e, g.e) && Inv(base, A, g.e) && Kept(base, old(code), code)
    {
      hide WF, WFE, Ext, New, Temp, Kept, Exp2RK, Emit, FreeExp, Inv;
      ghost var c0, fs := code, A;
      UnaryGoal(base, A, a, op);
      KeptSame(base, A, code);
      if op == Unm && e.k.VKNum? {
        e.k := VKNum(ops.neg(e.k.num));
        return Ok;
      }
      OperandStays(A, a);
      var o: nat;
      s, o := ExpToRK(e, a, base);
      ghost var c1 := code;
      TempTop(base, A, a);
      FreeInv(base, A, a);
      FreeExpr(e, a);
      ghost var v := A;
      EmitWF(A, LuaVM.Unary(op, 0, o));
      :- Code(LuaVM.Unary(op, 0, o));
      e.k := VReloc(|code| - 1);
      NoHeads(c1, fs.pend, e.t, e.f, a);
      LeftRep(code, A, e.t, e.f, Open(v, a));
      KeptTrans(base, v, c0, c1, code);
      return Ok;
    }

    // The operands of codecomp
    method PlaceBoth(e1: ExpDesc, e2: ExpDesc, ghost a1: Exp, ghost a2: Exp, ghost base0: FS, ghost base1: FS)
      returns (s: Status, o1: nat, o2: nat)
      requires e1 != e2 && LeftOperand(base0, base1, e1, a1) && IsOperand(a1) && Builds(base1, e2, a2)
        && Inv(base1, A, a2)
      modifies this, e1, e2
      ensures s.Ok? <==> Exp2RK(old(A), a2).fs.ok
      ensures s.Ok? ==>
        var g := Exp2RK(old(A), a2);
        && Valid() && A == g.fs && e2.k == g.e.k && e1.k == a1.k && e1.t == e1.f == NO_JUMP
        && o1 == Operand(a1) && o2 == Operand(g.e) && Kept(base1, old(code), code)
    {
      hide WF, WFE, Ext, New, Temp, Kept, Exp2RK, Inv;
      o1, o2 := 0, 0;
      ghost var fs, c0 := A, code;
      LeftStays(base0, base1, a1, A, a2);
      LeftRep(code, A, e1.t, e1.f, a1);
      s, o1 := ExpToRK(e1, a1, A);
      ghost var c1 := code;
      NoHeads(c1, fs.pend, e1.t, e1.f, a1);
      KeepExp(base1, fs, a2, c0, c1, e2.t, e2.f, if e2.k.VJmp? then e2.k.pc else 0);
      KeptTrans(base1, fs, c0, c0, c1) by { KeptSame(base1, fs, c0); }
      o2 :- ExpToRK(e2, a2, base1);
      KeptTwice(base1, c0, c1, code);
      return Ok, o1, o2;
    }

    // codecomp: the operands, whose registers are free then
    method PlaceFree(e1: ExpDesc, e2: ExpDesc, ghost a1: Exp, ghost a2: Exp, ghost base0: FS, ghost base1: FS)
      returns (s: Status, o1: nat, o2: nat)
      requires e1 != e2 && LeftOperand(base0, base1, e1, a1) && IsOperand(a1) && Builds(base1, e2, a2)
        && Inv(base1, A, a2)
      modifies this, e1, e2
      ensures s.Ok? <==> Exp2RK(old(A), a2).fs.ok
      ensures s.Ok? ==>
        var g := Exp2RK(old(A), a2);
        && Valid() && A == FreeExp(FreeExp(g.fs, g.e), a1) && |code| == |g.fs.code| && e1.t == e1.f == NO_JUMP
        && o1 == Operand(a1) && o2 == Operand(g.e) && Kept(base1, old(code), code)
    {
      hide WF, WFE, Ext, New, Temp, Kept, Exp2RK, FreeExp, Inv;
      o1, o2 := 0, 0;
      ghost var fs, g := A, Exp2RK(A, a2);
      o1, o2 :- PlaceBoth(e1, e2, a1, a2, base0, base1);
      CompReady(base0, base1, a1, fs, a2);
      FreeExpr(e2, g.e);
      FreeExpr(e1, a1);
      return Ok, o1, o2;
    }

    // codecomp: `>` and `>=` exchange the operands of `<` and `<=`.
    method CodeCompOf(op: CompareOp, cond: bool, e1: ExpDesc, e2: ExpDesc, ghost a1: Exp, ghost a2: Exp,
      ghost base0: FS, ghost base1: FS)
      returns (s: Status)
      requires e1 != e2 && LeftOperand(base0, base1, e1, a1) && IsOperand(a1) && Builds(base1, e2, a2)
        && Inv(base1, A, a2)
      modifies this, e1, e2
      ensures s.Ok? <==> CodeComp(old(A), op, cond, a1, a2).fs.ok
      ensures s.Ok? ==>
        var g := CodeComp(old(A), op, cond, a1, a2);
        A == g.fs && Builds(base0, e1, g.e) && Inv(base0, A, g.e) && Kept(base1, old(code), code)
    {
      hide WF, WFE, Ext, New, Temp, Kept, Exp2RK, FreeExp, CondJump, Inv, CodeComp, Framed;
      ghost var fs, c0, g2 := A, code, Exp2RK(A, a2);
      CompGoal(base0, base1, a1, A, a2, op, cond);
      var o1, o2 :- PlaceFree(e1, e2, a1, a2, base0, base1);
      ghost var c1, v := code, A;
      CompReady(base0, base1, a1, fs, a2);
      var i := if !cond && op != Eq then Compare(op, true, o2, o1) else Compare(op, cond, o1, o2);
      CondJumpWF(A, i);
      var pc: int;
      pc :- CondJumpTo(i);
      e1.k := VJmp(pc);
      LeftRep(code, A, e1.t, e1.f, a1);
      KeptTrans(base1, v, c0, c1, code);
      return Ok;
    }

    // luaK_prefix
    method CodePrefix(op: UnOpr, e: ExpDesc, ghost a: Exp, ghost base: FS) returns (s: Status)
      requires Builds(base, e, a) && Inv(base, A, a)
      modifies this, e
      ensures s.Ok? <==> Prefix(old(A), op, a).fs.ok
      ensures s.Ok? ==>
        var g := Prefix(old(A), op, a);
        A == g.fs && Builds(base, e, g.e) && Inv(base, A, g.e) && Kept(base, old(code), code)
    {
      hide WF, WFE, Ext, New, Temp, Kept, Exp2AnyReg, CodeUnary, CodeNot, Inv;
      if op == LNot {
        s := CodeNotOf(e, a, base);
        return;
      }
      ghost var c0, b := code, a;
      KeptSame(base, A, code);
      AnyRegPlain(base, A, a);
      NumeralHeads(code, A.pend, e.t, e.f, a);
      if op == Length || !(e.k.VKNum? && e.t == NO_JUMP && e.f == NO_JUMP) {
        b := Exp2AnyReg(A, a).e;
        :- ExpToAnyReg(e, a, base);
      }
      ghost var c1 := code;
      :- CodeUnaryOf(if op == Minus then Unm else Len, e, b, base);
      KeptTwice(base, c0, c1, code);
      return Ok;
    }

    // What luaK_infix, at the state fs, leaves for luaK_posfix.
    ghost predicate Left(op: BinOpr, base: FS, fs: FS, e: ExpDesc, a: Exp)
      reads this, e
    {
      LeftIs(op, base, fs, code, A.pend, e.k, e.t, e.f, a)
    }

    // luaK_infix
    method CodeInfix(op: BinOpr, e: ExpDesc, ghost a: Exp, ghost base: FS) returns (s: Status)
      requires Builds(base, e, a) && Inv(base, A, a)
      modifies this, e
      ensures s.Ok? <==> Infix(old(A), op, a).fs.ok
      ensures s.Ok? ==>
        var g := Infix(old(A), op, a);
        Valid() && A == g.fs && Left(op, base, A, e, g.e) && Kept(base, old(code), code)
    {
      hide WF, WFE, Ext, New, Temp, Kept, Exp2RK, GoIfTrue, GoIfFalse, Inv, CondInv;
      if op == And {
        if GoIfTrue(A, a).fs.ok { GoInv(base, A, a, true); }
        s := CodeGoIfTrue(e, a, base);
      } else if op == Or {
        if GoIfFalse(A, a).fs.ok { GoInv(base, A, a, false); }
        s := CodeGoIfFalse(e, a, base);
      } else {
        KeptSame(base, A, code);
        NumeralHeads(code, A.pend, e.t, e.f, a);
        if op.BArith? && e.k.VKNum? && e.t == NO_JUMP && e.f == NO_JUMP {
          return Ok;
        }
        var o :- ExpToRK(e, a, base);
        ghost var g := Exp2RK(old(A), a).e;
        NoHeads(code, A.pend, e.t, e.f, g);
        return Ok;
      }
    }

    // luaK_posfix for `and` (sense) and `or`: the list goes behind the one of the right operand.
    method LinkBehind(sense: bool, e: ExpDesc, list: int, ghost g: Exp, ghost l: seq<nat>, ghost base: FS)
      returns (s: Status)
      requires Valid() && Rep(e, g) && Framed(base, A, g) && ListIs(code, A.pend, list, l)
      requires forall j :: j in Open1(g, sense) ==> j !in l
      modifies this`code, e
      ensures s.Ok? <==> Linkable(Open1(g, sense), l)
      ensures s.Ok? ==> Valid() && Rep(e, Appended(g, l, sense)) && Kept(base, old(code), code)
    {
      hide WF, WFE, Ext, New, Kept, Linkable;
      var pc := if e.k.VJmp? then e.k.pc else 0;
      if sense {
        var head :- Concat(e.f, list, g.f, l);
        Joined1(old(code), code, base, A, g, g.f, e.t, g.t, jpc, pc);
        e.f := head;
      } else {
        var head :- Concat(e.t, list, g.t, l);
        Joined1(old(code), code, base, A, g, g.t, e.f, g.f, jpc, pc);
        e.t := head;
      }
      return Ok;
    }

    method JoinLogic(op: BinOpr, e1: ExpDesc, e2: ExpDesc, ghost a1: Exp, ghost a2: Exp, ghost base0: FS,
      ghost base1: FS)
      returns (s: Status)
      requires e1 != e2 && IsLogic(op) && Builds(base1, e2, a2) && Inv(base1, A, a2) && WF(base0)
      requires var l := Open1(a1, op == And);
               CondInv(base0, base1, l) && ListIs(code, A.pend, if op == And then e1.f else e1.t, l)
      modifies this, e1, e2
      ensures s.Ok? <==> Posfix(old(A), op, a1, a2).fs.ok
      ensures s.Ok? ==>
        var g := Posfix(old(A), op, a1, a2);
        A == g.fs && Builds(base0, e1, g.e) && Inv(base0, A, g.e) && Kept(base1, old(code), code)
    {
      hide WF, WFE, Ext, New, Temp, Kept, DischargeVars, Inv, CondInv, Linkable, ListIs, Posfix, Appended;
      ghost var fs, c0, g, l := A, code, DischargeVars(A, a2), Open1(a1, op == And);
      DischargeInv(base1, A, a2);
      JoinReady(base0, base1, A, a2, l, op == And);
      LogicGoal(base0, base1, a1, A, a2, op);
      :- DischargeVarsOf(e2, a2, base1);
      ghost var c1 := code;
      LeftList(base0, base1, A, l, c0, code, fs.pend, if op == And then e1.f else e1.t);
      :- LinkBehind(op == And, e2, if op == And then e1.f else e1.t, g.e, l, base1);
      KeptTwice(base1, c0, c1, code);
      e1.k, e1.t, e1.f := e2.k, e2.t, e2.f;
      return Ok;
    }

    // luaK_posfix
    method CodePosfix(op: BinOpr, e1: ExpDesc, e2: ExpDesc, ghost a1: Exp, ghost a2: Exp, ghost base0: FS,
      ghost base1: FS)
      returns (s: Status)
      requires e1 != e2 && WF(base0) && Left(op, base0, base1, e1, a1) && Builds(base1, e2, a2) && Inv(base1, A, a2)
      modifies this, e1, e2
      ensures s.Ok? <==> Posfix(old(A), op, a1, a2).fs.ok
      ensures s.Ok? ==>
        var g := Posfix(old(A), op, a1, a2);
        A == g.fs && Builds(base0, e1, g.e) && Inv(base0, A, g.e) && Kept(base1, old(code), code)
    {
      hide WF, Kept, Inv, CondInv, CodeArith, CodeComp, Posfix, Builds, Valid;
      if op == And || op == Or {
        s := JoinLogic(op, e1, e2, a1, a2, base0, base1);
      } else {
        PosfixOther(A, op, a1, a2);
        if op.BArith? { s := CodeArithOf(op.op, e1, e2, a1, a2, base0, base1); }
        else if op == EQ || op == NE { s := CodeCompOf(Eq, op == EQ, e1, e2, a1, a2, base0, base1); }
        else if op == LT || op == GT { s := CodeCompOf(Lt, op == LT, e1, e2, a1, a2, base0, base1); }
        else { s := CodeCompOf(Le, op == LE, e1, e2, a1, a2, base0, base1); }
      }
    }
  }

  ghost predicate OperandIs(base: FS, fs: FS, k: Kind, t: int, f: int, a: Exp) {
    WF(base) && Inv(base, fs, a) && (IsOperand(a) || IsNumeral(a)) && k == a.k && t == NO_JUMP && f == NO_JUMP
  }

  ghost predicate LeftIs(op: BinOpr, base: FS, fs: FS, code: seq<Instr>, pend: set<nat>, k: Kind, t: int, f: int,
    a: Exp) {
    if op == And then t == NO_JUMP && ListIs(code, pend, f, a.f) && CondInv(base, fs, a.f)
    else if op == Or then f == NO_JUMP && ListIs(code, pend, t, a.t) && CondInv(base, fs, a.t)
    else OperandIs(base, fs, k, t, f, a) && (op.BArith? || IsOperand(a))
  }

  // The registers that operands hold are the topmost ones in use.
  ghost predicate Stacked(fs: FS, a1: Exp, a2: Exp) {
    && (IsTemp(fs, a1) && IsTemp(fs, a2) ==>
         if a1.k.reg < a2.k.reg then a2.k.reg + 1 == fs.freereg && a1.k.reg + 2 == fs.freereg
         else a1.k.reg + 1 == fs.freereg && a2.k.reg + 2 == fs.freereg)
    && (IsTemp(fs, a1) && !IsTemp(fs, a2) ==> a1.k.reg + 1 == fs.freereg)
    && (IsTemp(fs, a2) && !IsTemp(fs, a1) ==> a2.k.reg + 1 == fs.freereg)
    && (a1.k.VNonReloc? ==> a1.k.reg < MAXSTACK) && (a2.k.VNonReloc? ==> a2.k.reg < MAXSTACK)
  }

  // The state with the jump of goiftrue or goiffalse, and where that jump is.
  ghost function Branched(fs: FS, a: Exp, sense: bool): FS {
    if a.k.VJmp? then Directed(fs, a, !sense) else JumpOnCond(fs, a, !sense)
  }

  ghost function BranchPc(fs: FS, a: Exp): nat {
    if a.k.VJmp? then a.k.pc else if fs.Pc() > 0 then fs.Pc() - 1 else 0
  }

  // Patch both lists to the end of the code; jumps without a value go to dt and df.
  ghost function Met(fs: FS, t: seq<nat>, f: seq<nat>, reg: nat, dt: nat, df: nat): (r: FS)
    ensures Later(fs, r) && forall j :: j in fs.pend && j !in t && j !in f ==> j in r.pend
  {
    var fs2 := Label(fs);
    Patch(Patch(fs2, f, fs2.Pc(), reg, df), t, fs2.Pc(), reg, dt)
  }

  ghost function Closed(fs: FS, t: seq<nat>, f: seq<nat>, reg: nat, skip: bool): FS {
    var need := NeedValue(fs.code, t) || NeedValue(fs.code, f);
    var fs1 := if need then LoadPair(fs, reg, skip) else fs;
    Met(fs1, t, f, reg, if need then fs1.Pc() - 1 else 0, if need then fs1.Pc() - 2 else 0)
  }

  // Open lists without a common jump.
  ghost predicate Apart(fs: FS, t: seq<nat>, f: seq<nat>) {
    && (forall j :: j in t ==> j in fs.pend && j !in fs.jpc && j !in f)
    && (forall j :: j in f ==> j in fs.pend && j !in fs.jpc && j !in t)
  }

  ghost predicate KeptOthers(fs: FS, t: seq<nat>, f: seq<nat>, c: seq<Instr>, c': seq<Instr>) {
    forall j :: j in fs.pend && j !in fs.jpc && j !in t && j !in f ==> j < |c| && j < |c'| && c'[j] == c[j]
  }

  // `a` is a well-formed descriptor at fs, all of it made after base.
  ghost predicate Framed(base: FS, fs: FS, a: Exp) {
    WF(base) && WF(fs) && WFE(fs, a) && Ext(base, fs) && New(base, a)
  }

  lemma ReserveFramed(base: FS, fs: FS, a: Exp)
    requires Framed(base, fs, a)
    ensures Reserve(fs, 1).ok ==> Framed(base, Reserve(fs, 1), a) && fs.freereg < MAXSTACK
  {
    SameCodeKeeps(base, fs, Reserve(fs, 1), a);
  }

  lemma DischargeTwice(fs: FS, a: Exp, reg: nat)
    ensures var g := DischargeVars(fs, a);
            Discharge2Reg(fs, a, reg) == Discharge2Reg(g.fs, g.e, reg)
  {
    hide Emit, NilCode, AddK;
  }

  lemma Discharge2RegKeeps(base: FS, fs: FS, a: Exp, reg: nat)
    requires Framed(base, fs, a) && Discharged(a) && reg < MAXSTACK
    ensures var g := Discharge2Reg(fs, a, reg);
            && Framed(base, g.fs, g.e) && Ext(fs, g.fs) && g.e == a.(k := if a.k.VJmp? then a.k else VNonReloc(reg))
            && (a.k.VJmp? ==> g.fs == fs)
  {
    hide WF, WFE, Ext, Discharge2Reg;
    Discharge2RegWF(fs, a, reg);
    ExtTrans(base, fs, Discharge2Reg(fs, a, reg).fs);
    JmpStays(fs, a, reg);
  }

  lemma JmpStays(fs: FS, a: Exp, reg: nat)
    ensures a.k.VJmp? ==> Discharge2Reg(fs, a, reg) == Gen(fs, a)
  {
  }

  lemma KeptSame(base: FS, fs: FS, c: seq<Instr>)
    requires Ext(base, fs) && Unthreaded(c, fs.pend, fs.code)
    ensures Kept(base, c, c)
  {
  }

  lemma KeptTrans(base: FS, fs: FS, c0: seq<Instr>, c1: seq<Instr>, c2: seq<Instr>)
    requires Ext(base, fs) && Kept(base, c0, c1) && Kept(fs, c1, c2)
    ensures Kept(base, c0, c2)
  {
  }

  // Setting the target register of the last instruction leaves every list as it is.
  lemma RetargetThreads(c: seq<Instr>, c': seq<Instr>, fs: FS, a: Exp, reg: nat, jpc: int)
    requires WF(fs) && WFE(fs, a) && a.k.VReloc? && Unthreaded(c, fs.pend, fs.code)
      && c' == c[a.k.pc := SetA(c[a.k.pc], reg)]
    requires ListIs(c, fs.pend, jpc, fs.jpc)
    ensures var g := Discharge2Reg(fs, a, reg);
            && Unthreaded(c', fs.pend, g.fs.code) && ListIs(c', fs.pend, jpc, fs.jpc) && Kept(fs, c, c')
            && g.fs == fs.(code := g.fs.code)
  {
    assert a.k.pc !in fs.pend;
    KeepList(c, c', fs.pend, fs.pend, jpc, fs.jpc);
  }

  // exp2reg links the jump of a comparison behind the jumps of its true list.
  lemma LinkedWith(c: seq<Instr>, c': seq<Instr>, base: FS, fs: FS, a: Exp, f: int, jpc: int)
    requires Framed(base, fs, a) && a.k.VJmp? && Unthreaded(c, fs.pend, fs.code) && |c'| == |c|
    requires forall i: nat :: i < |c| && (a.t == [] || i != a.t[|a.t| - 1]) ==> c'[i] == c[i]
    requires a.t != [] ==> a.t[|a.t| - 1] < |c'| && c'[a.t[|a.t| - 1]].Jmp?
    requires ListIs(c, fs.pend, f, a.f) && ListIs(c, fs.pend, jpc, fs.jpc)
    ensures Unthreaded(c', fs.pend, fs.code) && ListIs(c', fs.pend, f, a.f) && ListIs(c', fs.pend, jpc, fs.jpc)
    ensures Kept(base, c, c')
  {
    assert a.t != [] ==> a.t[|a.t| - 1] in a.t;
    LinkThreads(c, c', fs.pend, fs.code, a.t);
    KeepList(c, c', fs.pend, fs.pend, f, a.f);
  }

  lemma HeadsDiffer(c: seq<Instr>, pend: set<nat>, t: int, lt: seq<nat>, f: int, lf: seq<nat>)
    requires ListIs(c, pend, t, lt) && ListIs(c, pend, f, lf) && forall j :: j in lt ==> j !in lf
    ensures t == f <==> lt == [] && lf == []
  {
    if lt != [] && lf != [] { assert lt[0] in lt && lf[0] in lf; }
  }

  lemma ListsApart(fs: FS, a: Exp)
    requires WFE(fs, a)
    ensures Apart(fs, if a.k.VJmp? then a.t + [a.k.pc] else a.t, a.f)
    ensures a.k.VJmp? ==> fs.jpc == [] && a.k.pc !in a.t
  {
  }

  lemma PlainSame(c: seq<Instr>, fs: FS, t: seq<nat>, f: seq<nat>)
    requires Unthreaded(c, fs.pend, fs.code) && Apart(fs, t, f)
    ensures NeedValue(c, t) == NeedValue(fs.code, t) && NeedValue(c, f) == NeedValue(fs.code, f)
  {
    assert forall j :: j in t || j in f ==> SetControl(c, j) == SetControl(fs.code, j);
  }

  // Jumps that carry a value still do when another list has been patched.
  lemma PlainAfter(c: seq<Instr>, t: seq<nat>, f: seq<nat>, v: nat, reg: nat, d: nat)
    requires !NeedValue(c, t) && (forall j :: j in t ==> j !in f) && (forall j :: j in f ==> j < |c| && c[j].Jmp?)
    ensures !NeedValue(PatchCode(c, f, v, reg, d), t)
  {
    forall j | j in t
      ensures SetControl(PatchCode(c, f, v, reg, d), j)
    {
      assert SetControl(c, j);
      assert j - 1 !in f ==> PatchAt(c, f, v, reg, d, j - 1) == c[j - 1];
    }
  }

  lemma StayApart(fs: FS, fs': FS, c: seq<Instr>, c': seq<Instr>, t: int, lt: seq<nat>, f: int, lf: seq<nat>)
    requires ListIs(c, fs.pend, t, lt) && ListIs(c, fs.pend, f, lf) && Apart(fs, lt, lf)
    requires (fs == fs' && c == c') || (Ext(fs, fs') && Kept(fs, c, c'))
    ensures ListIs(c', fs'.pend, t, lt) && ListIs(c', fs'.pend, f, lf) && Apart(fs', lt, lf)
  {
    if Ext(fs, fs') && Kept(fs, c, c') {
      KeepList(c, c', fs.pend, fs'.pend, t, lt);
      KeepList(c, c', fs.pend, fs'.pend, f, lf);
    }
  }

  lemma OthersKept(fs: FS, fs1: FS, fs2: FS, t: seq<nat>, f: seq<nat>, reg: nat, c: seq<Instr>, c1: seq<Instr>,
    c2: seq<Instr>)
    requires (fs == fs1 && c == c1) || (Ext(fs, fs1) && Kept(fs, c, c1))
    requires forall j :: j in fs1.pend && j !in t && j !in f ==> j in fs2.pend
    requires |c2| == |c1| && forall j :: j in fs2.pend ==> j < |c2| && c2[j] == c1[j]
    ensures KeptOthers(fs, t, f, c, c2)
  {
  }

  lemma KeptAround(base: FS, fs: FS, a: Exp, t: seq<nat>, c0: seq<Instr>, c1: seq<Instr>, c2: seq<Instr>)
    requires Framed(base, fs, a) && t == (if a.k.VJmp? then a.t + [a.k.pc] else a.t)
    requires Kept(base, c0, c1) && KeptOthers(fs, t, a.f, c1, c2)
    ensures Kept(base, c0, c2)
  {
  }

  lemma KeptTwice(base: FS, c0: seq<Instr>, c1: seq<Instr>, c2: seq<Instr>)
    requires Kept(base, c0, c1) && Kept(base, c1, c2)
    ensures Kept(base, c0, c2)
  {
  }

  lemma ClosedParts(fs: FS, a: Exp, reg: nat)
    ensures var t := if a.k.VJmp? then a.t + [a.k.pc] else a.t;
            var ok := a.k.VJmp? ==> Linkable(a.t, [a.k.pc]);
            if t == [] && a.f == [] then CloseLists(fs, a, reg) == fs
            else CloseLists(fs, a, reg) == Closed(fs.(ok := fs.ok && ok), t, a.f, reg, !a.k.VJmp?)
  {
    hide LoadPair, PatchCode;
  }

  lemma Discharged2Reg(base: FS, fs: FS, a: Exp, reg: nat)
    requires Framed(base, fs, a) && reg < MAXSTACK
    ensures var g := Discharge2Reg(fs, a, reg);
            g.e.k.VJmp? || g.e.k == VNonReloc(reg)
  {
    hide Emit, NilCode, AddK;
  }

  lemma CloseFramed(base: FS, fs: FS, a: Exp, reg: nat)
    requires Framed(base, fs, a) && reg < MAXSTACK && (a.k == VNonReloc(reg) || a.k.VJmp?)
    ensures Framed(base, CloseLists(fs, a, reg), Exp(VNonReloc(reg), [], []))
  {
    hide CloseLists, WF, Ext;
    CloseListsWF(base, fs, a, reg);
  }

  // ---- what an expression may be at a call -----------------------------------------------------------

  lemma DischargeInv(base: FS, fs: FS, a: Exp)
    requires WF(base) && Inv(base, fs, a)
    ensures var g := DischargeVars(fs, a);
            Inv(base, g.fs, g.e) && Discharged(g.e) && g.fs.nactvar == fs.nactvar
  {
    DischargeVarsWF(base, fs, a);
  }

  // A temporary is the topmost register in use.
  lemma TempTop(base: FS, fs: FS, a: Exp)
    requires Inv(base, fs, a)
    ensures IsTemp(fs, a) ==> a.k.reg + 1 == fs.freereg && a.k.reg < MAXSTACK
  {
  }

  lemma RegRange(base: FS, fs: FS, a: Exp)
    requires Inv(base, fs, a)
    ensures (a.k.VNonReloc? ==> a.k.reg < MAXSTACK) && forall j :: j in a.t ==> j !in a.f
  {
  }

  lemma NextReg(base: FS, fs: FS, a: Exp)
    requires WF(base) && Inv(base, fs, a)
    ensures Exp2NextReg(fs, a).fs.ok ==> Inv(base, Exp2NextReg(fs, a).fs, Exp2NextReg(fs, a).e)
    ensures var g := DischargeVars(fs, a);
            Exp2NextReg(fs, a) == Exp2Reg(Room(g.fs, g.e), g.e, FreeExp(g.fs, g.e).freereg)
    ensures var g := DischargeVars(fs, a);
            Room(g.fs, g.e).freereg == FreeExp(g.fs, g.e).freereg + 1
  {
    hide Inv, WF, DischargeVars, Exp2Reg, FreeExp;
    if Exp2NextReg(fs, a).fs.ok { NextRegInv(base, fs, a); }
  }

  lemma RKOk(fs: FS, a: Exp)
    ensures Exp2RK(fs, a).fs.ok ==> Exp2Val(fs, a).fs.ok
  {
    hide Exp2Val, Exp2AnyReg;
  }

  lemma OperandCalls(fs: FS, a: Exp)
    requires IsOperand(a)
    ensures DischargeVars(fs, a) == Gen(fs, a) && Exp2Val(fs, a) == Gen(fs, a) && Exp2RK(fs, a) == Gen(fs, a)
    ensures a.k.VNonReloc? ==> Exp2AnyReg(fs, a) == Gen(fs, a)
  {
  }

  lemma ListsDisjoint(fs: FS, a: Exp)
    requires WFE(fs, a)
    ensures forall j :: j in a.t ==> j !in a.f
  {
  }

  lemma AnyRegGoal(base: FS, fs: FS, a: Exp)
    requires Framed(base, fs, a) && (Inv(base, fs, a) || (IsOperand(a) && a.k.VNonReloc?))
    ensures Exp2AnyReg(fs, a).fs.ok && Inv(base, fs, a) ==> Inv(base, Exp2AnyReg(fs, a).fs, Exp2AnyReg(fs, a).e)
    ensures var g := DischargeVars(fs, a);
            && g.fs.nactvar == fs.nactvar && (forall j :: j in g.e.t ==> j !in g.e.f)
              && (g.e.k.VNonReloc? ==> g.e.k.reg < MAXSTACK)
            && (Inv(base, fs, a) ==> Inv(base, g.fs, g.e))
            && (!Inv(base, fs, a) ==> g == Gen(fs, a))
  {
    hide Inv, WF, Ext, New, Exp2AnyReg, DischargeVars;
    if Inv(base, fs, a) {
      DischargeInv(base, fs, a);
      RegRange(base, DischargeVars(fs, a).fs, DischargeVars(fs, a).e);
      if Exp2AnyReg(fs, a).fs.ok { AnyRegInv(base, fs, a); }
    } else {
      OperandCalls(fs, a);
    }
  }

  lemma RKGoal(base: FS, fs: FS, a: Exp)
    requires Framed(base, fs, a) && (Inv(base, fs, a) || IsOperand(a))
    ensures Exp2RK(fs, a).fs.ok ==> IsOperand(Exp2RK(fs, a).e) && Exp2Val(fs, a).fs.ok
    ensures Exp2RK(fs, a).fs.ok && Inv(base, fs, a) ==> Inv(base, Exp2RK(fs, a).fs, Exp2RK(fs, a).e)
    ensures !Inv(base, fs, a) ==> Exp2Val(fs, a) == Gen(fs, a) && (a.k.VNonReloc? ==> Exp2AnyReg(fs, a) == Gen(fs, a))
    ensures var g := Exp2Val(fs, a);
            g.fs.ok && Inv(base, fs, a) && Exp2AnyReg(g.fs, g.e).fs.ok ==> Exp2AnyReg(g.fs, g.e).e.k.VNonReloc?
  {
    hide Inv, WF, Ext, New, Exp2RK, Exp2AnyReg, Exp2Val;
    RKOk(fs, a);
    if Inv(base, fs, a) {
      if Exp2RK(fs, a).fs.ok { RKInv(base, fs, a); }
      var g := Exp2Val(fs, a);
      if g.fs.ok {
        Exp2ValInv(base, fs, a);
        if Exp2AnyReg(g.fs, g.e).fs.ok { AnyRegInv(base, g.fs, g.e); }
      }
    } else {
      OperandCalls(fs, a);
    }
  }

  lemma StoredIn(fs: FS, a: Exp, reg: nat)
    ensures Exp2Reg(fs, a, reg).e == Exp(VNonReloc(reg), [], [])
  {
    hide Discharge2Reg, CloseLists;
  }

  // Inverting a comparison changes no pending jump.
  lemma InvertThreads(c: seq<Instr>, fs: FS, a: Exp, base: FS)
    requires Framed(base, fs, a) && a.k.VJmp? && Unthreaded(c, fs.pend, fs.code)
    ensures a.k.pc - 1 < |c| && c[a.k.pc - 1] == fs.code[a.k.pc - 1]
    ensures var i := c[a.k.pc - 1];
            && i.Compare?
            && var c' := c[a.k.pc - 1 := Compare(i.cop, !i.cond, i.b, i.c)];
               Unthreaded(c', fs.pend, InvertJump(fs, a).code) && Kept(base, c, c')
                 && forall j :: j in fs.pend ==> c'[j] == c[j]
    ensures InvertJump(fs, a) == fs.(code := InvertJump(fs, a).code)
  {
    assert a.k.pc - 1 !in fs.pend;
  }

  lemma DroppedThreads(c: seq<Instr>, fs: FS, a: Exp, jpc: int, t: int, f: int, base: FS)
    requires WF(fs) && WFE(fs, a) && a.k.VReloc? && Unthreaded(c, fs.pend, fs.code) && ListIs(c, fs.pend, jpc, fs.jpc)
    requires ListIs(c, fs.pend, t, a.t) && ListIs(c, fs.pend, f, a.f)
    ensures |c| >= 1 && a.k.pc == |c| - 1 && c[a.k.pc] == fs.code[a.k.pc]
    ensures var c', d := c[..|c| - 1], Dropped(fs);
            && Unthreaded(c', d.pend, d.code) && ListIs(c', d.pend, jpc, d.jpc) && d == fs.(code := d.code)
            && ListIs(c', d.pend, t, a.t) && ListIs(c', d.pend, f, a.f)
  {
    assert a.k.pc !in fs.pend;
    var c' := c[..|c| - 1];
    KeepList(c, c', fs.pend, fs.pend, jpc, fs.jpc);
    KeepList(c, c', fs.pend, fs.pend, t, a.t);
    KeepList(c, c', fs.pend, fs.pend, f, a.f);
  }

  lemma DroppedKept(base: FS, fs: FS, a: Exp, c: seq<Instr>, c1: seq<Instr>, c2: seq<Instr>)
    requires WF(fs) && Framed(base, fs, a) && a.k.VReloc? && |c| == |fs.code| && c1 == c[..|c| - 1]
      && Kept(Dropped(fs), c1, c2)
    ensures Kept(base, c, c2)
  {
  }

  lemma NotHere(c: seq<Instr>, fs: FS, a: Exp)
    requires WF(fs) && WFE(fs, a) && Unthreaded(c, fs.pend, fs.code)
    ensures a.k.VReloc? ==> a.k.pc < |c| && c[a.k.pc] == fs.code[a.k.pc]
    ensures IsNot(fs, a) <==> a.k.VReloc? && c[a.k.pc].Not?
  {
  }

  lemma JumpOnRegGoal(base: FS, fs: FS, a: Exp, cond: bool)
    requires WF(base) && Inv(base, fs, a) && Discharged(a) && !a.k.VJmp? && !IsNot(fs, a)
    ensures var g := Discharge2AnyReg(fs, a);
            && (JumpOnCond(fs, a, cond).ok ==> g.fs.ok)
            && (g.fs.ok ==>
                 && Inv(base, g.fs, g.e) && g.e.k.VNonReloc? && g.e.t == a.t && g.e.f == a.f
                 && JumpOnCond(fs, a, cond) == CondJump(FreeExp(g.fs, g.e), TestSet(NO_REG, g.e.k.reg, cond)))
  {
    hide Inv, WF, CondJump, FreeExp, Discharge2AnyReg;
    var g := Discharge2AnyReg(fs, a);
    assert JumpOnCond(fs, a, cond).ok ==> g.fs.ok;
    if g.fs.ok {
      ToRegInv(base, fs, a);
      JumpOnReg(fs, a, cond);
    }
  }

  // The lists of `a` are apart, and nothing made before `base` is in them.
  lemma ListsOwn(base: FS, fs: FS, a: Exp)
    requires Framed(base, fs, a)
    ensures Apart(fs, a.t, a.f) && Apart(fs, a.f, a.t)
    ensures Apart(fs, a.t, []) && Apart(fs, a.f, []) && Apart(fs, [], a.t) && Apart(fs, [], a.f)
    ensures forall j :: j in base.pend && j !in base.jpc ==> j !in a.t && j !in a.f && j in fs.pend && j !in fs.jpc
    ensures forall c: seq<Instr> :: |c| == |fs.code| ==> Kept(base, c, c)
  {
  }

  lemma BranchApart(base: FS, fs: FS, a: Exp, j: nat)
    requires WF(base) && BranchInv(base, fs, a.t, a.f, j)
    ensures Apart(fs, a.t, a.f) && Apart(fs, a.f, a.t) && Apart(fs, a.t, [j]) && Apart(fs, a.f, [j])
      && Apart(fs, [j], a.t) && Apart(fs, [j], a.f)
    ensures forall i :: i in base.pend && i !in base.jpc ==> i !in a.t && i !in a.f && i in fs.pend && i !in fs.jpc
  {
  }

  lemma KeptOwn(base: FS, fs: FS, lo: seq<nat>, lc: seq<nat>, c0: seq<Instr>, c1: seq<Instr>, c2: seq<Instr>,
    c3: seq<Instr>)
    requires forall j :: j in base.pend && j !in base.jpc ==> j !in lo && j !in lc && j in fs.pend && j !in fs.jpc
    requires Kept(base, c0, c1) && Kept(base, c1, c2) && KeptOthers(fs, lo, lc, c2, c3)
    ensures Kept(base, c0, c3)
  {
  }

  lemma GoIfBranch(fs: FS, a: Exp, sense: bool)
    ensures var g := DischargeVars(fs, a);
            var fs1 := if Known(g.e.k, sense) then g.fs else Branched(g.fs, g.e, sense);
            var lp := if Known(g.e.k, sense) then [] else [BranchPc(fs1, g.e)];
            var r := GoIf(fs, a, sense);
            && r.fs == PatchToHere(fs1.(ok := fs1.ok && Linkable(Open1(g.e, sense), lp)), Closed1(g.e, sense))
            && Open1(r.e, sense) == Open1(g.e, sense) + lp
            && (r.fs.ok ==> fs1.ok && g.fs.ok)
  {
    hide PatchToHere, DischargeVars, GoIf;
    GoIfParts(fs, a, sense);
  }

  lemma NegateGoal(base: FS, fs: FS, a: Exp)
    requires WF(base) && Inv(base, fs, a) && Discharged(a)
    ensures var h := NegateValue(fs, a);
            && (h.fs.ok ==> Inv(base, h.fs, h.e))
            && (a.k.VJmp? ==> h == Gen(InvertJump(fs, a), a))
            && (a.k.VReloc? || a.k.VNonReloc? ==>
                 var g := Discharge2AnyReg(fs, a);
                 var v := Emit(FreeExp(g.fs, g.e), Not(0, Operand(g.e)));
                 && h == Gen(v, g.e.(k := VReloc(v.Pc() - 1))) && (h.fs.ok ==> g.fs.ok)
                 && (g.fs.ok ==> Inv(base, g.fs, g.e) && g.e.k.VNonReloc?))
  {
    hide WF, Ext, WFE, New, Temp, Discharge2AnyReg, Emit, InvertJump;
    if NegateValue(fs, a).fs.ok { NegateInv(base, fs, a); }
    if (a.k.VReloc? || a.k.VNonReloc?) && Discharge2AnyReg(fs, a).fs.ok { ToRegInv(base, fs, a); }
  }

  // Taking the values from two lists of jumps changes no jump.
  lemma RemoveThreads(c: seq<Instr>, fs: FS, a: Exp, base: FS, jpc: int, t: int, f: int, jmp: bool, pc: nat)
    requires Framed(base, fs, a) && Unthreaded(c, fs.pend, fs.code) && ListIs(c, fs.pend, jpc, fs.jpc)
    requires ListIs(c, fs.pend, t, a.t) && ListIs(c, fs.pend, f, a.f) && (jmp ==> ListIs(c, fs.pend, pc, [pc]))
    ensures var c1 := RemoveCode(c, a.t);
            var c2, d := RemoveCode(c1, a.f), Removed(fs, a);
            && ListIs(c1, fs.pend, t, a.t) && ListIs(c1, fs.pend, f, a.f)
            && d == fs.(code := d.code) && Unthreaded(c2, fs.pend, d.code) && ListIs(c2, fs.pend, jpc, fs.jpc)
            && ListIs(c2, fs.pend, t, a.t) && ListIs(c2, fs.pend, f, a.f) && (jmp ==> ListIs(c2, fs.pend, pc, [pc]))
            && Kept(base, c, c2)
  {
    hide Framed;
    var c1 := RemoveCode(c, a.t);
    var c2 := RemoveCode(c1, a.f);
    RemoveJumps(c, fs.pend, fs.code, a.t);
    RemoveJumps(c1, fs.pend, RemoveCode(fs.code, a.t), a.f);
    ListsStay(c, c1, fs.pend, t, a.t, f, a.f);
    ListsStay(c1, c2, fs.pend, t, a.t, f, a.f);
    ListJumps(c, fs.pend, jpc, fs.jpc);
    KeepList(c, c2, fs.pend, fs.pend, jpc, fs.jpc);
    if jmp {
      ListJumps(c, fs.pend, pc, [pc]);
      KeepList(c, c2, fs.pend, fs.pend, pc, [pc]);
    }
    FramedExt(base, fs, a);
  }

  lemma FramedExt(base: FS, fs: FS, a: Exp)
    requires Framed(base, fs, a)
    ensures forall j :: j in base.pend && j !in base.jpc ==> j in fs.pend
  {
  }

  lemma RemoveJumps(c: seq<Instr>, pend: set<nat>, a: seq<Instr>, l: seq<nat>)
    requires Unthreaded(c, pend, a)
    ensures Unthreaded(RemoveCode(c, l), pend, RemoveCode(a, l))
    ensures forall j :: j in pend ==> RemoveCode(c, l)[j] == c[j]
  {
  }

  lemma ListsStay(c: seq<Instr>, c': seq<Instr>, pend: set<nat>, t: int, lt: seq<nat>, f: int, lf: seq<nat>)
    requires ListIs(c, pend, t, lt) && ListIs(c, pend, f, lf) && |c'| == |c|
      && forall j :: j in pend && j < |c| ==> c'[j] == c[j]
    ensures ListIs(c', pend, t, lt) && ListIs(c', pend, f, lf)
  {
    ListJumps(c, pend, t, lt);
    ListJumps(c, pend, f, lf);
    KeepList(c, c', pend, pend, t, lt);
    KeepList(c, c', pend, pend, f, lf);
  }

  // ---- operands ---------------------------------------------------------------------------------------

  lemma LeftRep(c: seq<Instr>, fs: FS, t: int, f: int, a: Exp)
    requires !HasJumps(a) && t == NO_JUMP && f == NO_JUMP
    ensures ListIs(c, fs.pend, t, a.t) && ListIs(c, fs.pend, f, a.f)
  {
  }

  // The left operand is still one when the right operand has its place.
  lemma LeftReady(base0: FS, base1: FS, a1: Exp, fs: FS, a2: Exp)
    requires WF(base0) && Inv(base0, base1, a1) && (IsOperand(a1) || IsNumeral(a1)) && Inv(base1, fs, a2)
    requires Exp2RK(fs, a2).fs.ok
    ensures var g := Exp2RK(fs, a2).fs;
            Framed(g, g, a1) && (IsOperand(a1) || Inv(g, g, a1)) && Ext(base1, g)
  {
    hide Exp2RK;
    RKInv(base1, fs, a2);
    if IsNumeral(a1) { NumeralInv(Exp2RK(fs, a2).fs, a1); }
  }

  lemma PairReady(base0: FS, base1: FS, a1: Exp, fs: FS, a2: Exp)
    requires WF(base0) && Inv(base0, base1, a1) && (IsOperand(a1) || IsNumeral(a1)) && Inv(base1, fs, a2)
    requires Exp2RK(Exp2RK(fs, a2).fs, a1).fs.ok
    ensures var g2 := Exp2RK(fs, a2);
            var g1 := Exp2RK(g2.fs, a1);
            var v := Free2(g1.fs, g1.e, g2.e);
            && IsOperand(g1.e) && IsOperand(g2.e) && Stacked(g1.fs, g1.e, g2.e)
            && WF(v) && Ext(base1, v) && Ext(base1, g2.fs)
  {
    hide Exp2RK, Free2, Ext, WF, Stacked;
    var g2 := Exp2RK(fs, a2);
    var g1 := Exp2RK(g2.fs, a1);
    OperandsInv(base0, base1, a1, fs, a2);
    Free2Inv(base0, g1.fs, g1.e, g2.e);
    OperandsStacked(base0, base1, a1, fs, a2);
    SameCodeKeeps(base1, g1.fs, Free2(g1.fs, g1.e, g2.e), g1.e);
  }

  lemma OperandsStacked(base0: FS, base1: FS, a1: Exp, fs: FS, a2: Exp)
    requires WF(base0) && Inv(base0, base1, a1) && (IsOperand(a1) || IsNumeral(a1)) && Inv(base1, fs, a2)
    requires Exp2RK(Exp2RK(fs, a2).fs, a1).fs.ok
    ensures var g2 := Exp2RK(fs, a2);
            var g1 := Exp2RK(g2.fs, a1);
            Stacked(g1.fs, g1.e, g2.e) && Ext(base1, g1.fs) && Ext(base1, g2.fs)
  {
    hide Exp2RK, New;
    var g2 := Exp2RK(fs, a2);
    assert g2.fs.ok;
    RKInv(base1, fs, a2);
    if IsOperand(a1) {
      OperandStays(g2.fs, a1);
    } else {
      NumeralInv(g2.fs, a1);
      RKInv(g2.fs, g2.fs, a1);
      ExtTrans(base1, g2.fs, Exp2RK(g2.fs, a1).fs);
    }
  }

  lemma ArithGoal(base0: FS, base1: FS, a1: Exp, fs: FS, a2: Exp, op: ArithOp)
    requires WF(base0) && Inv(base0, base1, a1) && (IsOperand(a1) || IsNumeral(a1)) && Inv(base1, fs, a2)
    ensures var g := CodeArith(fs, op, a1, a2);
            && !HasJumps(a1) && (g.fs.ok ==> Inv(base0, g.fs, g.e) && Framed(base0, g.fs, g.e))
            && (Folds(fs, op, a1, a2) ==> g == Gen(fs, a1.(k := VKNum(Fold(fs.ops, op, a1.k.num, a2.k.num).value))))
            && (!Folds(fs, op, a1, a2) ==>
                 var g2 := Exp2RK(fs, a2);
                 var g1 := Exp2RK(g2.fs, a1);
                 var v := Free2(g1.fs, g1.e, g2.e);
                 && g == Gen(Emit(v, LuaVM.Arith(op, 0, Operand(g1.e), Operand(g2.e))), Open(v, g1.e))
                 && (g.fs.ok ==> g1.fs.ok) && (g1.fs.ok ==> g2.fs.ok))
  {
    hide Exp2RK, Free2, Emit, WF, WFE, Ext, New, Temp;
    if CodeArith(fs, op, a1, a2).fs.ok { CodeArithInv(base0, base1, op, a1, fs, a2); }
    if !Folds(fs, op, a1, a2) { CodeArithParts(fs, op, a1, a2); }
  }

  lemma NoHeads(c: seq<Instr>, pend: set<nat>, t: int, f: int, a: Exp)
    requires ListIs(c, pend, t, a.t) && ListIs(c, pend, f, a.f) && !HasJumps(a)
    ensures t == NO_JUMP && f == NO_JUMP
  {
  }

  lemma UnaryGoal(base: FS, fs: FS, a: Exp, op: UnaryOp)
    requires WF(base) && Inv(base, fs, a) && !HasJumps(a) && (a.k.VNonReloc? || (op == Unm && a.k.VKNum?))
    ensures var g := CodeUnary(fs, op, a);
            && Inv(base, g.fs, g.e) && Framed(base, g.fs, g.e)
            && (a.k.VKNum? ==> g == Gen(fs, a.(k := VKNum(fs.ops.neg(a.k.num)))))
            && (a.k.VNonReloc? ==>
                 var v := FreeExp(fs, a);
                 g == Gen(Emit(v, LuaVM.Unary(op, 0, a.k.reg)), Open(v, a)) && IsOperand(a) && Operand(a) == a.k.reg)
  {
    hide Emit, FreeExp;
    if a.k.VNonReloc? {
      CodeUnaryParts(fs, op, a);
      UnaryInv(base, fs, op, a);
    }
  }

  // A descriptor keeps its lists through a step that keeps its jumps and changes nothing else.
  lemma KeepExp(base: FS, fs: FS, a: Exp, c: seq<Instr>, c': seq<Instr>, t: int, f: int, pc: nat)
    requires Framed(base, fs, a) && Kept(fs, c, c') && ListIs(c, fs.pend, t, a.t) && ListIs(c, fs.pend, f, a.f)
    requires a.k.VJmp? ==> pc == a.k.pc && ListIs(c, fs.pend, pc, [pc])
    ensures ListIs(c', fs.pend, t, a.t) && ListIs(c', fs.pend, f, a.f)
    ensures a.k.VJmp? ==> ListIs(c', fs.pend, pc, [pc])
  {
    KeepList(c, c', fs.pend, fs.pend, t, a.t);
    KeepList(c, c', fs.pend, fs.pend, f, a.f);
    if a.k.VJmp? { KeepList(c, c', fs.pend, fs.pend, pc, [pc]); }
  }

  lemma CompReady(base0: FS, base1: FS, a1: Exp, fs: FS, a2: Exp)
    requires WF(base0) && Inv(base0, base1, a1) && IsOperand(a1) && Inv(base1, fs, a2)
    requires Exp2RK(fs, a2).fs.ok
    ensures var g2 := Exp2RK(fs, a2);
            var v := FreeExp(g2.fs, g2.e);
            var w := FreeExp(v, a1);
            && IsOperand(g2.e) && Ext(base1, fs)
            && (IsTemp(g2.fs, g2.e) ==> g2.e.k.reg + 1 == g2.fs.freereg && g2.e.k.reg < MAXSTACK)
            && (IsTemp(v, a1) ==> a1.k.reg + 1 == v.freereg && a1.k.reg < MAXSTACK)
            && WF(w) && Ext(base1, w)
  {
    hide Exp2RK, New;
    var g2 := Exp2RK(fs, a2);
    RKInv(base1, fs, a2);
    LeftFirstInv(base0, base1, a1, g2.fs, g2.e);
    Free2Inv(base0, g2.fs, a1, g2.e);
    SameCodeKeeps(base1, g2.fs, Free2(g2.fs, a1, g2.e), a1);
  }

  lemma CompGoal(base0: FS, base1: FS, a1: Exp, fs: FS, a2: Exp, op: CompareOp, cond: bool)
    requires WF(base0) && Inv(base0, base1, a1) && IsOperand(a1) && Inv(base1, fs, a2)
    ensures var g := CodeComp(fs, op, cond, a1, a2);
            var g2 := Exp2RK(fs, a2);
            && !HasJumps(a1) && (g.fs.ok ==> Inv(base0, g.fs, g.e) && Framed(base0, g.fs, g.e) && g2.fs.ok)
            && (g2.fs.ok ==> g == Gen(CompareCode(g2.fs, op, cond, a1, g2.e), Exp(VJmp(|g2.fs.code| + 1), [], [])))
  {
    hide Exp2RK, CompareCode, New, CodeComp;
    CodeCompOk(fs, op, cond, a1, a2);
    if CodeComp(fs, op, cond, a1, a2).fs.ok { CodeCompInv(base0, base1, op, cond, a1, fs, a2); }
    if Exp2RK(fs, a2).fs.ok {
      RKInv(base1, fs, a2);
      CodeCompParts(fs, op, cond, a1, a2);
    }
  }

  lemma LeftStays(base0: FS, base1: FS, a1: Exp, fs: FS, a2: Exp)
    requires WF(base0) && Inv(base0, base1, a1) && IsOperand(a1) && Inv(base1, fs, a2)
    ensures Framed(fs, fs, a1) && Ext(base1, fs) && Exp2RK(fs, a1) == Gen(fs, a1) && !HasJumps(a1)
  {
    hide Exp2RK;
    OperandStays(fs, a1);
  }

  lemma NumeralHeads(c: seq<Instr>, pend: set<nat>, t: int, f: int, a: Exp)
    requires ListIs(c, pend, t, a.t) && ListIs(c, pend, f, a.f)
    ensures IsNumeral(a) <==> a.k.VKNum? && t == NO_JUMP && f == NO_JUMP
  {
  }

  lemma AnyRegPlain(base: FS, fs: FS, a: Exp)
    requires WF(base) && Inv(base, fs, a)
    ensures var g := Exp2AnyReg(fs, a);
            g.fs.ok ==> Inv(base, g.fs, g.e) && g.e.k.VNonReloc? && !HasJumps(g.e)
  {
    hide Exp2AnyReg, Inv, WF;
    if Exp2AnyReg(fs, a).fs.ok { AnyRegInv(base, fs, a); }
  }

  // The list of the left operand and those of the right one have no jump in common.
  lemma JoinReady(base0: FS, base1: FS, fs: FS, a2: Exp, l: seq<nat>, sense: bool)
    requires WF(base0) && CondInv(base0, base1, l) && Inv(base1, fs, a2)
    ensures var g := DischargeVars(fs, a2);
            && (forall j :: j in Open1(g.e, sense) ==> j !in l) && Ext(base1, fs) && Ext(base1, g.fs)
            && (forall j :: j in l ==> j in base1.pend && j !in base1.jpc)
  {
    DischargeVarsWF(base1, fs, a2);
  }

  lemma LogicGoal(base0: FS, base1: FS, a1: Exp, fs: FS, a2: Exp, op: BinOpr)
    requires WF(base0) && IsLogic(op) && CondInv(base0, base1, Open1(a1, op == And)) && Inv(base1, fs, a2)
    ensures var p := Posfix(fs, op, a1, a2);
            && Inv(base0, p.fs, p.e) && Framed(base0, p.fs, p.e)
            && var g := DischargeVars(fs, a2);
               var l := Open1(a1, op == And);
               && p.fs == g.fs.(ok := g.fs.ok && Linkable(Open1(g.e, op == And), l))
                 && p.e == Appended(g.e, l, op == And)
  {
    LogicPosfix(fs, op, a1, a2);
    hide DischargeVars, Posfix;
    LogicParts(fs, op, a1, a2);
    DischargeVarsWF(base1, fs, a2);
    var g := DischargeVars(fs, a2);
    var p := Posfix(fs, op, a1, a2);
    JoinInv(base0, base1, g.fs, g.e, Open1(a1, op == And), op == And);
    SameCodeKeeps(base0, g.fs, p.fs, p.e);
  }

  lemma LogicPosfix(fs: FS, op: BinOpr, a1: Exp, a2: Exp)
    requires IsLogic(op)
    ensures var g := DischargeVars(fs, a2);
            var l := Open1(a1, op == And);
            Posfix(fs, op, a1, a2) == Gen(g.fs.(ok := g.fs.ok && Linkable(Open1(g.e, op == And), l)),
              Appended(g.e, l, op == And))
  {
    hide DischargeVars;
  }

  // The list of the left operand is kept by the code of the right one.
  lemma LeftList(base0: FS, base1: FS, fs: FS, l: seq<nat>, c: seq<Instr>, c': seq<Instr>, pend: set<nat>, head: int)
    requires ListIs(c, pend, head, l) && Kept(base1, c, c') && Ext(base1, fs)
    requires forall j :: j in l ==> j in base1.pend && j !in base1.jpc
    ensures ListIs(c', fs.pend, head, l)
  {
    KeepList(c, c', pend, fs.pend, head, l);
  }

  // Linking at the end of one list of `a` keeps everything else.
  lemma Joined1(c: seq<Instr>, c': seq<Instr>, base: FS, fs: FS, a: Exp, l: seq<nat>, other: int, lo: seq<nat>,
    jpc: int, pc: nat)
    requires Framed(base, fs, a) && Unthreaded(c, fs.pend, fs.code) && |c'| == |c| && ListIs(c, fs.pend, jpc, fs.jpc)
    requires (l == a.t && lo == a.f) || (l == a.f && lo == a.t)
    requires ListIs(c, fs.pend, other, lo) && (a.k.VJmp? ==> pc == a.k.pc && ListIs(c, fs.pend, pc, [pc]))
    requires forall i: nat :: i < |c| && (l == [] || i != l[|l| - 1]) ==> c'[i] == c[i]
    requires l != [] ==> l[|l| - 1] < |c'| && c'[l[|l| - 1]].Jmp?
    ensures Unthreaded(c', fs.pend, fs.code) && ListIs(c', fs.pend, other, lo) && ListIs(c', fs.pend, jpc, fs.jpc)
    ensures (a.k.VJmp? ==> ListIs(c', fs.pend, pc, [pc])) && Kept(base, c, c')
  {
    assert l != [] ==> l[|l| - 1] in l;
    LinkThreads(c, c', fs.pend, fs.code, l);
    KeepList(c, c', fs.pend, fs.pend, other, lo);
    KeepList(c, c', fs.pend, fs.pend, jpc, fs.jpc);
    if a.k.VJmp? { KeepList(c, c', fs.pend, fs.pend, pc, [pc]); }
  }

  // The left side of an operator is still as luaK_infix left it when the right side has its code.
  lemma LeftAfter(op: BinOpr, base: FS, fs: FS, c: seq<Instr>, fs': FS, c': seq<Instr>, k: Kind, t: int, f: int, a: Exp)
    requires LeftIs(op, base, fs, c, fs.pend, k, t, f, a) && Ext(fs, fs') && Kept(fs, c, c')
    ensures LeftIs(op, base, fs, c', fs'.pend, k, t, f, a)
  {
    if op == And { KeepList(c, c', fs.pend, fs'.pend, f, a.f); }
    else if op == Or { KeepList(c, c', fs.pend, fs'.pend, t, a.t); }
  }

  lemma LeftState(op: BinOpr, base: FS, fs: FS, c: seq<Instr>, pend: set<nat>, k: Kind, t: int, f: int, a: Exp)
    requires LeftIs(op, base, fs, c, pend, k, t, f, a)
    ensures WF(fs) && Ext(base, fs) && fs.nactvar == base.nactvar
  {
  }

  // ---- about threaded lists ------------------------------------------------------------------------

  lemma {:induction false} FindKSnoc(ks: seq<Value>, v: Value, w: Value)
    requires v !in ks && w in ks + [v]
    ensures FindK(ks + [v], w) == if w == v then |ks| else FindK(ks, w)
  {
    if ks != [] {
      assert (ks + [v])[1..] == ks[1..] + [v];
      assert ks == [ks[0]] + ks[1..];
      if ks[0] != w { FindKSnoc(ks[1..], v, w); }
    }
  }

  lemma ListJumps(c: seq<Instr>, pend: set<nat>, head: int, l: seq<nat>)
    requires ListIs(c, pend, head, l)
    ensures forall j :: j in l ==> j in pend && j < |c| && c[j].Jmp?
  {
    forall j | j in l
      ensures j in pend && j < |c| && c[j].Jmp?
    {
      var i: nat :| i < |l| && l[i] == j;
      assert Links(c, pend, l, i);
    }
  }

  lemma LinkedLists(c: seq<Instr>, c': seq<Instr>, pend: set<nat>, l1: int, a1: seq<nat>, l2: int, a2: seq<nat>)
    requires ListIs(c, pend, l1, a1) && ListIs(c, pend, l2, a2) && a1 != [] && a2 != []
    requires forall j :: j in a1 ==> j !in a2
    requires var last := a1[|a1| - 1]; last < |c| && c' == c[last := Jmp(l2 - (last + 1))]
    ensures ListIs(c', pend, l1, a1 + a2)
  {
    var l := a1 + a2;
    forall i, j | 0 <= i < j < |l|
      ensures l[i] != l[j]
    {
      if i < |a1| <= j { assert a1[i] in a1 && a2[j - |a1|] in a2; }
    }
    var last := a1[|a1| - 1];
    assert last in a1 && a2[0] in a2 && last != a2[0];
    forall i: nat | i < |l|
      ensures Links(c', pend, l, i)
    {
      if i >= |a1| { assert Links(c, pend, a2, i - |a1|) && a2[i - |a1|] in a2 && l[i] != last; }
      else { assert Links(c, pend, a1, i); }
    }
  }

  lemma RemoveNone(c: seq<Instr>)
    ensures RemoveCode(c, []) == c
  {
  }

  lemma RemoveOne(c: seq<Instr>, a: seq<nat>, n: nat)
    requires n < |a| && NoDup(a) && forall j :: j in a ==> j < |c| && c[j].Jmp?
    ensures a[n] in a
    ensures var d := RemoveCode(c, a[..n]);
            var j := a[n];
            && d[j] == c[j] && SetControl(d, j) == SetControl(c, j)
            && RemoveCode(c,
              a[..n + 1]) == (if SetControl(c, j) then d[j - 1 := LuaVM.Test(c[j - 1].b, c[j - 1].cond)] else d)
            && (SetControl(c, j) ==> d[j - 1] == c[j - 1])
  {
    assert a[..n + 1] == a[..n] + [a[n]];
    assert a[n] !in a[..n];
  }

  lemma PatchNone(c: seq<Instr>, v: nat, reg: nat, d: nat)
    ensures PatchCode(c, [], v, reg, d) == c
  {
  }

  lemma PatchedSoFar(c: seq<Instr>, a: seq<nat>, n: nat, v: nat, reg: nat, d: nat)
    requires n < |a| && NoDup(a) && forall j :: j in a ==> j < |c| && c[j].Jmp?
    ensures a[n] in a
    ensures var p := PatchCode(c, a[..n], v, reg, d);
            && |p| == |c| && p[a[n]] == c[a[n]] && SetControl(p, a[n]) == SetControl(c, a[n])
            && (SetControl(c, a[n]) ==> p[a[n] - 1] == c[a[n] - 1])
  {
    assert a[n] !in a[..n];
  }

  lemma PatchNext(c: seq<Instr>, a: seq<nat>, n: nat, v: nat, reg: nat, d: nat)
    requires n < |a| && NoDup(a) && forall j :: j in a ==> j < |c| && c[j].Jmp?
    ensures a[n] in a
    ensures var p := PatchCode(c, a[..n], v, reg, d);
            var j := a[n];
            var q := if SetControl(c, j) then p[j - 1 := PatchTest(c[j - 1], reg)] else p;
            PatchCode(c, a[..n + 1], v, reg, d) == q[j := Jmp(Dest(c, j, v, d) - (j + 1))]
  {
    assert a[..n + 1] == a[..n] + [a[n]];
    assert a[n] !in a[..n];
    var j := a[n];
    assert j in a;
    var p := PatchCode(c, a[..n], v, reg, d);
    var q := if SetControl(c, j) then p[j - 1 := PatchTest(c[j - 1], reg)] else p;
    var r := q[j := Jmp(Dest(c, j, v, d) - (j + 1))];
    forall i: nat | i < |c|
      ensures PatchAt(c, a[..n + 1], v, reg, d, i) == r[i]
    {
      assert p[i] == PatchAt(c, a[..n], v, reg, d, i);
      assert i in a[..n + 1] <==> i in a[..n] || i == j;
      assert i + 1 in a[..n + 1] <==> i + 1 in a[..n] || i + 1 == j;
    }
    assert PatchCode(c, a[..n + 1], v, reg, d) == r;
  }

  // A list stays if its jumps do.
  lemma KeepList(c: seq<Instr>, c': seq<Instr>, pend: set<nat>, pend': set<nat>, head: int, l: seq<nat>)
    requires ListIs(c, pend, head, l)
    requires forall j :: j in l ==> j in pend' && j < |c'| && (j < |c| ==> c'[j] == c[j])
    ensures ListIs(c', pend', head, l)
  {
    forall i: nat | i < |l|
      ensures Links(c', pend', l, i)
    {
      assert Links(c, pend, l, i);
      assert l[i] in l;
    }
  }

  // The lists of a descriptor stay through a step that keeps its jumps.
  lemma KeepRep(fs: FS, c: seq<Instr>, fs': FS, c': seq<Instr>, a: Exp, t: int, f: int)
    requires WFE(fs, a) && Ext(fs, fs') && Kept(fs, c, c')
    requires ListIs(c, fs.pend, t, a.t) && ListIs(c, fs.pend, f, a.f)
    ensures ListIs(c', fs'.pend, t, a.t) && ListIs(c', fs'.pend, f, a.f)
  {
    KeepList(c, c', fs.pend, fs'.pend, t, a.t);
    KeepList(c, c', fs.pend, fs'.pend, f, a.f);
  }

  // Patching code and its unthreaded form goes side by side.
  lemma PatchThreads(c: seq<Instr>, pend: set<nat>, a: seq<Instr>, l: seq<nat>, v: nat, reg: nat, d: nat)
    requires Unthreaded(c, pend, a) && forall j :: j in l ==> j in pend
    ensures Unthreaded(PatchCode(c, l, v, reg, d), pend - ToSet(l), PatchCode(a, l, v, reg, d))
    ensures |PatchCode(c, l, v, reg, d)| == |c| && AllFit(c, l, v, d) == AllFit(a, l, v, d)
    ensures forall j :: j in pend && j !in l ==> j < |c| && PatchCode(c, l, v, reg, d)[j] == c[j]
  {
    assert forall j :: j in l ==> SetControl(c, j) == SetControl(a, j);
  }

  // Linking lists changes pending jumps only.
  lemma LinkThreads(c: seq<Instr>, c': seq<Instr>, pend: set<nat>, a: seq<Instr>, l: seq<nat>)
    requires Unthreaded(c, pend, a) && |c'| == |c| && forall j :: j in l ==> j in pend
    requires forall i: nat :: i < |c| && (l == [] || i != l[|l| - 1]) ==> c'[i] == c[i]
    requires l != [] ==> l[|l| - 1] < |c'| && c'[l[|l| - 1]].Jmp?
    ensures Unthreaded(c', pend, a)
    ensures forall j :: j in pend && j !in l ==> c'[j] == c[j]
  {
    assert l != [] ==> l[|l| - 1] in l;
  }
}
