/** The expression parser of lparser.c */
module Parser {
  // One pass over the tokens that drives the code generator

  import opened Basics
  import opened LuaVM
  import opened CodeGen
  import opened CodeRun
  import opened CodeGenState
  import opened CodeGenSteps
  import opened CodeGenExp
  import opened CodeGenCond
  import opened CodeGenArith
  import opened CodeGenCorrect
  import opened CodeGenSize
  import opened Grammar
  import opened Precedence
  import opened FuncStates

  // The names in the input stand for variables of the function.
  predicate Resolved(toks: seq<Token>, nactvar: nat) {
    forall t :: t in toks && t.TkLocal? ==> t.i < nactvar
  }

  // The tokens are an expression, and its code exceeds no limit.
  ghost predicate Compiles(p: Option<Parsed>, fs: FS) {
    p.Some? && GenExpr(fs, p.value.x).fs.ok
  }

  predicate InParens(q: Option<Parsed>) {
    q.Some? && q.value.rest != [] && q.value.rest[0] == TkClose
  }

  function VarOf(t: Token): Expr
    requires t.TkLocal? || t.TkUpval?
  {
    if t.TkLocal? then ELocal(t.i) else EUpval(t.u)
  }

  class LexState {
    var toks: seq<Token>   // the current token and those behind it
    var nCcalls: nat

    constructor (toks: seq<Token>)
      ensures this.toks == toks && nCcalls == 0
    {
      this.toks, nCcalls := toks, 0;
    }

    // luaX_next
    method Next()
      requires toks != []
      modifies this`toks
      ensures toks == old(toks)[1..]
    {
      toks := toks[1..];
    }

    // The expression x has been read and its code generated at the state A0.
    ghost predicate Done(fs: FuncState, v: ExpDesc, x: Expr, A0: FS)
      reads this`toks, fs, v
    {
      && fs.A == GenExpr(A0, x).fs && fs.Builds(A0, v, GenExpr(A0, x).e) && Inv(A0, fs.A, GenExpr(A0, x).e)
      && WF(A0) && Resolved(toks, A0.nactvar)
    }

    lemma DoneParts(fs: FuncState, v: ExpDesc, x: Expr, A0: FS)
      requires Done(fs, v, x, A0)
      ensures fs.A == GenExpr(A0, x).fs && fs.Builds(A0, v, GenExpr(A0, x).e) && Inv(A0, fs.A, GenExpr(A0, x).e)
      ensures fs.A.ok && WF(A0) && Resolved(toks, A0.nactvar)
    {
      hide GenExpr, WF, Inv;
    }

    lemma DoneAgain(fs: FuncState, v: ExpDesc, x: Expr, A0: FS)
      requires fs.A == GenExpr(A0, x).fs && fs.Builds(A0, v, GenExpr(A0, x).e) && Inv(A0, fs.A, GenExpr(A0, x).e)
      requires WF(A0) && Resolved(toks, A0.nactvar)
      ensures Done(fs, v, x, A0)
    {
    }

    lemma DoneOk(fs: FuncState, v: ExpDesc, x: Expr, A0: FS)
      requires Done(fs, v, x, A0)
      ensures GenExpr(A0, x).fs.ok
    {
      hide GenExpr, WF, Inv;
    }

    // init_exp
    method InitExp(fs: FuncState, v: ExpDesc, k: Kind, ghost x: Expr)
      requires fs.Valid() && WF(fs.A) && Resolved(toks, fs.nactvar)
      requires GenExpr(fs.A, x) == Gen(fs.A, Exp(k, [], [])) && !k.VK? && !k.VReloc? && !k.VJmp? && !k.VNonReloc?
      requires k.VLocal? ==> k.reg < fs.nactvar
      modifies v
      ensures Done(fs, v, x, fs.A)
    {
      v.k, v.t, v.f := k, NO_JUMP, NO_JUMP;
      PlainInv(fs.A, k);
      LeftRep(fs.code, fs.A, v.t, v.f, Exp(k, [], []));
    }

    // prefixexp and primaryexp; a variable or a parenthesis with a call behind it is not part of the model.
    method PrimaryExp(fs: FuncState, v: ExpDesc) returns (s: Status, ghost x: Expr)
      requires fs.Valid() && WF(fs.A) && Resolved(toks, fs.nactvar) && toks != []
      requires toks[0].TkLocal? || toks[0].TkUpval? || toks[0] == TkOpen
      modifies this, fs, v
      ensures s.Ok? <==> Compiles(ParseSimple(old(toks), old(nCcalls)), old(fs.A))
      ensures s.Ok? ==>
        && ParseSimple(old(toks), old(nCcalls)) == Some(Parsed(x, toks)) && nCcalls == old(nCcalls)
        && Done(fs, v, x, old(fs.A)) && Kept(old(fs.A), old(fs.code), fs.code)
      decreases |toks|, 1
    {
      hide WF, WFE, Ext, New, Kept, ParseSub, ParseSimple, DischargeVars, Inv, GenExpr;
      PrimaryParts(toks, nCcalls, fs.A);
      KeptSelf(fs.A, fs.code);
      if toks[0] == TkOpen {
        s, x := ParenExp(fs, v);
        if !s.Ok? { return; }
      } else {
        s, x := VarExp(fs, v);
      }
      if toks != [] && toks[0] == TkOpen { s := SyntaxError; }
    }

    // prefixexp, for an expression in parentheses
    method ParenExp(fs: FuncState, v: ExpDesc) returns (s: Status, ghost x: Expr)
      requires fs.Valid() && WF(fs.A) && Resolved(toks, fs.nactvar) && toks != [] && toks[0] == TkOpen
      modifies this, fs, v
      ensures var q := ParseSub(old(toks)[1..], 0, old(nCcalls));
              && (s.Ok? <==> InParens(q) && GenExpr(old(fs.A), EParen(q.value.x)).fs.ok)
              && (s.Ok? ==>
                   && x == EParen(q.value.x) && toks == q.value.rest[1..] && nCcalls == old(nCcalls)
                   && Done(fs, v, x, old(fs.A)) && Kept(old(fs.A), old(fs.code), fs.code))
      decreases |toks|, 0
    {
      hide WF, WFE, Ext, New, Kept, ParseSub, DischargeVars, Inv;
      x := ENil;
      ghost var A0, c0 := fs.A, fs.code;
      Next();
      var op: Option<BinOpr>;
      ghost var y: Expr;
      s, op, y := SubExpr(fs, v, 0);
      if !s.Ok? { return; }
      if toks == [] || toks[0] != TkClose { return SyntaxError, x; }
      Next();
      ghost var c1 := fs.code;
      x := EParen(y);
      DischargeInv(A0, fs.A, GenExpr(A0, y).e);
      s := fs.DischargeVarsOf(v, GenExpr(A0, y).e, A0);
      if s.Ok? { KeptTwice(A0, c0, c1, fs.code); }
    }

    // prefixexp, for a variable
    method VarExp(fs: FuncState, v: ExpDesc) returns (s: Status, ghost x: Expr)
      requires fs.Valid() && WF(fs.A) && Resolved(toks, fs.nactvar) && toks != []
        && (toks[0].TkLocal? || toks[0].TkUpval?)
      modifies this, v
      ensures x == VarOf(old(toks)[0]) && toks == old(toks)[1..] && nCcalls == old(nCcalls)
      ensures s.Ok? && Done(fs, v, x, fs.A)
    {
      hide WF, Kept, Inv;
      x := VarOf(toks[0]);
      InitExp(fs, v, if toks[0].TkLocal? then VLocal(toks[0].i) else VUpval(toks[0].u), x);
      Next();
      s := Ok;
    }

    // simpleexp
    method SimpleExp(fs: FuncState, v: ExpDesc) returns (s: Status, ghost x: Expr)
      requires fs.Valid() && WF(fs.A) && Resolved(toks, fs.nactvar) && toks != []
      modifies this, fs, v
      ensures s.Ok? <==> Compiles(ParseSimple(old(toks), old(nCcalls)), old(fs.A))
      ensures s.Ok? ==>
        && ParseSimple(old(toks), old(nCcalls)) == Some(Parsed(x, toks)) && nCcalls == old(nCcalls)
        && Done(fs, v, x, old(fs.A)) && Kept(old(fs.A), old(fs.code), fs.code)
      decreases |toks|, 2
    {
      hide WF, Kept, ParseSub, Inv;
      x := ENil;
      KeptSelf(fs.A, fs.code);
      var t := toks[0];
      if t.TkNumber? {
        x := ENum(t.r);
        InitExp(fs, v, VKNum(t.r), x);
      } else if t.TkNil? {
        InitExp(fs, v, VNil, x);
      } else if t.TkTrue? {
        x := ETrue;
        InitExp(fs, v, VTrue, x);
      } else if t.TkFalse? {
        x := EFalse;
        InitExp(fs, v, VFalse, x);
      } else if t.TkLocal? || t.TkUpval? || t == TkOpen {
        s, x := PrimaryExp(fs, v);
        return;
      } else {
        return SyntaxError, x;
      }
      Next();
      return Ok, x;
    }

    // What subexpr reads first
    method Operand(fs: FuncState, v: ExpDesc) returns (s: Status, ghost x: Expr)
      requires fs.Valid() && WF(fs.A) && Resolved(toks, fs.nactvar)
      modifies this, fs, v
      ensures s.Ok? <==> Compiles(ParseOperand(old(toks), old(nCcalls)), old(fs.A))
      ensures s.Ok? ==>
        && ParseOperand(old(toks), old(nCcalls)) == Some(Parsed(x, toks)) && nCcalls == old(nCcalls)
        && Done(fs, v, x, old(fs.A)) && Kept(old(fs.A), old(fs.code), fs.code)
      decreases |toks|, 3
    {
      hide WF, Kept, ParseSub, ParseSimple, Inv, Prefix, UnOprOf;
      x := ENil;
      if toks == [] { return SyntaxError, x; }
      var uop := UnOprOf(toks[0]);
      if uop.Some? {
        ghost var A0, c0 := fs.A, fs.code;
        Next();
        var op: Option<BinOpr>;
        ghost var y: Expr;
        s, op, y := SubExpr(fs, v, UNARY_PRIORITY);
        if !s.Ok? { return; }
        ghost var c1 := fs.code;
        x := EUnary(uop.value, y);
        s := fs.CodePrefix(uop.value, v, GenExpr(A0, y).e, A0);
        if s.Ok? { KeptTwice(A0, c0, c1, fs.code); }
      } else {
        s, x := SimpleExp(fs, v);
      }
    }

    // One turn of the loop of subexpr: the operator and its right operand.
    method Extend(fs: FuncState, v: ExpDesc, op: BinOpr, ghost x: Expr, ghost A0: FS)
      returns (s: Status, nextop: Option<BinOpr>, ghost y: Expr)
      requires Done(fs, v, x, A0) && NextOpr(toks) == Some(op) && toks != []
      modifies this, fs, v
      ensures var q := ParseSub(old(toks)[1..], RightPriority(op), old(nCcalls));
              && (s.Ok? <==> q.Some? && GenExpr(A0, EBinary(op, x, q.value.x)).fs.ok)
              && (s.Ok? ==>
                   && q == Some(Parsed(y, toks)) && nCcalls == old(nCcalls) && nextop == NextOpr(toks)
                   && Done(fs, v, EBinary(op, x, y), A0) && Kept(A0, old(fs.code), fs.code))
      decreases |toks|, 0
    {
      hide WF, Kept, ParseSub, Infix, Posfix, Inv, RightPriority, BinOprOf, LeftIs, Ext, FuncState.Builds,
        GenExpr, LexState.Done;
      DoneParts(fs, v, x, A0);
      ghost var c0, g := fs.code, GenExpr(A0, x);
      ghost var h := Infix(g.fs, op, g.e);
      nextop, y := None, ENil;
      ghost var q := ParseSub(toks[1..], RightPriority(op), nCcalls);
      if q.Some? { BinaryOk(A0, op, x, q); }
      Next();
      s := fs.CodeInfix(op, v, g.e, A0);
      if !s.Ok? { return; }
      ghost var base, c1 := fs.A, fs.code;
      LeftState(op, A0, base, c1, base.pend, v.k, v.t, v.f, h.e);
      var v2 := new ExpDesc(VNil);
      s, nextop, y := SubExpr(fs, v2, RightPriority(op));
      if !s.Ok? { return; }
      ghost var g2, c2 := GenExpr(base, y), fs.code;
      DoneParts(fs, v2, y, base);
      InvParts(base, fs.A, g2.e);
      LeftAfter(op, A0, base, c1, fs.A, c2, v.k, v.t, v.f, h.e);
      s := fs.CodePosfix(op, v, v2, h.e, g2.e, A0, base);
      if !s.Ok? { return; }
      KeptTwice(base, c1, c2, fs.code);
      KeptTrans(A0, base, c0, c1, fs.code);
      DoneAgain(fs, v, EBinary(op, x, y), A0);
    }

    /** subexpr: reads the expression that ParseSub reads, and generates its code. */
    method SubExpr(fs: FuncState, v: ExpDesc, limit: nat) returns (s: Status, op: Option<BinOpr>, ghost x: Expr)
      requires fs.Valid() && WF(fs.A) && Resolved(toks, fs.nactvar)
      modifies this, fs, v
      ensures s.Ok? <==> Compiles(ParseSub(old(toks), limit, old(nCcalls)), old(fs.A))
      ensures s.Ok? ==>
        && ParseSub(old(toks), limit, old(nCcalls)) == Some(Parsed(x, toks)) && nCcalls == old(nCcalls)
        && op == NextOpr(toks) && Done(fs, v, x, old(fs.A)) && Kept(old(fs.A), old(fs.code), fs.code)
      decreases |toks|, 4
    {
      hide WF, Kept, ParseOperand, ParseSub, ParseLoop, Inv, LeftPriority, RightPriority, GenExpr, LexState.Done;
      ghost var A0, c0, p := fs.A, fs.code, ParseSub(toks, limit, nCcalls);
      ghost var toks0, level := toks, nCcalls + 1;
      x, op := ENil, None;
      nCcalls := nCcalls + 1;
      TooDeep(toks, limit, level - 1);
      if nCcalls > LUAI_MAXCCALLS { return SyntaxError, None, x; }
      SubParts(A0, toks, limit, level - 1);
      s, x := Operand(fs, v);
      if !s.Ok? { return; }
      op := NextOpr(toks);
      while op.Some? && LeftPriority(op.value) > limit
        invariant s.Ok? && Done(fs, v, x, A0) && Kept(A0, c0, fs.code) && nCcalls == level && op == NextOpr(toks)
        invariant p == ParseLoop(x, toks, limit, level) && |toks| < |toks0|
        decreases |toks|
      {
        ghost var c1, toks1, y := fs.code, toks, ENil;
        LoopTurn(A0, x, toks, limit, level);
        s, op, y := Extend(fs, v, op.value, x, A0);
        if !s.Ok? { return; }
        x := EBinary(NextOpr(toks1).value, x, y);
        KeptTwice(A0, c0, c1, fs.code);
      }
      LoopEnds(x, toks, limit, level);
      DoneOk(fs, v, x, A0);
      nCcalls := nCcalls - 1;
    }

    /** The expression of `local x = expr`: its value goes to the first free register (adjust_assign). */
    method ExprToNextReg(fs: FuncState, v: ExpDesc) returns (s: Status, ghost x: Expr)
      requires fs.Valid() && WF(fs.A) && Resolved(toks, fs.nactvar)
      modifies this, fs, v
      ensures s.Ok? <==> var p := ParseSub(old(toks), 0, old(nCcalls)); p.Some? && Compile(old(fs.A), p.value.x).ok
      ensures s.Ok? ==>
        && ParseSub(old(toks), 0, old(nCcalls)) == Some(Parsed(x, toks)) && nCcalls == old(nCcalls)
        && fs.Valid() && fs.A == Compile(old(fs.A), x)
    {
      hide WF, Kept, ParseSub, Inv, Exp2NextReg;
      ghost var A0 := fs.A;
      var op: Option<BinOpr>;
      s, op, x := SubExpr(fs, v, 0);
      if s.Ok? { s := fs.ExpToNextReg(v, GenExpr(A0, x).e, A0); }
    }

    /** The expression of an assignment to the local variable in register `reg` (restassign). */
    method ExprToLocal(fs: FuncState, v: ExpDesc, reg: nat) returns (s: Status, ghost x: Expr)
      requires fs.Valid() && WF(fs.A) && Resolved(toks, fs.nactvar) && reg < fs.nactvar
      modifies this, fs, v
      ensures s.Ok? <==>
          var p := ParseSub(old(toks), 0, old(nCcalls)); p.Some? && CompileAssign(old(fs.A), reg, p.value.x).ok
      ensures s.Ok? ==>
        && ParseSub(old(toks), 0, old(nCcalls)) == Some(Parsed(x, toks)) && nCcalls == old(nCcalls)
        && fs.Valid() && fs.A == CompileAssign(old(fs.A), reg, x)
    {
      hide WF, Kept, ParseSub, Inv, StoreLocal, Ext;
      ghost var A0 := fs.A;
      var op: Option<BinOpr>;
      s, op, x := SubExpr(fs, v, 0);
      if s.Ok? {
        InvActive(A0, fs.A, GenExpr(A0, x).e);
        s := fs.StoreVar(reg, v, GenExpr(A0, x).e, A0);
      }
    }
  }

  // What a primary expression is
  lemma PrimaryParts(toks: seq<Token>, level: nat, A0: FS)
    requires toks != []
    ensures toks[0] == TkOpen ==>
              var q := ParseSub(toks[1..], 0, level);
              ParseSimple(toks, level) == if InParens(q)
                then NoCall(Parsed(EParen(q.value.x), q.value.rest[1..])) else None
    ensures toks[0].TkLocal? || toks[0].TkUpval? ==>
              ParseSimple(toks, level) == NoCall(Parsed(VarOf(toks[0]), toks[1..]))
                && (A0.ok ==> GenExpr(A0, VarOf(toks[0])).fs.ok)
  {
    hide ParseSub;
  }

  lemma InvActive(fs0: FS, fs: FS, e: Exp)
    requires Inv(fs0, fs, e)
    ensures fs.nactvar == fs0.nactvar
  {
  }

  lemma PlainInv(fs: FS, k: Kind)
    requires WF(fs) && !k.VK? && !k.VReloc? && !k.VJmp? && !k.VNonReloc? && (k.VLocal? ==> k.reg < fs.nactvar)
    ensures Inv(fs, fs, Exp(k, [], [])) && Framed(fs, fs, Exp(k, [], []))
  {
  }

  lemma KeptSelf(fs: FS, c: seq<Instr>)
    requires WF(fs) && |c| == |fs.code|
    ensures Kept(fs, c, c)
  {
  }

  lemma BinaryOk(A0: FS, op: BinOpr, x: Expr, q: Option<Parsed>)
    requires q.Some?
    ensures var g1 := GenExpr(A0, x);
            var h1 := Infix(g1.fs, op, g1.e);
            var g2 := GenExpr(h1.fs, q.value.x);
            var r := GenExpr(A0, EBinary(op, x, q.value.x));
            r == Posfix(g2.fs, op, h1.e, g2.e) && (r.fs.ok ==> g1.fs.ok && h1.fs.ok && g2.fs.ok)
  {
    hide Infix, Posfix;
  }

  // The code of a subexpression exceeds no limit if that of the expression does not.
  lemma {:induction false} LoopGrows(A0: FS, x: Expr, toks: seq<Token>, limit: nat, level: nat)
    requires Compiles(ParseLoop(x, toks, limit, level), A0)
    ensures GenExpr(A0, x).fs.ok
    decreases |toks|
  {
    hide Infix, Posfix, GenExpr, LeftPriority, NextOpr, ParseSub;
    var op := NextOpr(toks);
    if op.Some? && LeftPriority(op.value) > limit {
      BinBegins(toks);
      LoopOnce(x, op.value, toks[1..], limit, level);
      var q := ParseSub(toks[1..], RightPriority(op.value), level);
      LoopGrows(A0, EBinary(op.value, x, q.value.x), q.value.rest, limit, level);
      BinaryOk(A0, op.value, x, q);
    } else {
      LoopEnds(x, toks, limit, level);
    }
  }

  lemma LoopTurn(A0: FS, x: Expr, toks: seq<Token>, limit: nat, level: nat)
    requires NextOpr(toks).Some? && LeftPriority(NextOpr(toks).value) > limit
    ensures toks != []
    ensures var op := NextOpr(toks).value;
            var q := ParseSub(toks[1..], RightPriority(op), level);
            var p := ParseLoop(x, toks, limit, level);
            if q.None? then p.None?
            else
              && p == ParseLoop(EBinary(op, x, q.value.x), q.value.rest, limit, level)
              && (Compiles(p, A0) ==> GenExpr(A0, EBinary(op, x, q.value.x)).fs.ok)
  {
    hide GenExpr, LeftPriority, NextOpr, ParseSub;
    BinBegins(toks);
    var op := NextOpr(toks).value;
    LoopOnce(x, op, toks[1..], limit, level);
    var q := ParseSub(toks[1..], RightPriority(op), level);
    if q.Some? && Compiles(ParseLoop(x, toks, limit, level), A0) {
      LoopGrows(A0, EBinary(op, x, q.value.x), q.value.rest, limit, level);
    }
  }

  lemma TooDeep(toks: seq<Token>, limit: nat, level: nat)
    ensures level + 1 > LUAI_MAXCCALLS ==> ParseSub(toks, limit, level).None?
  {
  }

  // Operand and loop of subexpr
  lemma SubParts(A0: FS, toks: seq<Token>, limit: nat, level: nat)
    requires level < LUAI_MAXCCALLS
    ensures var q := ParseOperand(toks, level + 1);
            var p := ParseSub(toks, limit, level);
            if q.None? then
              p.None?
            else
              p == ParseLoop(q.value.x, q.value.rest, limit, level + 1)
              && (Compiles(p, A0) ==> GenExpr(A0, q.value.x).fs.ok)
  {
    hide GenExpr, ParseOperand, ParseLoop;
    var q := ParseOperand(toks, level + 1);
    if q.Some? && Compiles(ParseSub(toks, limit, level), A0) {
      LoopGrows(A0, q.value.x, q.value.rest, limit, level + 1);
    }
  }

  // ---- the code in place --------------------------------------------------------------------------------

  // The links of pending jumps do not matter to a run: it stops at such a jump.
  lemma {:induction false} UnthreadedRun(env: Env, c: seq<Instr>, a: seq<Instr>, pend: set<nat>, pc: nat, s: Regs)
    requires Unthreaded(c, pend, a)
    ensures Run(env, c, pend, pc, s) == Run(env, a, pend, pc, s)
    decreases |c| - pc
  {
    if pc < |c| && !Half(c, pc) {
      var i := c[pc];
      if i.Jmp? {
        if pc !in pend && pc < pc + 1 + i.sbx <= |c| { UnthreadedRun(env, c, a, pend, pc + 1 + i.sbx, s); }
      } else if IsTest(i) {
        var taken := Taken(env, i, s);
        if taken.Got? && !taken.r {
          UnthreadedRun(env, c, a, pend, pc + 2, s);
        } else if taken.Got? && pc + 1 !in pend && pc + 1 < |c| && c[pc + 1].Jmp? && AfterTaken(i, s).Got? {
          var target := pc + 2 + c[pc + 1].sbx;
          if pc < target <= |c| { UnthreadedRun(env, c, a, pend, target, AfterTaken(i, s).r); }
        }
      } else {
        match Simple(env, i, s)
        case Got(t) => UnthreadedRun(env, c, a, pend, pc + (if i.LoadBool? && i.skip then 2 else 1), t);
        case _ =>
      }
    }
  }

  // Code behind the place where the machine stops does not matter.
  lemma {:induction false} StepsAppend(env: Env, code: seq<Instr>, tail: seq<Instr>, c: Config, d: Config, n: nat)
    requires Steps(env, code, c, d, n) && d != Undefined
    ensures Steps(env, code + tail, c, d, n)
    decreases n
  {
    if n > 0 {
      var e := Step(env, code, c);
      assert e != Undefined;
      assert Step(env, code + tail, c) == e by { StepAppend(env, code, tail, c); }
      StepsAppend(env, code, tail, e, d, n - 1);
    }
  }

  lemma StepAppend(env: Env, code: seq<Instr>, tail: seq<Instr>, c: Config)
    requires c.At? && Step(env, code, c) != Undefined
    ensures Step(env, code + tail, c) == Step(env, code, c)
  {
    var i := code[c.pc];
    if IsTest(i) { assert Taken(env, i, c.s).Got? || Taken(env, i, c.s).Raise?; }
  }

  // The machine on the code in place does what the run of the abstract code says.
  lemma InPlaceRun(code: seq<Instr>, b: FS, i: Instr, env: Env, at: nat, s: Regs) returns (n: nat)
    requires WF(b) && Unthreaded(code, Emit(b, i).pend, Emit(b, i).code)
    ensures |code| == |b.code| + 1
    ensures var o := Arrive(env, b, at, s);
            && (o.Fall? ==> Steps(env, code, At(at, s), At(|b.code|, o.s), n))
            && (o.Fault? ==> Steps(env, code, At(at, s), Error, n))
  {
    var d := Discharge(b);
    DischargeWF(b);
    DischargeRun(env, b, at, s);
    var c := code[..|b.code|];
    assert Emit(b, i).code[..|b.code|] == d.code;
    assert Unthreaded(c, d.pend, d.code);
    UnthreadedRun(env, c, d.code, d.pend, at, s);
    var o := Run(env, c, d.pend, at, s);
    n := 0;
    if o.Fall? || o.Fault? {
      PendingUnmet(env, c, d.pend, at, s);
      n := RunIsMachine(env, c, at, s);
      assert code == c + code[|b.code|..];
      StepsAppend(env, c, code[|b.code|..], At(at, s), if o.Fall? then At(|c|, o.s) else Error, n);
    }
  }

  /** From the source to the machine, on the code in place: after ExprToNextReg and one more instruction i,
      a machine whose run comes to the expression with registers s1 goes on to i with the value of the
      expression in the register that was the first free one and all registers below as in s1, or it ends
      in the error that evaluating the expression raises. */
  lemma ExprOnMachine(code: seq<Instr>, fs0: FS, x: Expr, i: Instr, env: Env, at: nat, s: Regs)
    returns (n: nat, t: Regs)
    requires WF(fs0) && Scoped(x, fs0.nactvar, |env.up|) && fs0.ops == env.ops
    requires Start(fs0, at, s) && Arrive(env, fs0, at, s).Fall?
    requires Compile(fs0, x).ok && Compile(fs0, x).ks <= env.k
    requires Unthreaded(code, Emit(Compile(fs0, x), i).pend, Emit(Compile(fs0, x), i).code)
    ensures |code| == |Compile(fs0, x).code| + 1
    ensures var s1 := Arrive(env, fs0, at, s).s;
            var r := Eval(env, x, s1);
            && (r.Val? ==>
                 && Steps(env, code, At(at, s), At(|code| - 1, t), n)
                 && fs0.freereg < MAXSTACK && t[fs0.freereg] == r.v && Agree(s1, t, fs0.freereg, MAXSTACK))
            && (r.Err? ==> Steps(env, code, At(at, s), Error, n))
  {
    hide Compile, Eval, Emit, Start;
    CompileCorrect(env, fs0, x, at, s);
    n := InPlaceRun(code, Compile(fs0, x), i, env, at, s);
    var o := Arrive(env, Compile(fs0, x), at, s);
    t := if o.Fall? then o.s else s;
  }

  /** The same for an assignment to a local variable: it alone changes. */
  lemma AssignOnMachine(code: seq<Instr>, fs0: FS, reg: nat, x: Expr, i: Instr, env: Env, at: nat, s: Regs)
    returns (n: nat, t: Regs)
    requires WF(fs0) && Scoped(x, fs0.nactvar, |env.up|) && fs0.ops == env.ops && reg < fs0.nactvar
    requires Start(fs0, at, s) && Arrive(env, fs0, at, s).Fall?
    requires CompileAssign(fs0, reg, x).ok && CompileAssign(fs0, reg, x).ks <= env.k
    requires Unthreaded(code, Emit(CompileAssign(fs0, reg, x), i).pend, Emit(CompileAssign(fs0, reg, x), i).code)
    ensures |code| == |CompileAssign(fs0, reg, x).code| + 1
    ensures var s1 := Arrive(env, fs0, at, s).s;
            var r := Eval(env, x, s1);
            && (r.Val? ==>
                 && Steps(env, code, At(at, s), At(|code| - 1, t), n)
                 && reg < MAXSTACK && t[reg] == r.v && Agree(s1, t, fs0.freereg, reg))
            && (r.Err? ==> Steps(env, code, At(at, s), Error, n))
  {
    hide CompileAssign, Eval, Emit, Start;
    AssignCorrect(env, fs0, reg, x, at, s);
    n := InPlaceRun(code, CompileAssign(fs0, reg, x), i, env, at, s);
    var o := Arrive(env, CompileAssign(fs0, reg, x), at, s);
    t := if o.Fall? then o.s else s;
  }

  // ---- the whole way ------------------------------------------------------------------------------------

  // The upvalues in the input exist.
  predicate Captured(toks: seq<Token>, nup: nat) {
    forall t :: t in toks && t.TkUpval? ==> t.u < nup
  }

  lemma {:induction false} TokensScoped(x: Expr, toks: seq<Token>, nactvar: nat, nup: nat)
    requires (forall t :: t in Tokens(x) ==> t in toks) && Resolved(toks, nactvar) && Captured(toks, nup)
    ensures Scoped(x, nactvar, nup)
  {
    match x
    case ELocal(i) => assert TkLocal(i) in Tokens(x);
    case EUpval(u) => assert TkUpval(u) in Tokens(x);
    case EParen(y) => TokensScoped(y, toks, nactvar, nup);
    case EUnary(_, y) => TokensScoped(y, toks, nactvar, nup);
    case EBinary(_, l, r) =>
      TokensScoped(l, toks, nactvar, nup);
      TokensScoped(r, toks, nactvar, nup);
    case _ =>
  }

  // The machine comes to the last instruction.
  ghost predicate Reaches(env: Env, code: seq<Instr>, s: Regs, t: Regs, n: nat) {
    |code| > 0 && Steps(env, code, At(0, s), At(|code| - 1, t), n)
  }

  ghost predicate Raises(env: Env, code: seq<Instr>, s: Regs, n: nat) {
    Steps(env, code, At(0, s), Error, n)
  }

  // A machine that starts with the registers s comes to the last instruction with the value of x in the register
  // `reg` and the registers below as they were, or to the error that evaluating x raises.
  ghost predicate Delivers(code: seq<Instr>, env: Env, s: Regs, x: Expr, reg: nat) {
    var r := Eval(env, x, s);
    && (r.Val? ==>
        reg < MAXSTACK
        && exists n: nat, t: Regs :: Reaches(env, code, s, t, n) && t[reg] == r.v && Agree(s, t, reg, MAXSTACK))
    && (r.Err? ==> exists n: nat :: Raises(env, code, s, n))
  }

  // The registers in which a function with nparams parameters starts
  predicate Entered(s: Regs, nparams: nat) {
    forall r :: nparams <= r < MAXSTACK ==> s[r] == Nil
  }

  lemma FunctionDelivers(code: seq<Instr>, ops: Ops, nparams: nat, x: Expr, i: Instr, env: Env, s: Regs)
    requires nparams < MAXSTACK && Scoped(x, nparams, |env.up|) && ops == env.ops && Entered(s, nparams)
    requires Compile(InitState(ops, nparams), x).ok && Compile(InitState(ops, nparams), x).ks <= env.k
    requires var r := Emit(Compile(InitState(ops, nparams), x), i);
             Unthreaded(code, r.pend, r.code)
    ensures Delivers(code, env, s, x, nparams)
  {
    hide Compile, Eval, Emit, Start, Steps, Scoped, Unthreaded;
    var fs0 := InitState(ops, nparams);
    InitWF(ops, nparams, s);
    var n, t := ExprOnMachine(code, fs0, x, i, env, 0, s);
    assert Eval(env, x, s).Val? ==> Reaches(env, code, s, t, n);
    assert Eval(env, x, s).Err? ==> Raises(env, code, s, n);
  }

  lemma ReadsTokens(toks: seq<Token>, x: Expr, rest: seq<Token>, limit: nat, level: nat)
    requires ParseSub(toks, limit, level) == Some(Parsed(x, rest))
    ensures toks == Tokens(x) + rest && Bound(x, limit) && Follows(x, rest, limit)
  {
    ParseIsPrint(toks, x, rest, limit, level);
  }

  // The size of an expression that is always accepted: 200 nested calls, 10000 nodes, 250 registers
  predicate Small(x: Expr, nparams: nat) {
    Depth(x) <= 200 && Nodes(x) <= 10000 && nparams + Registers(x) < 250
  }

  lemma {:induction false} SomeCaptured(toks: seq<Token>) returns (nup: nat)
    ensures Captured(toks, nup)
  {
    if toks == [] { nup := 0; return; }
    nup := SomeCaptured(toks[1..]);
    if toks[0].TkUpval? && toks[0].u >= nup { nup := toks[0].u + 1; }
  }

  lemma SmallCompiles(toks: seq<Token>, ops: Ops, nparams: nat, x: Expr, rest: seq<Token>, i: Instr)
    requires toks == Tokens(x) + rest && Grouped(x) && EndsBefore(x, rest)
    requires Small(x, nparams) && Resolved(toks, nparams)
    ensures ParseSub(toks, 0, 0) == Some(Parsed(x, rest)) && Emit(Compile(InitState(ops, nparams), x), i).ok
  {
    hide Compile, ParseSub, Emit, Tokens, Bound, Follows, Grouped, EndsBefore, Resolved, Captured;
    PrecedenceIs(toks, x, rest);
    var nup := SomeCaptured(toks);
    InText(toks, x, rest);
    TokensScoped(x, toks, nparams, nup);
    FirstFits(ops, nparams, x, nup, i);
  }

  /** From a source text to the machine.  A function with nparams parameters begins with `local x = expr`, and the
      instruction i follows.  The code in place is accepted if and only if the text begins with an expression that
      exceeds no limit, as a small one does not, and then every machine that enters the function delivers its value. */
  method CompileFunction(toks: seq<Token>, ops: Ops, nparams: nat, i: Instr)
    returns (s: Status, fs: FuncState, ghost x: Expr)
    requires nparams < MAXSTACK && Resolved(toks, nparams)
    ensures s.Ok? <==> var p := ParseSub(toks, 0, 0); p.Some? && Emit(Compile(InitState(ops, nparams), p.value.x), i).ok
    ensures forall y, rest ::
              toks == Tokens(y) + rest && Grouped(y) && EndsBefore(y, rest) && Small(y, nparams) ==> s.Ok?
    ensures s.Ok? ==> fresh(fs) && ParseSub(toks, 0, 0).Some? && x == ParseSub(toks, 0, 0).value.x
    ensures s.Ok? ==> exists rest :: toks == Tokens(x) + rest && Grouped(x) && EndsBefore(x, rest)
    ensures s.Ok? ==> forall y, rest :: toks == Tokens(y) + rest && Grouped(y) && EndsBefore(y, rest) ==> y == x
    ensures s.Ok? ==> forall env: Env, regs: Regs ::
              env.ops == ops && Captured(toks, |env.up|) && fs.k <= env.k && Entered(regs, nparams) ==>
                Delivers(fs.code, env, regs, x, nparams)
  {
    hide Compile, ParseSub, Emit, WF, Delivers, Scoped, Eval, Tokens, Bound, Follows, Grouped, EndsBefore, Small;
    forall y, rest | toks == Tokens(y) + rest && Grouped(y) && EndsBefore(y, rest) && Small(y, nparams)
      ensures ParseSub(toks, 0, 0) == Some(Parsed(y, rest)) && Emit(Compile(InitState(ops, nparams), y), i).ok
    {
      SmallCompiles(toks, ops, nparams, y, rest, i);
    }
    fs := new FuncState(ops, nparams);
    var v := new ExpDesc(VNil);
    var ls := new LexState(toks);
    ghost var fs0 := fs.A;
    FirstWF(ops, nparams);
    s, x := ls.ExprToNextReg(fs, v);
    if !s.Ok? { return; }
    ghost var rest, c := ls.toks, fs.A;
    s := fs.Code(i);
    if !s.Ok? { return; }
    ReadsTokens(toks, x, rest, 0, 0);
    GroupedIs(x, rest);
    InText(toks, x, rest);
    CodedKs(c, i);
    forall y, r | toks == Tokens(y) + r && Grouped(y) && EndsBefore(y, r)
      ensures y == x
    {
      GroupedIs(y, r);
      OneReading(x, rest, y, r, 0);
    }
    forall env: Env, regs: Regs | env.ops == ops && Captured(toks, |env.up|) && fs.k <= env.k && Entered(regs, nparams)
      ensures Delivers(fs.code, env, regs, x, nparams)
    {
      TokensScoped(x, toks, nparams, |env.up|);
      FunctionDelivers(fs.code, ops, nparams, x, i, env, regs);
    }
  }

  lemma FirstWF(ops: Ops, nparams: nat)
    requires nparams < MAXSTACK
    ensures WF(InitState(ops, nparams))
  {
    InitWF(ops, nparams, seq(MAXSTACK, _ => Nil));
  }

  lemma InText(toks: seq<Token>, x: Expr, rest: seq<Token>)
    requires toks == Tokens(x) + rest
    ensures forall t :: t in Tokens(x) ==> t in toks
  {
  }

  lemma CodedKs(fs: FS, i: Instr)
    requires Emit(fs, i).ok
    ensures fs.ok && Emit(fs, i).ks == fs.ks
  {
  }
}
