/** The expression grammar of Lua 5.1 */
module Grammar {
  // As subexpr of lparser.c reads it, by operator priorities

  import opened Basics
  import opened LuaVM
  import opened CodeGen

  // Tokens; a name stands for the variable it was resolved to, Other for everything that ends an expression.
  datatype Token =
    | TkNil | TkTrue | TkFalse | TkNumber(r: real) | TkLocal(i: nat) | TkUpval(u: nat)
    | TkNot | TkMinus | TkLen
    | TkPlus | TkTimes | TkDivide | TkMod | TkPower
    | TkNe | TkEq | TkLt | TkLe | TkGt | TkGe | TkAnd | TkOr
    | TkOpen | TkClose | TkOther(c: nat)

  // getunopr
  function UnOprOf(t: Token): Option<UnOpr> {
    match t
    case TkNot => Some(LNot)
    case TkMinus => Some(Minus)
    case TkLen => Some(Length)
    case _ => None
  }

  // getbinopr
  function BinOprOf(t: Token): Option<BinOpr> {
    match t
    case TkPlus => Some(BArith(Add))
    case TkMinus => Some(BArith(Sub))
    case TkTimes => Some(BArith(Mul))
    case TkDivide => Some(BArith(Div))
    case TkMod => Some(BArith(Mod))
    case TkPower => Some(BArith(Pow))
    case TkNe => Some(NE)
    case TkEq => Some(EQ)
    case TkLt => Some(LT)
    case TkLe => Some(LE)
    case TkGt => Some(GT)
    case TkGe => Some(GE)
    case TkAnd => Some(And)
    case TkOr => Some(Or)
    case _ => None
  }

  // The priority table: how strongly an operator binds to its left and to its right.
  function LeftPriority(op: BinOpr): nat {
    match op
    case BArith(o) => if o == Pow then 10 else if o == Add || o == Sub then 6 else 7
    case And => 2
    case Or => 1
    case _ => 3
  }

  function RightPriority(op: BinOpr): nat {
    if op == BArith(Pow) then 9 else LeftPriority(op)
  }

  const UNARY_PRIORITY: nat := 8

  // Nested calls that the parser allows.
  const LUAI_MAXCCALLS: nat := 200

  // The operator that the rest of the input begins with.
  function NextOpr(toks: seq<Token>): Option<BinOpr> {
    if toks == [] then None else BinOprOf(toks[0])
  }

  // ---- what the parser accepts -----------------------------------------------------------------------

  // An expression and the tokens behind it.
  datatype Parsed = Parsed(x: Expr, rest: seq<Token>)

  /** subexpr(limit) with `level` calls already nested. */
  function ParseSub(toks: seq<Token>, limit: nat, level: int): (p: Option<Parsed>)
    ensures p.Some? ==> |p.value.rest| < |toks|
    decreases |toks|, 3
  {
    if level + 1 > LUAI_MAXCCALLS then None
    else match ParseOperand(toks, level + 1)
      case None => None
      case Some(p) => ParseLoop(p.x, p.rest, limit, level + 1)
  }

  // A unary operator with its operand, or a simple expression.
  function ParseOperand(toks: seq<Token>, level: int): (p: Option<Parsed>)
    ensures p.Some? ==> |p.value.rest| < |toks|
    decreases |toks|, 2
  {
    if toks == [] then None
    else match UnOprOf(toks[0])
      case None => ParseSimple(toks, level)
      case Some(op) =>
        match ParseSub(toks[1..], UNARY_PRIORITY, level)
        case None => None
        case Some(p) => Some(Parsed(EUnary(op, p.x), p.rest))
  }

  // simpleexp; a primary expression that goes on with a call is not part of the model.
  function ParseSimple(toks: seq<Token>, level: int): (p: Option<Parsed>)
    requires toks != []
    ensures p.Some? ==> |p.value.rest| < |toks|
    decreases |toks|, 1
  {
    match toks[0]
    case TkNil => Some(Parsed(ENil, toks[1..]))
    case TkTrue => Some(Parsed(ETrue, toks[1..]))
    case TkFalse => Some(Parsed(EFalse, toks[1..]))
    case TkNumber(r) => Some(Parsed(ENum(r), toks[1..]))
    case TkLocal(i) => NoCall(Parsed(ELocal(i), toks[1..]))
    case TkUpval(u) => NoCall(Parsed(EUpval(u), toks[1..]))
    case TkOpen =>
      (match ParseSub(toks[1..], 0, level)
       case None => None
       case Some(p) => if p.rest == [] || p.rest[0] != TkClose then None else NoCall(Parsed(EParen(p.x), p.rest[1..])))
    case _ => None
  }

  function NoCall(p: Parsed): Option<Parsed> {
    if p.rest != [] && p.rest[0] == TkOpen then None else Some(p)
  }

  // The loop of subexpr: take operators that bind more strongly to their left than `limit`.
  function ParseLoop(x: Expr, toks: seq<Token>, limit: nat, level: int): (p: Option<Parsed>)
    ensures p.Some? ==> |p.value.rest| <= |toks|
    decreases |toks|, 4
  {
    match NextOpr(toks)
    case None => Some(Parsed(x, toks))
    case Some(op) =>
      if LeftPriority(op) <= limit then Some(Parsed(x, toks))
      else match ParseSub(toks[1..], RightPriority(op), level)
        case None => None
        case Some(p) => ParseLoop(EBinary(op, x, p.x), p.rest, limit, level)
  }

  // ---- the tokens of an expression --------------------------------------------------------------------

  function UnToken(op: UnOpr): (t: Token)
    ensures UnOprOf(t) == Some(op)
  {
    match op case Minus => TkMinus case LNot => TkNot case Length => TkLen
  }

  function BinToken(op: BinOpr): (t: Token)
    ensures BinOprOf(t) == Some(op)
  {
    match op
    case BArith(o) =>
      (match o
       case Add => TkPlus case Sub => TkMinus case Mul => TkTimes
       case Div => TkDivide case Mod => TkMod case Pow => TkPower)
    case NE => TkNe
    case EQ => TkEq
    case LT => TkLt
    case LE => TkLe
    case GT => TkGt
    case GE => TkGe
    case And => TkAnd
    case Or => TkOr
  }

  function Tokens(x: Expr): (ts: seq<Token>)
    ensures ts != []
  {
    match x
    case ENil => [TkNil]
    case ETrue => [TkTrue]
    case EFalse => [TkFalse]
    case ENum(r) => [TkNumber(r)]
    case ELocal(i) => [TkLocal(i)]
    case EUpval(u) => [TkUpval(u)]
    case EParen(y) => [TkOpen] + Tokens(y) + [TkClose]
    case EUnary(op, y) => [UnToken(op)] + Tokens(y)
    case EBinary(op, l, r) => Tokens(l) + [BinToken(op)] + Tokens(r)
  }

  // An operator of left priority p behind x does not belong to an operand of x.
  predicate Closed(x: Expr, p: nat) {
    match x
    case EUnary(_, y) => p <= UNARY_PRIORITY && Closed(y, p)
    case EBinary(op, _, r) => p <= RightPriority(op) && Closed(r, p)
    case _ => true
  }

  /** Every operand binds as strongly as its place demands: the expressions that can be written without
      further parentheses where operators must bind more strongly than `limit`. */
  predicate Bound(x: Expr, limit: nat) {
    match x
    case EParen(y) => Bound(y, 0)
    case EUnary(_, y) => Bound(y, UNARY_PRIORITY)
    case EBinary(op, l, r) =>
      LeftPriority(op) > limit && Bound(l, limit) && Closed(l, LeftPriority(op)) && Bound(r, RightPriority(op))
    case _ => true
  }

  // How many nested calls of subexpr it takes to read x.
  function Depth(x: Expr): nat {
    match x
    case EParen(y) => 1 + Depth(y)
    case EUnary(_, y) => 1 + Depth(y)
    case EBinary(_, l, r) => if Depth(l) > 1 + Depth(r) then Depth(l) else 1 + Depth(r)
    case _ => 1
  }

  // The last thing in x is a variable or a parenthesis, which a call could follow.
  predicate EndsPrimary(x: Expr) {
    match x
    case ELocal(_) => true
    case EUpval(_) => true
    case EParen(_) => true
    case EUnary(_, y) => EndsPrimary(y)
    case EBinary(_, _, r) => EndsPrimary(r)
    case _ => false
  }

  // What stands behind x does not belong to an operand of x.
  predicate Ends(x: Expr, rest: seq<Token>) {
    && (NextOpr(rest).Some? ==> Closed(x, LeftPriority(NextOpr(rest).value)))
    && (rest != [] && EndsPrimary(x) ==> rest[0] != TkOpen)
  }

  // ... and not to the expression that x is at the place with this limit.
  predicate Follows(x: Expr, rest: seq<Token>, limit: nat) {
    Ends(x, rest) && (NextOpr(rest).Some? ==> LeftPriority(NextOpr(rest).value) <= limit)
  }

  // ---- one step of the parser -------------------------------------------------------------------------

  lemma NextIs(op: BinOpr, tail: seq<Token>)
    ensures NextOpr([BinToken(op)] + tail) == Some(op) && ([BinToken(op)] + tail)[0] != TkOpen
  {
  }

  lemma LoopOnce(x: Expr, op: BinOpr, tail: seq<Token>, limit: nat, level: int)
    requires LeftPriority(op) > limit
    ensures ParseLoop(x, [BinToken(op)] + tail, limit, level) ==
            match ParseSub(tail, RightPriority(op), level)
            case None => None
            case Some(p) => ParseLoop(EBinary(op, x, p.x), p.rest, limit, level)
  {
    hide BinToken, BinOprOf, NextOpr, ParseSub, LeftPriority, RightPriority;
    NextIs(op, tail);
    assert ([BinToken(op)] + tail)[1..] == tail;
  }

  lemma LoopEnds(x: Expr, toks: seq<Token>, limit: nat, level: int)
    requires NextOpr(toks).Some? ==> LeftPriority(NextOpr(toks).value) <= limit
    ensures ParseLoop(x, toks, limit, level) == Some(Parsed(x, toks))
  {
    hide NextOpr, LeftPriority;
  }

  lemma UnaryOnce(op: UnOpr, tail: seq<Token>, level: int)
    ensures ParseOperand([UnToken(op)] + tail, level) ==
            match ParseSub(tail, UNARY_PRIORITY, level)
            case None => None
            case Some(p) => Some(Parsed(EUnary(op, p.x), p.rest))
  {
    hide UnToken, UnOprOf, ParseSub;
    assert ([UnToken(op)] + tail)[1..] == tail;
  }

  lemma ParenOnce(tail: seq<Token>, level: int)
    ensures ParseOperand([TkOpen] + tail, level) ==
            match ParseSub(tail, 0, level)
            case None => None
            case Some(p) => if p.rest == [] || p.rest[0] != TkClose
              then None else NoCall(Parsed(EParen(p.x), p.rest[1..]))
  {
    hide ParseSub;
    assert ([TkOpen] + tail)[1..] == tail;
  }

  lemma AtomOnce(x: Expr, rest: seq<Token>, level: int)
    requires IsAtom(x) && (rest != [] && EndsPrimary(x) ==> rest[0] != TkOpen)
    ensures ParseOperand(Tokens(x) + rest, level) == Some(Parsed(x, rest))
  {
    assert (Tokens(x) + rest)[1..] == rest;
  }

  predicate IsAtom(x: Expr) {
    !x.EParen? && !x.EUnary? && !x.EBinary?
  }

  // How an operand can begin.
  lemma OperandBegins(toks: seq<Token>, level: int)
    requires ParseOperand(toks, level).Some?
    ensures toks != []
    ensures UnOprOf(toks[0]).Some? ==> toks == [UnToken(UnOprOf(toks[0]).value)] + toks[1..]
    ensures toks[0] == TkOpen ==> UnOprOf(toks[0]).None? && toks == [TkOpen] + toks[1..]
    ensures UnOprOf(toks[0]).None? && toks[0] != TkOpen ==>
              var p := ParseOperand(toks, level).value;
              IsAtom(p.x) && toks == Tokens(p.x) + p.rest && (p.rest != [] && EndsPrimary(p.x) ==> p.rest[0] != TkOpen)
  {
    hide ParseSub;
  }

  lemma BinBegins(toks: seq<Token>)
    requires NextOpr(toks).Some?
    ensures toks != [] && toks == [BinToken(NextOpr(toks).value)] + toks[1..]
  {
  }

  // ---- printing and parsing --------------------------------------------------------------------------

  lemma {:induction false} ReadSub(x: Expr, rest: seq<Token>, limit: nat, level: int)
    requires Bound(x, limit) && Follows(x, rest, limit) && level + Depth(x) <= LUAI_MAXCCALLS
    ensures ParseSub(Tokens(x) + rest, limit, level) == Some(Parsed(x, rest))
    decreases x, 1
  {
    hide Tokens, NextOpr, LeftPriority, Closed, Bound, Depth, ParseOperand, ParseLoop;
    DepthPositive(x);
    var a := ReadLoop(x, rest, limit, level + 1);
    LoopEnds(x, rest, limit, level + 1);
  }

  lemma {:induction false} DepthPositive(x: Expr)
    ensures Depth(x) >= 1
  {
    if x.EBinary? { DepthPositive(x.l); }
  }

  lemma BinTokens(x: Expr, op: BinOpr, tail: seq<Token>, r: Expr, rest: seq<Token>)
    requires tail == Tokens(r) + rest
    ensures Tokens(x) + ([BinToken(op)] + tail) == Tokens(EBinary(op, x, r)) + rest
  {
    hide BinToken;
  }

  lemma UnTokens(x: Expr, op: UnOpr, rest: seq<Token>)
    ensures Tokens(EUnary(op, x)) + rest == [UnToken(op)] + (Tokens(x) + rest)
  {
    hide UnToken;
  }

  lemma ParenTokens(x: Expr, rest: seq<Token>)
    ensures Tokens(EParen(x)) + rest == [TkOpen] + (Tokens(x) + ([TkClose] + rest))
  {
  }

  // subexpr reads the leftmost operand of x and its loop then gets to x.
  lemma {:induction false} ReadLoop(x: Expr, rest: seq<Token>, limit: nat, level: int) returns (a: Parsed)
    requires Bound(x, limit) && Ends(x, rest) && level + Depth(x) <= LUAI_MAXCCALLS + 1
    ensures ParseOperand(Tokens(x) + rest, level) == Some(a)
    ensures ParseLoop(a.x, a.rest, limit, level) == ParseLoop(x, rest, limit, level)
    decreases x, 0
  {
    hide LeftPriority, RightPriority, ParseSub, ParseOperand, ParseLoop, NextOpr, BinToken, UnToken, Tokens;
    a := Parsed(x, rest);
    if x.EBinary? {
      var op, r := x.bop, x.r2;
      var tail := Tokens(r) + rest;
      BinTokens(x.l, op, tail, r, rest);
      NextIs(op, tail);
      a := ReadLoop(x.l, [BinToken(op)] + tail, limit, level);
      ReadSub(r, rest, RightPriority(op), level);
      LoopOnce(x.l, op, tail, limit, level);
    } else if x.EUnary? {
      UnTokens(x.x, x.uop, rest);
      ReadSub(x.x, rest, UNARY_PRIORITY, level);
      UnaryOnce(x.uop, Tokens(x.x) + rest, level);
    } else if x.EParen? {
      var tail := [TkClose] + rest;
      ParenTokens(x.x, rest);
      CloseFollows(x.x, rest);
      assert tail[1..] == rest;
      ReadSub(x.x, tail, 0, level);
      ParenOnce(Tokens(x.x) + tail, level);
    } else {
      AtomOnce(x, rest, level);
    }
  }

  lemma CloseFollows(x: Expr, rest: seq<Token>)
    ensures Follows(x, [TkClose] + rest, 0)
  {
    assert NextOpr([TkClose] + rest) == None;
  }

  lemma {:induction false} SubReads(toks: seq<Token>, limit: nat, level: int)
    requires ParseSub(toks, limit, level).Some?
    ensures var p := ParseSub(toks, limit, level).value;
            && toks == Tokens(p.x) + p.rest && Bound(p.x, limit) && Follows(p.x, p.rest, limit)
            && level + Depth(p.x) <= LUAI_MAXCCALLS
    decreases |toks|, 3
  {
    hide Tokens, NextOpr, LeftPriority, Closed, Bound, Depth, ParseOperand, ParseLoop, Ends, Follows;
    OperandReads(toks, limit, level + 1);
    var a := ParseOperand(toks, level + 1).value;
    LoopReads(a.x, a.rest, limit, level + 1);
  }

  lemma {:induction false} OperandReads(toks: seq<Token>, limit: nat, level: int)
    requires ParseOperand(toks, level).Some? && level <= LUAI_MAXCCALLS
    ensures var p := ParseOperand(toks, level).value;
            toks == Tokens(p.x) + p.rest && Bound(p.x, limit) && Ends(p.x, p.rest)
              && level + Depth(p.x) <= LUAI_MAXCCALLS + 1
    decreases |toks|, 2
  {
    hide LeftPriority, RightPriority, ParseSub, ParseOperand, ParseLoop, NextOpr, BinToken, UnToken, UnOprOf;
    OperandBegins(toks, level);
    var tail := toks[1..];
    var op := UnOprOf(toks[0]);
    if op.Some? {
      UnaryOnce(op.value, tail, level);
      SubReads(tail, UNARY_PRIORITY, level);
      var p := ParseSub(tail, UNARY_PRIORITY, level).value;
      assert toks == Tokens(EUnary(op.value, p.x)) + p.rest;
    } else if toks[0] == TkOpen {
      ParenOnce(tail, level);
      SubReads(tail, 0, level);
      var p := ParseSub(tail, 0, level).value;
      assert p.rest == [TkClose] + p.rest[1..];
      assert toks == Tokens(EParen(p.x)) + p.rest[1..];
    }
  }

  lemma BinReads(x: Expr, op: BinOpr, tail: seq<Token>, r: Expr, rest: seq<Token>, limit: nat)
    requires LeftPriority(op) > limit && Bound(x, limit) && Ends(x, [BinToken(op)] + tail)
    requires Bound(r, RightPriority(op)) && Follows(r, rest, RightPriority(op))
    ensures Bound(EBinary(op, x, r), limit) && Ends(EBinary(op, x, r), rest)
  {
    hide LeftPriority, RightPriority, NextOpr, BinToken, Tokens;
    NextIs(op, tail);
  }

  lemma {:induction false} LoopReads(x: Expr, toks: seq<Token>, limit: nat, level: int)
    requires ParseLoop(x, toks, limit, level).Some?
    requires Bound(x, limit) && Ends(x, toks) && level + Depth(x) <= LUAI_MAXCCALLS + 1
    ensures var p := ParseLoop(x, toks, limit, level).value;
            && Tokens(x) + toks == Tokens(p.x) + p.rest && Bound(p.x, limit) && Follows(p.x, p.rest, limit)
            && level + Depth(p.x) <= LUAI_MAXCCALLS + 1
    decreases |toks|, 4
  {
    hide LeftPriority, RightPriority, ParseSub, ParseOperand, ParseLoop, NextOpr, BinToken, UnToken, UnOprOf,
      Bound, Ends, Tokens;
    var next := NextOpr(toks);
    if next.Some? && LeftPriority(next.value) > limit {
      BinBegins(toks);
      var op, tail := next.value, toks[1..];
      LoopOnce(x, op, tail, limit, level);
      SubReads(tail, RightPriority(op), level);
      var p := ParseSub(tail, RightPriority(op), level).value;
      BinTokens(x, op, tail, p.x, p.rest);
      BinReads(x, op, tail, p.x, p.rest, limit);
      LoopReads(EBinary(op, x, p.x), p.rest, limit, level);
    } else {
      LoopEnds(x, toks, limit, level);
    }
  }

  /** The parser reads exactly the expressions whose operands bind as the priorities demand, each from its
      own tokens and no others, and stops where the expression ends. */
  lemma ParseIsPrint(toks: seq<Token>, x: Expr, rest: seq<Token>, limit: nat, level: int)
    ensures ParseSub(toks, limit, level) == Some(Parsed(x, rest)) <==>
            && toks == Tokens(x) + rest && Bound(x, limit) && Follows(x, rest, limit)
            && level + Depth(x) <= 200
  {
    if ParseSub(toks, limit, level) == Some(Parsed(x, rest)) { SubReads(toks, limit, level); }
    if toks == Tokens(x) + rest && Bound(x, limit) && Follows(x, rest, limit) && level + Depth(x) <= LUAI_MAXCCALLS {
      ReadSub(x, rest, limit, level);
    }
  }

  /** A text begins with one expression at most, however deep. */
  lemma OneReading(x: Expr, rest: seq<Token>, y: Expr, rest': seq<Token>, limit: nat)
    requires Tokens(x) + rest == Tokens(y) + rest'
    requires Bound(x, limit) && Follows(x, rest, limit) && Bound(y, limit) && Follows(y, rest', limit)
    ensures x == y && rest == rest'
  {
    var level := LUAI_MAXCCALLS - Depth(x) - Depth(y);
    ParseIsPrint(Tokens(x) + rest, x, rest, limit, level);
    ParseIsPrint(Tokens(x) + rest, y, rest', limit, level);
  }

  /** An expression in parentheses wherever an operand is not atomic parses to itself, whatever the
      operators are: priorities never get in the way of parentheses. */
  function Parenthesized(x: Expr): Expr {
    match x
    case EParen(y) => EParen(Parenthesized(y))
    case EUnary(op, y) => EUnary(op, EParen(Parenthesized(y)))
    case EBinary(op, l, r) => EBinary(op, EParen(Parenthesized(l)), EParen(Parenthesized(r)))
    case _ => x
  }

  lemma {:induction false} ParenthesizedBound(x: Expr)
    ensures Bound(Parenthesized(x), 0)
  {
    match x
    case EParen(y) => ParenthesizedBound(y);
    case EUnary(_, y) => ParenthesizedBound(y);
    case EBinary(_, l, r) => ParenthesizedBound(l); ParenthesizedBound(r);
    case _ =>
  }

  // Parentheses change nothing but the grouping.
  lemma {:induction false} ParenthesizedMeans(env: Env, x: Expr, s: Regs)
    ensures Eval(env, Parenthesized(x), s) == Eval(env, x, s)
  {
    match x
    case EParen(y) => ParenthesizedMeans(env, y, s);
    case EUnary(_, y) => ParenthesizedMeans(env, y, s);
    case EBinary(_, l, r) => ParenthesizedMeans(env, l, s); ParenthesizedMeans(env, r, s);
    case _ =>
  }

  lemma AtomFacts(a: Expr, p: nat)
    requires IsAtom(a)
    ensures Bound(a, p) && Closed(a, p) && Depth(a) == 1
  {
  }

  lemma PairFacts(a: Expr, op: BinOpr, b: Expr, limit: nat, p: nat)
    requires IsAtom(a) && IsAtom(b)
    ensures var x := EBinary(op, a, b);
            && (Bound(x, limit) <==> LeftPriority(op) > limit) && (Closed(x, p) <==> p <= RightPriority(op))
              && Depth(x) == 2
  {
    hide LeftPriority, RightPriority;
    AtomFacts(a, limit);
    AtomFacts(a, LeftPriority(op));
    AtomFacts(b, RightPriority(op));
    AtomFacts(b, p);
  }

  lemma Priorities(op: BinOpr)
    ensures LeftPriority(op) > 0 && RightPriority(op) <= LeftPriority(op)
  {
  }

  lemma EndFollows(x: Expr)
    ensures Follows(x, [], 0) && NextOpr([]) == None
  {
  }

  // a op1 b op2 c
  function Row(a: Expr, op1: BinOpr, b: Expr, op2: BinOpr, c: Expr): seq<Token> {
    Tokens(a) + [BinToken(op1)] + Tokens(b) + [BinToken(op2)] + Tokens(c)
  }

  /** Two operators in a row: the right one takes the middle operand if and only if it binds it more
      strongly; so all binary operators of equal priority associate to the left, except the power. */
  lemma Grouping(a: Expr, op1: BinOpr, b: Expr, op2: BinOpr, c: Expr, level: int)
    requires IsAtom(a) && IsAtom(b) && IsAtom(c) && level + 3 <= LUAI_MAXCCALLS
    ensures ParseSub(Row(a, op1, b, op2, c), 0, level) ==
            Some(Parsed(if LeftPriority(op2) > RightPriority(op1) then EBinary(op1, a, EBinary(op2, b, c))
                        else EBinary(op2, EBinary(op1, a, b), c), []))
  {
    if LeftPriority(op2) > RightPriority(op1) { GroupRight(a, op1, b, op2, c, level); }
      else { GroupLeft(a, op1, b, op2, c, level); }
  }

  lemma GroupRight(a: Expr, op1: BinOpr, b: Expr, op2: BinOpr, c: Expr, level: int)
    requires IsAtom(a) && IsAtom(b) && IsAtom(c) && level + 3 <= LUAI_MAXCCALLS
      && LeftPriority(op2) > RightPriority(op1)
    ensures ParseSub(Row(a, op1, b, op2, c), 0, level) == Some(Parsed(EBinary(op1, a, EBinary(op2, b, c)), []))
  {
    hide BinToken, ParseSub, LeftPriority, RightPriority, Follows;
    RowRight(a, op1, b, op2, c);
    hide Tokens, Row;
    var x := EBinary(op1, a, EBinary(op2, b, c));
    Priorities(op1);
    AtomFacts(a, 0);
    AtomFacts(a, LeftPriority(op1));
    PairFacts(b, op2, c, RightPriority(op1), 0);
    EndFollows(x);
    ReadSub(x, [], 0, level);
  }

  lemma RowRight(a: Expr, op1: BinOpr, b: Expr, op2: BinOpr, c: Expr)
    ensures Row(a, op1, b, op2, c) == Tokens(EBinary(op1, a, EBinary(op2, b, c))) + []
  {
    hide BinToken, Tokens;
    TokensBinary(op2, b, c);
    TokensBinary(op1, a, EBinary(op2, b, c));
    FiveParts(Tokens(a), [BinToken(op1)], Tokens(b), [BinToken(op2)], Tokens(c));
  }

  lemma TokensBinary(op: BinOpr, l: Expr, r: Expr)
    ensures Tokens(EBinary(op, l, r)) == Tokens(l) + [BinToken(op)] + Tokens(r)
  {
  }

  lemma FiveParts(a: seq<Token>, b: seq<Token>, c: seq<Token>, d: seq<Token>, e: seq<Token>)
    ensures a + b + c + d + e == a + b + (c + d + e)
  {
  }

  lemma GroupLeft(a: Expr, op1: BinOpr, b: Expr, op2: BinOpr, c: Expr, level: int)
    requires IsAtom(a) && IsAtom(b) && IsAtom(c) && level + 3 <= LUAI_MAXCCALLS
      && LeftPriority(op2) <= RightPriority(op1)
    ensures ParseSub(Row(a, op1, b, op2, c), 0, level) == Some(Parsed(EBinary(op2, EBinary(op1, a, b), c), []))
  {
    hide BinToken, ParseSub, LeftPriority, RightPriority, Follows;
    var x := EBinary(op2, EBinary(op1, a, b), c);
    Priorities(op1);
    Priorities(op2);
    PairFacts(a, op1, b, 0, LeftPriority(op2));
    AtomFacts(c, RightPriority(op2));
    EndFollows(x);
    assert Row(a, op1, b, op2, c) == Tokens(x) + [];
    ReadSub(x, [], 0, level);
  }
}
