/** Operator precedence of Lua 5.1 */
module Precedence {
  // What the numbers in the priority table amount to, without the numbers: or binds least, then and, the comparisons,
  // + and -, then * / and %, the unary operators, and the power most of all; the power alone groups to the right.

  import opened Basics
  import opened LuaVM
  import opened CodeGen
  import opened Grammar

  predicate IsSum(op: BinOpr) {
    op == BArith(Add) || op == BArith(Sub)
  }

  predicate IsPower(op: BinOpr) {
    op == BArith(Pow)
  }

  predicate IsComparison(op: BinOpr) {
    op == NE || op == EQ || op == LT || op == LE || op == GT || op == GE
  }

  // op1 binds less strongly than op2.
  predicate Weaker(op1: BinOpr, op2: BinOpr) {
    || (op1 == Or && op2 != Or)
    || (op1 == And && op2 != Or && op2 != And)
    || (IsComparison(op1) && op2.BArith?)
    || (IsSum(op1) && op2.BArith? && !IsSum(op2))
    || (op1.BArith? && !IsSum(op1) && !IsPower(op1) && IsPower(op2))
  }

  // In `a op1 b op2 c` the operator op2 takes b.
  predicate TakesRight(op1: BinOpr, op2: BinOpr) {
    Weaker(op1, op2) || (IsPower(op1) && IsPower(op2))
  }

  lemma TableIs(op1: BinOpr, op2: BinOpr)
    ensures LeftPriority(op2) > RightPriority(op1) <==> TakesRight(op1, op2)
    ensures LeftPriority(op2) > UNARY_PRIORITY <==> IsPower(op2)
    ensures LeftPriority(op2) > 0
  {
  }

  // ---- two operators in a row ------------------------------------------------------------------------------------

  /** `a op1 b op2 c` */
  lemma TwoOperators(a: Expr, op1: BinOpr, b: Expr, op2: BinOpr, c: Expr, level: int)
    requires IsAtom(a) && IsAtom(b) && IsAtom(c) && level + 3 <= 200
    ensures ParseSub(Tokens(a) + [BinToken(op1)] + Tokens(b) + [BinToken(op2)] + Tokens(c), 0, level) ==
            Some(Parsed(if TakesRight(op1, op2) then EBinary(op1, a, EBinary(op2, b, c))
                        else EBinary(op2, EBinary(op1, a, b), c), []))
  {
    hide LeftPriority, RightPriority, ParseSub, TakesRight, BinToken, Tokens;
    TableIs(op1, op2);
    Grouping(a, op1, b, op2, c, level);
  }

  // ---- whole expressions -----------------------------------------------------------------------------------------

  // Every operator on the left edge of x takes its left operand if `op` stands in front of x.
  predicate LeftEdgeBinds(op: BinOpr, x: Expr) {
    x.EBinary? ==> TakesRight(op, x.bop) && LeftEdgeBinds(op, x.l)
  }

  // ... if a unary operator stands in front of x.
  predicate LeftEdgePowers(x: Expr) {
    x.EBinary? ==> IsPower(x.bop) && LeftEdgePowers(x.l)
  }

  // No operator on the right edge of x gives up its operand to `op` behind x.
  predicate RightEdgeKeeps(x: Expr, op: BinOpr) {
    match x
    case EUnary(_, y) => !IsPower(op) && RightEdgeKeeps(y, op)
    case EBinary(o, _, r) => !TakesRight(o, op) && RightEdgeKeeps(r, op)
    case _ => true
  }

  /** The expressions that can be written as they are, without further parentheses. */
  predicate Grouped(x: Expr) {
    match x
    case EParen(y) => Grouped(y)
    case EUnary(_, y) => Grouped(y) && LeftEdgePowers(y)
    case EBinary(op, l, r) => Grouped(l) && Grouped(r) && RightEdgeKeeps(l, op) && LeftEdgeBinds(op, r)
    case _ => true
  }

  predicate LeftAbove(limit: nat, x: Expr) {
    x.EBinary? ==> LeftPriority(x.bop) > limit && LeftAbove(limit, x.l)
  }

  lemma {:induction false} EdgesAre(op: BinOpr, x: Expr)
    ensures LeftAbove(RightPriority(op), x) <==> LeftEdgeBinds(op, x)
    ensures LeftAbove(UNARY_PRIORITY, x) <==> LeftEdgePowers(x)
    ensures LeftAbove(0, x)
  {
    hide LeftPriority, RightPriority, TakesRight;
    if x.EBinary? {
      TableIs(op, x.bop);
      EdgesAre(op, x.l);
    }
  }

  lemma {:induction false} ClosedIs(x: Expr, op: BinOpr)
    ensures Closed(x, LeftPriority(op)) <==> RightEdgeKeeps(x, op)
  {
    hide LeftPriority, RightPriority, TakesRight;
    match x
    case EUnary(_, y) => TableIs(op, op); ClosedIs(y, op);
    case EBinary(o, _, r) => TableIs(o, op); ClosedIs(r, op);
    case _ =>
  }

  lemma {:induction false} BoundIs(x: Expr, limit: nat)
    ensures Bound(x, limit) <==> Grouped(x) && LeftAbove(limit, x)
  {
    hide LeftPriority, RightPriority, TakesRight;
    match x
    case EParen(y) => BoundIs(y, 0); EdgesAre(And, y);
    case EUnary(_, y) => BoundIs(y, UNARY_PRIORITY); EdgesAre(And, y);
    case EBinary(op, l, r) =>
      BoundIs(l, limit);
      ClosedIs(l, op);
      BoundIs(r, RightPriority(op));
      EdgesAre(op, r);
    case _ =>
  }

  // What ends an expression: no operator, and no parenthesis that would be a call of its last name.
  predicate EndsBefore(x: Expr, rest: seq<Token>) {
    rest == [] || (BinOprOf(rest[0]) == None && (EndsPrimary(x) ==> rest[0] != TkOpen))
  }

  // The classes of the operators say what the priorities say.
  lemma GroupedIs(x: Expr, rest: seq<Token>)
    ensures Bound(x, 0) && Follows(x, rest, 0) <==> Grouped(x) && EndsBefore(x, rest)
  {
    hide LeftPriority, RightPriority, TakesRight, BinOprOf;
    BoundIs(x, 0);
    EdgesAre(And, x);
    if NextOpr(rest).Some? { TableIs(And, NextOpr(rest).value); }
  }

  /** The parser reads exactly the expressions whose operators are grouped by their classes, up to 200 deep. */
  lemma PrecedenceIs(toks: seq<Token>, x: Expr, rest: seq<Token>)
    ensures ParseSub(toks, 0, 0) == Some(Parsed(x, rest)) <==>
            toks == Tokens(x) + rest && Grouped(x) && EndsBefore(x, rest) && Depth(x) <= 200
  {
    hide ParseSub, Tokens, Bound, Follows, Grouped, EndsBefore;
    ParseIsPrint(toks, x, rest, 0, 0);
    GroupedIs(x, rest);
  }

  // ---- unary operators -------------------------------------------------------------------------------------------

  predicate Reads(toks: seq<Token>, x: Expr) {
    ParseSub(toks, 0, 0) == Some(Parsed(x, []))
  }

  // A whole text
  lemma ReadsWhole(toks: seq<Token>, x: Expr)
    requires toks == Tokens(x) && Grouped(x) && Depth(x) <= 200
    ensures Reads(toks, x)
  {
    hide ParseSub, Tokens, Grouped, Depth;
    assert toks == Tokens(x) + [];
    PrecedenceIs(toks, x, []);
  }

  lemma AtomEdges(a: Expr, op: BinOpr)
    requires IsAtom(a)
    ensures Grouped(a) && RightEdgeKeeps(a, op) && LeftEdgeBinds(op, a) && LeftEdgePowers(a) && Depth(a) == 1
  {
  }

  /** `- a op b` is `(- a) op b`, except that `- a ^ b` is `- (a ^ b)`. */
  lemma UnaryLeft(u: UnOpr, a: Expr, op: BinOpr, b: Expr)
    requires IsAtom(a) && IsAtom(b)
    ensures Reads([UnToken(u)] + Tokens(a) + [BinToken(op)] + Tokens(b),
                  if op == BArith(Pow) then EUnary(u, EBinary(op, a, b)) else EBinary(op, EUnary(u, a), b))
  {
    hide Reads, UnToken, BinToken, Tokens;
    UnaryGroups(u, a, op, b);
    UnaryTexts(u, a, op, b);
    var toks := [UnToken(u)] + Tokens(a) + [BinToken(op)] + Tokens(b);
    if op == BArith(Pow) { ReadsWhole(toks, EUnary(u, EBinary(op, a, b))); }
    else { ReadsWhole(toks, EBinary(op, EUnary(u, a), b)); }
  }

  lemma UnaryGroups(u: UnOpr, a: Expr, op: BinOpr, b: Expr)
    requires IsAtom(a) && IsAtom(b)
    ensures var x := EBinary(op, EUnary(u, a), b);
            Depth(x) == 2 && (op != BArith(Pow) ==> Grouped(x))
    ensures var y := EUnary(u, EBinary(op, a, b));
            Depth(y) == 3 && (op == BArith(Pow) ==> Grouped(y))
  {
    hide TakesRight;
    AtomEdges(a, op);
    AtomEdges(b, op);
  }

  lemma UnaryTexts(u: UnOpr, a: Expr, op: BinOpr, b: Expr)
    ensures var toks := [UnToken(u)] + Tokens(a) + [BinToken(op)] + Tokens(b);
            Tokens(EBinary(op, EUnary(u, a), b)) == toks && Tokens(EUnary(u, EBinary(op, a, b))) == toks
  {
    hide UnToken, BinToken, Tokens;
    TokensBinary(op, EUnary(u, a), b);
    TokensUnary(u, a);
    TokensBinary(op, a, b);
    TokensUnary(u, EBinary(op, a, b));
  }

  lemma TokensUnary(u: UnOpr, x: Expr)
    ensures Tokens(EUnary(u, x)) == [UnToken(u)] + Tokens(x)
  {
  }

  /** `a op - b` */
  lemma UnaryRight(u: UnOpr, a: Expr, op: BinOpr, b: Expr)
    requires IsAtom(a) && IsAtom(b)
    ensures Reads(Tokens(a) + [BinToken(op)] + [UnToken(u)] + Tokens(b), EBinary(op, a, EUnary(u, b)))
  {
    hide Reads, UnToken, BinToken, TakesRight;
    AtomEdges(a, op);
    AtomEdges(b, op);
    var x := EBinary(op, a, EUnary(u, b));
    assert Tokens(x) == Tokens(a) + [BinToken(op)] + [UnToken(u)] + Tokens(b);
    ReadsWhole(Tokens(x), x);
  }

  // ---- tokens ----------------------------------------------------------------------------------------------------

  lemma BinaryReads(a: real, t: Token, op: BinOpr, b: real)
    requires t == BinToken(op)
    ensures Reads([TkNumber(a), t, TkNumber(b)], EBinary(op, ENum(a), ENum(b)))
  {
    hide Reads, BinToken, TakesRight;
    var x := EBinary(op, ENum(a), ENum(b));
    assert Tokens(x) == [TkNumber(a), t, TkNumber(b)];
    ReadsWhole(Tokens(x), x);
  }

  /** Which token stands for which operator */
  lemma ArithTokens(a: real, b: real)
    ensures Reads([TkNumber(a), TkPlus, TkNumber(b)], EBinary(BArith(Add), ENum(a), ENum(b)))
    ensures Reads([TkNumber(a), TkMinus, TkNumber(b)], EBinary(BArith(Sub), ENum(a), ENum(b)))
    ensures Reads([TkNumber(a), TkTimes, TkNumber(b)], EBinary(BArith(Mul), ENum(a), ENum(b)))
    ensures Reads([TkNumber(a), TkDivide, TkNumber(b)], EBinary(BArith(Div), ENum(a), ENum(b)))
    ensures Reads([TkNumber(a), TkMod, TkNumber(b)], EBinary(BArith(Mod), ENum(a), ENum(b)))
    ensures Reads([TkNumber(a), TkPower, TkNumber(b)], EBinary(BArith(Pow), ENum(a), ENum(b)))
  {
    hide Reads;
    BinaryReads(a, TkPlus, BArith(Add), b);
    BinaryReads(a, TkMinus, BArith(Sub), b);
    BinaryReads(a, TkTimes, BArith(Mul), b);
    BinaryReads(a, TkDivide, BArith(Div), b);
    BinaryReads(a, TkMod, BArith(Mod), b);
    BinaryReads(a, TkPower, BArith(Pow), b);
  }

  lemma LogicTokens(a: real, b: real)
    ensures Reads([TkNumber(a), TkNe, TkNumber(b)], EBinary(NE, ENum(a), ENum(b)))
    ensures Reads([TkNumber(a), TkEq, TkNumber(b)], EBinary(EQ, ENum(a), ENum(b)))
    ensures Reads([TkNumber(a), TkLt, TkNumber(b)], EBinary(LT, ENum(a), ENum(b)))
    ensures Reads([TkNumber(a), TkLe, TkNumber(b)], EBinary(LE, ENum(a), ENum(b)))
    ensures Reads([TkNumber(a), TkGt, TkNumber(b)], EBinary(GT, ENum(a), ENum(b)))
    ensures Reads([TkNumber(a), TkGe, TkNumber(b)], EBinary(GE, ENum(a), ENum(b)))
    ensures Reads([TkNumber(a), TkAnd, TkNumber(b)], EBinary(And, ENum(a), ENum(b)))
    ensures Reads([TkNumber(a), TkOr, TkNumber(b)], EBinary(Or, ENum(a), ENum(b)))
  {
    hide Reads;
    BinaryReads(a, TkNe, NE, b);
    BinaryReads(a, TkEq, EQ, b);
    BinaryReads(a, TkLt, LT, b);
    BinaryReads(a, TkLe, LE, b);
    BinaryReads(a, TkGt, GT, b);
    BinaryReads(a, TkGe, GE, b);
    BinaryReads(a, TkAnd, And, b);
    BinaryReads(a, TkOr, Or, b);
  }

  lemma OperandTokens(a: real, i: nat)
    ensures Reads([TkNil], ENil) && Reads([TkTrue], ETrue) && Reads([TkFalse], EFalse) && Reads([TkNumber(a)], ENum(a))
    ensures Reads([TkLocal(i)], ELocal(i)) && Reads([TkUpval(i)], EUpval(i))
    ensures Reads([TkOpen, TkLocal(i), TkClose], EParen(ELocal(i)))
  {
    hide Reads;
    ReadsWhole([TkNil], ENil);
    ReadsWhole([TkTrue], ETrue);
    ReadsWhole([TkFalse], EFalse);
    ReadsWhole([TkNumber(a)], ENum(a));
    ReadsWhole([TkLocal(i)], ELocal(i));
    ReadsWhole([TkUpval(i)], EUpval(i));
    ReadsWhole([TkOpen, TkLocal(i), TkClose], EParen(ELocal(i)));
  }

  lemma UnaryTokens(i: nat)
    ensures Reads([TkNot, TkLocal(i)], EUnary(LNot, ELocal(i)))
    ensures Reads([TkMinus, TkLocal(i)], EUnary(Minus, ELocal(i)))
    ensures Reads([TkLen, TkLocal(i)], EUnary(Length, ELocal(i)))
  {
    hide Reads;
    ReadsWhole([TkNot, TkLocal(i)], EUnary(LNot, ELocal(i)));
    ReadsWhole([TkMinus, TkLocal(i)], EUnary(Minus, ELocal(i)));
    ReadsWhole([TkLen, TkLocal(i)], EUnary(Length, ELocal(i)));
  }
}
