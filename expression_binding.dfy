/** How the `prec.left` levels group operators: the parser recognises exactly
    the printings of admitted trees, each printing has one admitted tree, and
    what that means for two operators in a row, for NOT, LIKE and BETWEEN. */
module ExpressionBinding {
  import opened Wrappers
  import opened Tokens
  import P = Precedence
  import C = Combinators
  import opened Expressions
  import opened ExpressionTrees
  import ExpressionSound
  import ExpressionComplete

  /** Read at the loosest level, with a follower that does not continue it,
      exactly the printings of admitted trees are accepted. */
  lemma ParseIff(ts: seq<Token>, e: Expr, T: seq<Token>)
    requires Follows(T, 0)
    ensures ParseExpression(ts, 0) == Some((e, T)) <==> ts == Print(e) + T && WF(e)
  {
    if ParseExpression(ts, 0) == Some((e, T)) {
      ExpressionSound.ExpressionSound(ts, 0);
    }
    if ts == Print(e) + T && WF(e) {
      ExpressionComplete.ExpressionComplete(e, 0, T);
    }
  }

  /** The grammar is unambiguous on admitted trees: two of them never print
      alike. */
  lemma PrintInjective(e1: Expr, e2: Expr)
    requires WF(e1) && WF(e2) && Print(e1) == Print(e2)
    ensures e1 == e2
  {
    var T: seq<Token> := [];
    assert Print(e1) + T == Print(e1) && Print(e2) + T == Print(e2);
    ExpressionComplete.ExpressionComplete(e1, 0, T);
    ExpressionComplete.ExpressionComplete(e2, 0, T);
  }

  /** Operands that hold no operator outside brackets on their edges:
      literals, fields, calls, bracketed and INTERVAL expressions. */
  predicate ClosedOperand(e: Expr) {
    WF(e) && !IsCompound(e) && RightOpen(e) == Closed
  }

  lemma ClosedOperandEdges(e: Expr)
    requires ClosedOperand(e)
    ensures SpinePrec(e) == Closed
  {
  }

  /** An admitted binary node over admitted operands. */
  lemma BinaryWF(l: Expr, op: P.BinaryOperator, r: Expr)
    requires WF(l) && WF(r) && P.OperatorPrec(op) < RightOpen(l) && P.OperatorPrec(op) < SpinePrec(r)
    ensures WF(Binary(l, op, r))
  {
  }

  lemma TwoOperatorsPrint(a: Expr, op1: P.BinaryOperator, b: Expr, op2: P.BinaryOperator, c: Expr)
    ensures Print(a) + [Op(op1)] + Print(b) + [Op(op2)] + Print(c) == Print(Binary(Binary(a, op1, b), op2, c)) + []
    ensures Print(a) + [Op(op1)] + Print(b) + [Op(op2)] + Print(c) == Print(Binary(a, op1, Binary(b, op2, c))) + []
  {
  }

  lemma LeftGroupWF(a: Expr, op1: P.BinaryOperator, b: Expr, op2: P.BinaryOperator, c: Expr)
    requires ClosedOperand(a) && ClosedOperand(b) && ClosedOperand(c)
    requires P.OperatorPrec(op1) >= P.OperatorPrec(op2)
    ensures WF(Binary(Binary(a, op1, b), op2, c))
  {
    ClosedOperandEdges(b);
    ClosedOperandEdges(c);
    P.OperatorPrecRange(op1);
    P.OperatorPrecRange(op2);
    BinaryWF(a, op1, b);
    BinaryWF(Binary(a, op1, b), op2, c);
  }

  lemma RightGroupWF(a: Expr, op1: P.BinaryOperator, b: Expr, op2: P.BinaryOperator, c: Expr)
    requires ClosedOperand(a) && ClosedOperand(b) && ClosedOperand(c)
    requires P.OperatorPrec(op1) < P.OperatorPrec(op2)
    ensures WF(Binary(a, op1, Binary(b, op2, c)))
  {
    ClosedOperandEdges(b);
    ClosedOperandEdges(c);
    P.OperatorPrecRange(op1);
    P.OperatorPrecRange(op2);
    BinaryWF(b, op2, c);
    BinaryWF(a, op1, Binary(b, op2, c));
  }

  lemma TwoOperatorsTree(a: Expr, op1: P.BinaryOperator, b: Expr, op2: P.BinaryOperator, c: Expr)
    requires ClosedOperand(a) && ClosedOperand(b) && ClosedOperand(c)
    ensures var e := if P.OperatorPrec(op1) >= P.OperatorPrec(op2) then Binary(Binary(a, op1, b), op2, c)
                     else Binary(a, op1, Binary(b, op2, c));
      WF(e) && Print(a) + [Op(op1)] + Print(b) + [Op(op2)] + Print(c) == Print(e) + []
  {
    TwoOperatorsPrint(a, op1, b, op2, c);
    if P.OperatorPrec(op1) >= P.OperatorPrec(op2) {
      LeftGroupWF(a, op1, b, op2, c);
    } else {
      RightGroupWF(a, op1, b, op2, c);
    }
  }

  /** `a op1 b op2 c` groups to the left when op1 binds at least as tightly
      as op2, and to the right otherwise. */
  lemma TwoOperators(a: Expr, op1: P.BinaryOperator, b: Expr, op2: P.BinaryOperator, c: Expr)
    requires ClosedOperand(a) && ClosedOperand(b) && ClosedOperand(c)
    ensures ParseExpression(Print(a) + [Op(op1)] + Print(b) + [Op(op2)] + Print(c), 0) ==
      Some((if P.OperatorPrec(op1) >= P.OperatorPrec(op2) then Binary(Binary(a, op1, b), op2, c)
            else Binary(a, op1, Binary(b, op2, c)), []))
  {
    TwoOperatorsTree(a, op1, b, op2, c);
    ParseIff(Print(a) + [Op(op1)] + Print(b) + [Op(op2)] + Print(c),
      if P.OperatorPrec(op1) >= P.OperatorPrec(op2) then Binary(Binary(a, op1, b), op2, c)
      else Binary(a, op1, Binary(b, op2, c)), []);
  }

  /** Every level is left-associative. */
  lemma LeftAssociative(a: Expr, op1: P.BinaryOperator, b: Expr, op2: P.BinaryOperator, c: Expr)
    requires ClosedOperand(a) && ClosedOperand(b) && ClosedOperand(c)
    requires P.OperatorLevel(op1) == P.OperatorLevel(op2)
    ensures ParseExpression(Print(a) + [Op(op1)] + Print(b) + [Op(op2)] + Print(c), 0) ==
      Some((Binary(Binary(a, op1, b), op2, c), []))
  {
    TwoOperators(a, op1, b, op2, c);
  }

  lemma NotTree(a: Expr, op: P.BinaryOperator, b: Expr)
    requires ClosedOperand(a) && ClosedOperand(b)
    ensures var e := if P.OperatorPrec(op) > P.Prec(P.Not) then Not(Binary(a, op, b)) else Binary(Not(a), op, b);
      WF(e) && [Fixed(NOT)] + Print(a) + [Op(op)] + Print(b) == Print(e) + []
  {
    ClosedOperandEdges(a);
    ClosedOperandEdges(b);
    P.OperatorPrecRange(op);
    BinaryWF(a, op, b);
    if P.OperatorPrec(op) <= P.Prec(P.Not) {
      BinaryWF(Not(a), op, b);
    }
  }

  /** `NOT a op b` takes the operator into its operand when op binds more
      tightly than NOT, which the comparison operators and everything above
      them do; AND, XOR and OR apply to `NOT a`. */
  lemma NotBinding(a: Expr, op: P.BinaryOperator, b: Expr)
    requires ClosedOperand(a) && ClosedOperand(b)
    ensures ParseExpression([Fixed(NOT)] + Print(a) + [Op(op)] + Print(b), 0) ==
      Some((if P.OperatorPrec(op) > P.Prec(P.Not) then Not(Binary(a, op, b)) else Binary(Not(a), op, b), []))
  {
    NotTree(a, op, b);
    ParseIff([Fixed(NOT)] + Print(a) + [Op(op)] + Print(b),
      if P.OperatorPrec(op) > P.Prec(P.Not) then Not(Binary(a, op, b)) else Binary(Not(a), op, b), []);
  }

  lemma LikeTree(a: Expr, op: P.BinaryOperator, b: Expr, pat: string)
    requires ClosedOperand(a) && ClosedOperand(b)
    ensures var e := if P.OperatorPrec(op) >= ComparisonPrec then Like(Binary(a, op, b), false, pat)
                     else Binary(a, op, Like(b, false, pat));
      WF(e) && Print(a) + [Op(op)] + Print(b) + [Fixed(LIKE), Str(pat)] == Print(e) + []
  {
    ClosedOperandEdges(a);
    ClosedOperandEdges(b);
    P.OperatorPrecRange(op);
    if P.OperatorPrec(op) >= ComparisonPrec {
      BinaryWF(a, op, b);
    } else {
      BinaryWF(a, op, Like(b, false, pat));
    }
  }

  /** `a op b LIKE 'p'`: LIKE is at the comparison level, so it applies to
      `a op b` when op binds at least as tightly as comparison, and to b
      alone otherwise. */
  lemma LikeBinding(a: Expr, op: P.BinaryOperator, b: Expr, pat: string)
    requires ClosedOperand(a) && ClosedOperand(b)
    ensures ParseExpression(Print(a) + [Op(op)] + Print(b) + [Fixed(LIKE), Str(pat)], 0) ==
      Some((if P.OperatorPrec(op) >= ComparisonPrec then Like(Binary(a, op, b), false, pat)
            else Binary(a, op, Like(b, false, pat)), []))
  {
    LikeTree(a, op, b, pat);
    ParseIff(Print(a) + [Op(op)] + Print(b) + [Fixed(LIKE), Str(pat)],
      if P.OperatorPrec(op) >= ComparisonPrec then Like(Binary(a, op, b), false, pat)
      else Binary(a, op, Like(b, false, pat)), []);
  }

  lemma BetweenPrint(a: Expr, lo: Expr, hi: Expr, d: Expr)
    ensures Print(a) + [Fixed(BETWEEN)] + Print(lo) + [Op(P.AndWord)] + Print(hi) + [Op(P.AndWord)] + Print(d)
        == Print(Binary(Between(a, lo, hi), P.AndWord, d)) + []
  {
  }

  lemma BetweenTree(a: Expr, lo: Expr, hi: Expr, d: Expr)
    requires ClosedOperand(a) && ClosedOperand(lo) && ClosedOperand(hi) && ClosedOperand(d)
    ensures var e := Binary(Between(a, lo, hi), P.AndWord, d);
      WF(e) && Print(a) + [Fixed(BETWEEN)] + Print(lo) + [Op(P.AndWord)] + Print(hi) + [Op(P.AndWord)] + Print(d)
        == Print(e) + []
  {
    ClosedOperandEdges(lo);
    ClosedOperandEdges(hi);
    ClosedOperandEdges(d);
    BetweenAdmitted(a, lo, hi, [Op(P.AndWord)]);
    BinaryWF(Between(a, lo, hi), P.AndWord, d);
    BetweenPrint(a, lo, hi, d);
  }

  /** The first `AND` after the lower bound of BETWEEN belongs to the
      BETWEEN; a second one is the logical operator applied to it. */
  lemma BetweenThenAnd(a: Expr, lo: Expr, hi: Expr, d: Expr)
    requires ClosedOperand(a) && ClosedOperand(lo) && ClosedOperand(hi) && ClosedOperand(d)
    ensures ParseExpression(Print(a) + [Fixed(BETWEEN)] + Print(lo) + [Op(P.AndWord)] + Print(hi)
                            + [Op(P.AndWord)] + Print(d), 0) ==
      Some((Binary(Between(a, lo, hi), P.AndWord, d), []))
  {
    BetweenTree(a, lo, hi, d);
    ParseIff(Print(a) + [Fixed(BETWEEN)] + Print(lo) + [Op(P.AndWord)] + Print(hi) + [Op(P.AndWord)] + Print(d),
      Binary(Between(a, lo, hi), P.AndWord, d), []);
  }

  // ---------------------------------------------------------------------
  // Examples

  function Int(s: string): Expr { Literal(IntegerValue(s)) }
  function Column(n: string): Expr { Field(None, Identifier(n, false)) }

  /** Single-token operands laid out between two operators. */
  lemma OperandTokens(a: seq<Token>, ta: Token, x: Token, b: seq<Token>, tb: Token, y: Token, c: seq<Token>, tc: Token)
    requires a == [ta] && b == [tb] && c == [tc]
    ensures a + [x] + b + [y] + c == [ta, x, tb, y, tc]
    ensures [x] + a + [y] + b == [x, ta, y, tb]
  {
  }

  /** `1 - 2 - 3` is `(1 - 2) - 3`. */
  lemma SubtractionGroupsLeft()
    ensures ParseExpression([Integer("1"), Op(P.Minus), Integer("2"), Op(P.Minus), Integer("3")], 0) ==
      Some((Binary(Binary(Int("1"), P.Minus, Int("2")), P.Minus, Int("3")), []))
  {
    LeftAssociative(Int("1"), P.Minus, Int("2"), P.Minus, Int("3"));
    OperandTokens(Print(Int("1")), Integer("1"), Op(P.Minus), Print(Int("2")), Integer("2"), Op(P.Minus), Print(Int("3")), Integer("3"));
  }

  /** `1 + 2 * 3` is `1 + (2 * 3)`. */
  lemma MultiplicationBindsTighter()
    ensures ParseExpression([Integer("1"), Op(P.Plus), Integer("2"), Op(P.Star), Integer("3")], 0) ==
      Some((Binary(Int("1"), P.Plus, Binary(Int("2"), P.Star, Int("3"))), []))
  {
    TwoOperators(Int("1"), P.Plus, Int("2"), P.Star, Int("3"));
    OperandTokens(Print(Int("1")), Integer("1"), Op(P.Plus), Print(Int("2")), Integer("2"), Op(P.Star), Print(Int("3")), Integer("3"));
  }

  /** `a AND b OR c` is `(a AND b) OR c`, and so is `a && b || c`. */
  lemma AndBindsTighterThanOr(andOp: P.BinaryOperator, orOp: P.BinaryOperator)
    requires andOp == P.AndWord || andOp == P.AmpAmp
    requires orOp == P.OrWord || orOp == P.PipePipe
    ensures ParseExpression([Name("a"), Op(andOp), Name("b"), Op(orOp), Name("c")], 0) ==
      Some((Binary(Binary(Column("a"), andOp, Column("b")), orOp, Column("c")), []))
  {
    P.SymbolAliases();
    assert P.OperatorPrec(andOp) >= P.OperatorPrec(orOp);
    TwoOperators(Column("a"), andOp, Column("b"), orOp, Column("c"));
    OperandTokens(Print(Column("a")), Name("a"), Op(andOp), Print(Column("b")), Name("b"), Op(orOp), Print(Column("c")), Name("c"));
  }

  /** `NOT a = b` is `NOT (a = b)`. */
  lemma NotTakesComparison()
    ensures ParseExpression([Fixed(NOT), Name("a"), Op(P.Equal), Name("b")], 0) ==
      Some((Not(Binary(Column("a"), P.Equal, Column("b"))), []))
  {
    assert P.OperatorPrec(P.Equal) > P.Prec(P.Not);
    NotBinding(Column("a"), P.Equal, Column("b"));
    OperandTokens(Print(Column("a")), Name("a"), Fixed(NOT), Print(Column("b")), Name("b"), Op(P.Equal), Print(Column("b")), Name("b"));
  }

  /** `NOT a AND b` is `(NOT a) AND b`. */
  lemma NotBindsTighterThanAnd()
    ensures ParseExpression([Fixed(NOT), Name("a"), Op(P.AndWord), Name("b")], 0) ==
      Some((Binary(Not(Column("a")), P.AndWord, Column("b")), []))
  {
    assert P.OperatorPrec(P.AndWord) <= P.Prec(P.Not);
    NotBinding(Column("a"), P.AndWord, Column("b"));
    OperandTokens(Print(Column("a")), Name("a"), Fixed(NOT), Print(Column("b")), Name("b"), Op(P.AndWord), Print(Column("b")), Name("b"));
  }

  /** `NOT` after an expression must begin `NOT IN`: `a NOT b` is rejected. */
  lemma DanglingNotRejected()
    ensures ParseExpression([Name("a"), Fixed(NOT), Name("b")], 0) == None
  {
    var ts := [Name("a"), Fixed(NOT), Name("b")];
    assert ParsePrimary(ts) == Some((Column("a"), ts[1..]));
    assert ts[1..][1] == Name("b");
  }

  /** An `IN` list holds at least one expression: `a IN ()` is rejected. */
  lemma EmptyInListRejected()
    ensures ParseExpression([Name("a"), Fixed(IN), Fixed(LPAREN), Fixed(RPAREN)], 0) == None
  {
    var ts := [Name("a"), Fixed(IN), Fixed(LPAREN), Fixed(RPAREN)];
    assert ParsePrimary(ts) == Some((Column("a"), ts[1..]));
    assert ts[1..][1..][1..] == [Fixed(RPAREN)];
    assert ParsePrimary([Fixed(RPAREN)]) == None;
  }

  /** The arguments of a call may be absent: `f()`. */
  lemma CallWithoutArguments()
    ensures ParseExpression([Name("f"), Fixed(LPAREN), Fixed(RPAREN)], 0) ==
      Some((Call(Identifier("f", false), []), []))
  {
    var e := Call(Identifier("f", false), []);
    CallTokens();
    ParseIff([Name("f"), Fixed(LPAREN), Fixed(RPAREN)], e, []);
  }

  lemma CallTokens()
    ensures [Name("f"), Fixed(LPAREN), Fixed(RPAREN)] == Print(Call(Identifier("f", false), [])) + []
    ensures WF(Call(Identifier("f", false), []))
  {
  }

  /** `d + INTERVAL 1 DAY` adds an interval expression. */
  lemma IntervalOperand()
    ensures ParseExpression([Name("d"), Op(P.Plus), Fixed(INTERVAL), Integer("1"), Fixed(DAY)], 0) ==
      Some((Binary(Column("d"), P.Plus, Interval(Int("1"), Day)), []))
  {
    var e := Binary(Column("d"), P.Plus, Interval(Int("1"), Day));
    IntervalTokens();
    ParseIff([Name("d"), Op(P.Plus), Fixed(INTERVAL), Integer("1"), Fixed(DAY)], e, []);
  }

  lemma IntervalTokens()
    ensures [Name("d"), Op(P.Plus), Fixed(INTERVAL), Integer("1"), Fixed(DAY)]
      == Print(Binary(Column("d"), P.Plus, Interval(Int("1"), Day))) + []
    ensures WF(Binary(Column("d"), P.Plus, Interval(Int("1"), Day)))
  {
  }

  /** `x BETWEEN a && b AND c` has the lower bound `a && b`: `&&` groups
      left before the word `AND`, which then belongs to the BETWEEN. */
  lemma BetweenLowerAmpAmp()
    ensures ParseExpression([Name("x"), Fixed(BETWEEN), Name("a"), Op(P.AmpAmp), Name("b"), Op(P.AndWord), Name("c")], 0) ==
      Some((Between(Column("x"), Binary(Column("a"), P.AmpAmp, Column("b")), Column("c")), []))
  {
    var e := Between(Column("x"), Binary(Column("a"), P.AmpAmp, Column("b")), Column("c"));
    BetweenLowerTokens();
    ParseIff([Name("x"), Fixed(BETWEEN), Name("a"), Op(P.AmpAmp), Name("b"), Op(P.AndWord), Name("c")], e, []);
  }

  lemma BetweenLowerTokens()
    ensures [Name("x"), Fixed(BETWEEN), Name("a"), Op(P.AmpAmp), Name("b"), Op(P.AndWord), Name("c")]
      == Print(Between(Column("x"), Binary(Column("a"), P.AmpAmp, Column("b")), Column("c"))) + []
    ensures WF(Between(Column("x"), Binary(Column("a"), P.AmpAmp, Column("b")), Column("c")))
  {
    var lo := Binary(Column("a"), P.AmpAmp, Column("b"));
    assert Print(lo) == [Name("a"), Op(P.AmpAmp), Name("b")];
    assert WF(lo) && LowerBound(lo) && RightOpen(lo) == BetweenLowMin;
  }

  /** The word `AND` cannot join a lower bound: `x BETWEEN a AND b AND c`
      never reads as a BETWEEN whose lower bound is `a AND b`. */
  lemma LowerBoundExcludesAndWord(x: Expr, a: Expr, b: Expr, c: Expr)
    ensures !WF(Between(x, Binary(a, P.AndWord, b), c))
  {
    var lo := Binary(a, P.AndWord, b);
    P.OperatorPrecRange(P.AndWord);
    assert SpinePrec(lo) <= P.Prec(P.And);
  }

  // ---------------------------------------------------------------------
  // The list rules are the combinators

  /** An expression read at the loosest level, the item of every expression
      list. */
  function ExpressionItem(ts: seq<Token>): (r: Option<(Expr, seq<Token>)>)
    ensures r.Some? ==> ts == Print(r.value.0) + r.value.1 && WF(r.value.0) && |r.value.1| < |ts|
  {
    ExpressionSound.ExpressionSound(ts, 0);
    ParseExpression(ts, 0)
  }

  /** An admitted tree is read back whole by the item parser when its
      follower does not continue it. */
  lemma ExpressionItemComplete(e: Expr, T: seq<Token>)
    requires WF(e) && Follows(T, 0)
    ensures ExpressionItem(Print(e) + T) == Some((e, T))
  {
    ParseIff(Print(e) + T, e, T);
  }

  lemma ExpressionItemConsumes()
    ensures C.Consumes(ExpressionItem)
  {
  }

  /** The list of an `IN` is `commaSeparated1($._expression)`. */
  lemma {:induction false} ListIsCommaSeparated1(ts: seq<Token>)
    ensures C.Consumes(ExpressionItem)
    ensures ParseExpressionList1(ts) == C.CommaSeparated1(ExpressionItem, ts)
    decreases |ts|
  {
    ExpressionItemConsumes();
    if ParseExpression(ts, 0).Some? {
      var (e, rest) := ParseExpression(ts, 0).value;
      if StartsWith(rest, COMMA) {
        ListIsCommaSeparated1(rest[1..]);
      }
    }
  }

  /** The arguments of a call are `commaSeparated($._expression)`. */
  lemma ArgumentsAreCommaSeparated(ts: seq<Token>)
    ensures C.Consumes(ExpressionItem)
    ensures ParseArguments(ts) == C.CommaSeparated(ExpressionItem, ts)
  {
    ListIsCommaSeparated1(ts);
  }
}
