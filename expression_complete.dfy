/** Every admitted expression tree is read back from its printing, at every
    level its left edge allows, whatever admitted tokens follow it. */
module ExpressionComplete {
  import opened Wrappers
  import opened Tokens
  import P = Precedence
  import opened Expressions
  import opened ExpressionTrees
  import S = Sequences

  lemma {:induction false} ExpressionComplete(e: Expr, m: int, T: seq<Token>)
    requires WF(e) && m <= SpinePrec(e) && Follows(T, Min(m, RightOpen(e)))
    ensures ParseExpression(Print(e) + T, m) == Some((e, T))
    decreases Size(e), 3
  {
    FollowsWeaken(T, Min(m, RightOpen(e)), RightOpen(e));
    FollowsWeaken(T, Min(m, RightOpen(e)), m);
    SpineComplete(e, m, T);
  }

  /** Reading the printing of e at level m ends in the loop having read e,
      with T still to come. The proof walks down the left edge of e: its
      left operand is read first, and a turn of the loop then applies the
      outermost form. */
  lemma {:induction false} SpineComplete(e: Expr, m: int, T: seq<Token>)
    requires WF(e) && m <= SpinePrec(e) && Follows(T, RightOpen(e))
    ensures ParseExpression(Print(e) + T, m) == ParseOperators(e, T, m)
    decreases Size(e), 2
  {
    if IsCompound(e) {
      var x := LeftOperand(e);
      var s := Suffix(e) + T;
      SuffixFollows(e, T);
      CompoundPrint(e, T);
      SpineComplete(x, m, s);
      match e
      case Binary(l, op, r) => StepBinary(l, op, r, m, T);
      case In(_, neg, list) => StepIn(x, neg, list, m, T);
      case Like(_, neg, pat) => StepLike(x, neg, pat, m, T);
      case Regex(_, neg, pat) => StepRegex(x, neg, pat, m, T);
      case Between(_, lo, hi) => StepBetween(x, lo, hi, m, T);
    } else {
      PrimaryComplete(e, T);
    }
  }

  /** The suffix of an admitted compound form does not continue its left
      operand. */
  lemma SuffixFollows(e: Expr, T: seq<Token>)
    requires IsCompound(e) && WF(e)
    ensures WF(LeftOperand(e)) && Follows(Suffix(e) + T, RightOpen(LeftOperand(e)))
  {
    ComparisonWordTokens();
  }

  lemma {:induction false} PrimaryComplete(e: Expr, T: seq<Token>)
    requires !IsCompound(e) && WF(e) && Follows(T, RightOpen(e))
    ensures ParsePrimary(Print(e) + T) == Some((e, T))
    decreases Size(e), 1
  {
    match e
    case Parenthesized(x) => PrimaryParenthesized(x, T);
    case Literal(v) => LiteralTokenRoundTrip(v);
    case Call(f, args) => PrimaryCall(f, args, T);
    case Field(t, c) => PrimaryField(t, c, T);
    case Not(x) => PrimaryNot(x, T);
    case Interval(x, u) => PrimaryInterval(x, u, T);
  }

  lemma {:induction false} PrimaryParenthesized(x: Expr, T: seq<Token>)
    requires WF(x)
    ensures ParsePrimary(Print(Parenthesized(x)) + T) == Some((Parenthesized(x), T))
    decreases Size(Parenthesized(x)), 0
  {
    ParenthesizedShape(x, T);
    PunctuationFollows(RPAREN, T, 0);
    ExpressionComplete(x, 0, [Fixed(RPAREN)] + T);
    S.ConsParts(Fixed(RPAREN), T);
  }

  /** A token sequence that begins with an identifier is read as a call or a
      field. */
  lemma NamedStart(id: Identifier, rest: seq<Token>)
    ensures ParsePrimary(PrintIdentifier(id) + rest) == ParseNamed(PrintIdentifier(id) + rest)
  {
  }

  lemma {:induction false} PrimaryCall(f: Identifier, args: seq<Expr>, T: seq<Token>)
    requires AllWF(args)
    ensures ParsePrimary(Print(Call(f, args)) + T) == Some((Call(f, args), T))
    decreases Size(Call(f, args)), 0
  {
    var close := [Fixed(RPAREN)] + T;
    var rest := [Fixed(LPAREN)] + (PrintList(args) + close);
    CallShape(f, args, T);
    NamedStart(f, rest);
    IdentifierRoundTrip(f, rest);
    S.ConsParts(Fixed(LPAREN), PrintList(args) + close);
    ArgumentsComplete(args, T);
    S.ConsParts(Fixed(RPAREN), T);
  }

  lemma PrimaryField(t: Option<Identifier>, c: Identifier, T: seq<Token>)
    requires Follows(T, Closed)
    ensures ParsePrimary(Print(Field(t, c)) + T) == Some((Field(t, c), T))
  {
    IdentifierRoundTrip(c, T);
    if t.Some? {
      var rest := [Fixed(DOT)] + (PrintIdentifier(c) + T);
      FieldShape(t.value, c, T);
      NamedStart(t.value, rest);
      IdentifierRoundTrip(t.value, rest);
      S.ConsParts(Fixed(DOT), PrintIdentifier(c) + T);
    } else {
      NamedStart(c, T);
    }
  }

  lemma {:induction false} PrimaryNot(x: Expr, T: seq<Token>)
    requires WF(Not(x)) && Follows(T, RightOpen(Not(x)))
    ensures ParsePrimary(Print(Not(x)) + T) == Some((Not(x), T))
    decreases Size(Not(x)), 0
  {
    NotShape(x, T);
    ExpressionComplete(x, NotOperandMin, T);
  }

  lemma {:induction false} PrimaryInterval(x: Expr, u: IntervalUnit, T: seq<Token>)
    requires WF(x)
    ensures ParsePrimary(Print(Interval(x, u)) + T) == Some((Interval(x, u), T))
    decreases Size(Interval(x, u)), 0
  {
    IntervalShape(x, u, T);
    UnitToken(u);
    ExpressionComplete(x, 0, [Fixed(UnitWord(u))] + T);
    S.ConsParts(Fixed(UnitWord(u)), T);
  }

  /** A turn of the loop applies a binary operator: its right operand is
      read one level tighter. */
  lemma {:induction false} StepBinary(l: Expr, op: P.BinaryOperator, r: Expr, m: int, T: seq<Token>)
    requires WF(Binary(l, op, r)) && m <= P.OperatorPrec(op) && Follows(T, RightOpen(Binary(l, op, r)))
    ensures ParseOperators(l, Suffix(Binary(l, op, r)) + T, m) == ParseOperators(Binary(l, op, r), T, m)
    decreases Size(Binary(l, op, r)), 1
  {
    BinarySuffixShape(l, op, r, T);
    ExpressionComplete(r, P.OperatorPrec(op) + 1, T);
  }

  lemma {:induction false} StepIn(x: Expr, neg: bool, list: seq<Expr>, m: int, T: seq<Token>)
    requires WF(In(x, neg, list)) && m <= ComparisonPrec && Follows(T, RightOpen(In(x, neg, list)))
    ensures ParseOperators(x, Suffix(In(x, neg, list)) + T, m) == ParseOperators(In(x, neg, list), T, m)
    decreases Size(In(x, neg, list)), 1
  {
    var ts := Suffix(In(x, neg, list)) + T;
    var close := [Fixed(RPAREN)] + T;
    var open := [Fixed(LPAREN)] + (PrintList(list) + close);
    InSuffixShape(x, neg, list, T);
    InEntry(x, neg, ts, m);
    S.ConsParts(Fixed(LPAREN), PrintList(list) + close);
    PunctuationFollows(RPAREN, T, 0);
    ListComplete(list, close);
    S.ConsParts(Fixed(RPAREN), T);
  }

  /** The loop hands `IN` and `NOT IN` to the list reader. */
  lemma InEntry(x: Expr, neg: bool, ts: seq<Token>, m: int)
    requires m <= ComparisonPrec
    requires neg ==> |ts| >= 2 && ts[0] == Fixed(NOT) && ts[1] == Fixed(IN)
    requires !neg ==> |ts| >= 1 && ts[0] == Fixed(IN)
    ensures ParseOperators(x, ts, m) == ParseIn(x, neg, if neg then ts[2..] else ts[1..], m)
  {
    ComparisonWordTokens();
    if neg {
      NotInEntry(x, ts, m);
    } else {
      assert ts[0] == Fixed(IN) && !ts[0].Op?;
    }
  }

  lemma NotInEntry(x: Expr, ts: seq<Token>, m: int)
    requires m <= ComparisonPrec && |ts| >= 2 && ts[0] == Fixed(NOT) && ts[1] == Fixed(IN)
    ensures ParseOperators(x, ts, m) == ParseIn(x, true, ts[2..], m)
  {
    ComparisonWordTokens();
    assert ts[0] != Fixed(BETWEEN) && ts[0] != Fixed(IN) && !ts[0].Op?;
  }

  lemma StepLike(x: Expr, neg: bool, pat: string, m: int, T: seq<Token>)
    requires m <= ComparisonPrec
    ensures ParseOperators(x, Suffix(Like(x, neg, pat)) + T, m) == ParseOperators(Like(x, neg, pat), T, m)
  {
    var ts := Suffix(Like(x, neg, pat)) + T;
    PatternSuffixShape(Like(x, neg, pat), T);
    if neg {
      assert ts[0] == Fixed(NOT_LIKE) && InfixPrec(ts[0]) == Some(ComparisonPrec);
    } else {
      assert ts[0] == Fixed(LIKE) && InfixPrec(ts[0]) == Some(ComparisonPrec);
    }
  }

  lemma StepRegex(x: Expr, neg: bool, pat: string, m: int, T: seq<Token>)
    requires m <= ComparisonPrec
    ensures ParseOperators(x, Suffix(Regex(x, neg, pat)) + T, m) == ParseOperators(Regex(x, neg, pat), T, m)
  {
    var ts := Suffix(Regex(x, neg, pat)) + T;
    PatternSuffixShape(Regex(x, neg, pat), T);
    if neg {
      assert ts[0] == Fixed(NOT_REGEXP) && InfixPrec(ts[0]) == Some(ComparisonPrec);
    } else {
      assert ts[0] == Fixed(REGEXP) && InfixPrec(ts[0]) == Some(ComparisonPrec);
    }
  }

  /** BETWEEN reads its lower bound up to the `AND` and its upper bound
      above the comparison level. */
  lemma {:induction false} StepBetween(x: Expr, lo: Expr, hi: Expr, m: int, T: seq<Token>)
    requires WF(Between(x, lo, hi)) && m <= ComparisonPrec && Follows(T, RightOpen(Between(x, lo, hi)))
    ensures ParseOperators(x, Suffix(Between(x, lo, hi)) + T, m) == ParseOperators(Between(x, lo, hi), T, m)
    decreases Size(Between(x, lo, hi)), 1
  {
    var ts := Suffix(Between(x, lo, hi)) + T;
    var rest := [Op(P.AndWord)] + (Print(hi) + T);
    BetweenSuffixShape(x, lo, hi, T);
    assert InfixPrec(Fixed(BETWEEN)) == Some(ComparisonPrec);
    assert ParseOperators(x, ts, m) == ParseBetween(x, Print(lo) + rest, m);
    LowerBoundComplete(x, lo, m, rest);
    S.ConsParts(Op(P.AndWord), Print(hi) + T);
    BetweenHighComplete(x, lo, hi, m, T);
  }

  /** A lower bound is read whole, `&&` by `&&`, when the `AND` of the
      BETWEEN or a further `&&` follows it. */
  lemma {:induction false} LowerBoundComplete(x: Expr, lo: Expr, m: int, R: seq<Token>)
    requires WF(lo) && LowerBound(lo) && RightOpen(lo) > P.Prec(P.And)
    requires |R| >= 1 && (R[0] == Op(P.AndWord) || R[0] == Op(P.AmpAmp))
    ensures ParseBetween(x, Print(lo) + R, m) == ParseBetweenLow(x, lo, R, m)
    decreases Size(lo), 5
  {
    if lo.Binary? && lo.operator == P.AmpAmp {
      var l, r := lo.left, lo.right;
      var R' := [Op(P.AmpAmp)] + (Print(r) + R);
      assert Print(lo) + R == Print(l) + R' by {
        CompoundPrint(lo, R);
      }
      assert WF(l) && LowerBound(l) && RightOpen(l) > P.Prec(P.And);
      LowerBoundComplete(x, l, m, R');
      AmpAmpStep(x, l, r, m, R);
    } else {
      LowerBoundStart(x, lo, m, R);
    }
  }

  /** The first operand of a lower bound is read at the level above AND. */
  lemma {:induction false} LowerBoundStart(x: Expr, lo: Expr, m: int, R: seq<Token>)
    requires WF(lo) && SpinePrec(lo) >= BetweenLowMin && RightOpen(lo) > P.Prec(P.And)
    requires |R| >= 1 && (R[0] == Op(P.AndWord) || R[0] == Op(P.AmpAmp))
    ensures ParseBetween(x, Print(lo) + R, m) == ParseBetweenLow(x, lo, R, m)
    decreases Size(lo), 4
  {
    AndWordToken();
    assert InfixPrec(Op(P.AmpAmp)) == Some(P.Prec(P.And));
    assert Follows(R, Min(BetweenLowMin, RightOpen(lo)));
    ExpressionComplete(lo, BetweenLowMin, R);
  }

  /** A turn of the lower-bound loop takes `&&` and its right operand. */
  lemma {:induction false} AmpAmpStep(x: Expr, l: Expr, r: Expr, m: int, R: seq<Token>)
    requires WF(Binary(l, P.AmpAmp, r)) && RightOpen(Binary(l, P.AmpAmp, r)) > P.Prec(P.And)
    requires |R| >= 1 && (R[0] == Op(P.AndWord) || R[0] == Op(P.AmpAmp))
    ensures ParseBetweenLow(x, l, [Op(P.AmpAmp)] + (Print(r) + R), m) == ParseBetweenLow(x, Binary(l, P.AmpAmp, r), R, m)
    decreases Size(Binary(l, P.AmpAmp, r)), 3
  {
    AndWordToken();
    assert InfixPrec(Op(P.AmpAmp)) == Some(P.Prec(P.And));
    S.ConsParts(Op(P.AmpAmp), Print(r) + R);
    ExpressionComplete(r, BetweenLowMin, R);
  }

  lemma {:induction false} BetweenHighComplete(x: Expr, lo: Expr, hi: Expr, m: int, T: seq<Token>)
    requires WF(hi) && SpinePrec(hi) >= BetweenHighMin && Follows(T, RightOpen(Between(x, lo, hi)))
    ensures ParseBetweenHigh(x, lo, Print(hi) + T, m) == ParseOperators(Between(x, lo, hi), T, m)
    decreases Size(Between(x, lo, hi)), 0
  {
    ExpressionComplete(hi, BetweenHighMin, T);
  }

  lemma {:induction false} ListComplete(es: seq<Expr>, T: seq<Token>)
    requires |es| >= 1 && AllWF(es) && ListFollows(T)
    ensures ParseExpressionList1(PrintList(es) + T) == Some((es, T))
    decreases SizeList(es), 4
  {
    if |es| == 1 {
      ExpressionComplete(es[0], 0, T);
      assert [es[0]] == es;
    } else {
      var rest := [Fixed(COMMA)] + (PrintList(es[1..]) + T);
      ListShape(es, T);
      PunctuationFollows(COMMA, PrintList(es[1..]) + T, 0);
      ExpressionComplete(es[0], 0, rest);
      S.ConsParts(Fixed(COMMA), PrintList(es[1..]) + T);
      assert AllWF(es[1..]);
      ListComplete(es[1..], T);
      assert [es[0]] + es[1..] == es;
    }
  }

  /** The arguments of a call, possibly none, are read up to the closing
      bracket. */
  lemma {:induction false} ArgumentsComplete(args: seq<Expr>, T: seq<Token>)
    requires AllWF(args)
    ensures ParseArguments(PrintList(args) + ([Fixed(RPAREN)] + T)) == Some((args, [Fixed(RPAREN)] + T))
    decreases SizeList(args), 5
  {
    var close := [Fixed(RPAREN)] + T;
    if |args| == 0 {
      assert PrintList(args) + close == close;
      assert ParsePrimary(close) == None;
    } else {
      PunctuationFollows(RPAREN, T, 0);
      ListComplete(args, close);
    }
  }
}
