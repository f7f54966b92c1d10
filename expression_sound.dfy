/** Every tree the expression parser yields is admitted by the precedence
    rules and prints back to exactly the tokens it read. */
module ExpressionSound {
  import opened Wrappers
  import opened Tokens
  import P = Precedence
  import opened Expressions
  import opened ExpressionTrees

  lemma {:induction false} ExpressionSound(ts: seq<Token>, m: int)
    requires m <= Closed
    ensures Faithful(ParseExpression(ts, m), ts, m)
    decreases |ts|, 3
  {
    PrimarySound(ts);
    if ParsePrimary(ts).Some? {
      var (lhs, rest) := ParsePrimary(ts).value;
      OperatorsSound(lhs, rest, m);
    }
  }

  /** Every primary form is closed on its left edge, so it is faithful at the
      tightest level. */
  lemma {:induction false} PrimarySound(ts: seq<Token>)
    ensures Faithful(ParsePrimary(ts), ts, Closed)
    decreases |ts|, 2
  {
    if |ts| == 0 {
    } else if ts[0] == Fixed(LPAREN) {
      ParenthesizedSound(ts);
    } else if LiteralOfToken(ts[0]).Some? {
      LiteralRead(ts);
      StopsClosed(ts[1..]);
    } else if ts[0] == Fixed(NOT) {
      NotSound(ts);
    } else if ts[0] == Fixed(INTERVAL) {
      IntervalSound(ts);
    } else {
      NamedSound(ts);
    }
  }

  lemma {:induction false} ParenthesizedSound(ts: seq<Token>)
    requires |ts| >= 1 && ts[0] == Fixed(LPAREN)
    ensures Faithful(ParseParenthesized(ts[1..]), ts, Closed)
    decreases |ts|, 1
  {
    ExpressionSound(ts[1..], 0);
    if ParseExpression(ts[1..], 0).Some? {
      var (x, rest) := ParseExpression(ts[1..], 0).value;
      if StartsWith(rest, RPAREN) {
        ParenthesizedRead(x, ts, rest);
        StopsClosed(rest[1..]);
      }
    }
  }

  lemma {:induction false} NotSound(ts: seq<Token>)
    requires |ts| >= 1 && ts[0] == Fixed(NOT)
    ensures Faithful(ParseNot(ts[1..]), ts, Closed)
    decreases |ts|, 1
  {
    ExpressionSound(ts[1..], NotOperandMin);
    if ParseExpression(ts[1..], NotOperandMin).Some? {
      var (x, rest) := ParseExpression(ts[1..], NotOperandMin).value;
      NotRead(x, ts, rest);
    }
  }

  lemma {:induction false} IntervalSound(ts: seq<Token>)
    requires |ts| >= 1 && ts[0] == Fixed(INTERVAL)
    ensures Faithful(ParseInterval(ts[1..]), ts, Closed)
    decreases |ts|, 1
  {
    ExpressionSound(ts[1..], 0);
    if ParseExpression(ts[1..], 0).Some? {
      var (x, rest) := ParseExpression(ts[1..], 0).value;
      if |rest| > 0 && UnitOfToken(rest[0]).Some? {
        IntervalRead(x, UnitOfToken(rest[0]).value, ts, rest);
        StopsClosed(rest[1..]);
      }
    }
  }

  lemma {:induction false} NamedSound(ts: seq<Token>)
    ensures Faithful(ParseNamed(ts), ts, Closed)
    decreases |ts|, 1
  {
    if ParseIdentifier(ts).Some? {
      var (id, rest) := ParseIdentifier(ts).value;
      if StartsWith(rest, LPAREN) {
        ArgumentsSound(rest[1..]);
        if ParseArguments(rest[1..]).Some? {
          var (args, rest') := ParseArguments(rest[1..]).value;
          if StartsWith(rest', RPAREN) {
            CallRead(id, args, ts, rest, rest');
            StopsClosed(rest'[1..]);
          }
        }
      } else if StartsWith(rest, DOT) {
        if ParseIdentifier(rest[1..]).Some? {
          var (column, rest') := ParseIdentifier(rest[1..]).value;
          FieldRead(id, column, ts, rest, rest');
          StopsClosed(rest');
        }
      } else {
        StopsClosed(rest);
      }
    }
  }

  /** The loop keeps the tokens read so far faithful to the tree built so
      far. */
  lemma {:induction false} OperatorsSound(lhs: Expr, ts: seq<Token>, m: int)
    requires WF(lhs) && m <= SpinePrec(lhs) && Stops(ts, RightOpen(lhs))
    ensures Faithful(ParseOperators(lhs, ts, m), Print(lhs) + ts, m)
    decreases |ts|, 2
  {
    if |ts| == 0 || InfixPrec(ts[0]).None? || InfixPrec(ts[0]).value < m {
      StopsMin(ts, m, RightOpen(lhs));
    } else if ts[0].Op? {
      BinarySound(lhs, ts, m);
    } else if ts[0] == Fixed(BETWEEN) {
      BetweenSound(lhs, ts, m);
    } else if ts[0] == Fixed(LIKE) || ts[0] == Fixed(NOT_LIKE) {
      if |ts| >= 2 && ts[1].Str? {
        LikeSound(lhs, ts, m);
      }
    } else if ts[0] == Fixed(REGEXP) || ts[0] == Fixed(NOT_REGEXP) {
      if |ts| >= 2 && ts[1].Str? {
        RegexSound(lhs, ts, m);
      }
    } else if ts[0] == Fixed(IN) {
      InSound(lhs, false, ts, ts[1..], m);
    } else if |ts| >= 2 && ts[1] == Fixed(IN) {
      InSound(lhs, true, ts, ts[2..], m);
    }
  }

  /** A turn of the loop that builds form from lhs and the tokens ts: if the
      rest of the loop is faithful from form, it is faithful from lhs. */
  lemma StepSound(lhs: Expr, form: Expr, ts: seq<Token>, T: seq<Token>, r: Option<(Expr, seq<Token>)>, m: int)
    requires IsCompound(form) && LeftOperand(form) == lhs && ts == Suffix(form) + T
    requires Faithful(r, Print(form) + T, m)
    ensures Faithful(r, Print(lhs) + ts, m)
  {
    CompoundPrint(form, T);
  }

  lemma {:induction false} BinarySound(lhs: Expr, ts: seq<Token>, m: int)
    requires WF(lhs) && m <= SpinePrec(lhs) && Stops(ts, RightOpen(lhs))
    requires |ts| >= 1 && ts[0].Op? && P.OperatorPrec(ts[0].op) >= m
    ensures Faithful(ParseBinary(lhs, ts[0].op, ts[1..], m), Print(lhs) + ts, m)
    decreases |ts|, 1
  {
    var op := ts[0].op;
    P.OperatorPrecRange(op);
    ExpressionSound(ts[1..], P.OperatorPrec(op) + 1);
    if ParseExpression(ts[1..], P.OperatorPrec(op) + 1).Some? {
      var (rhs, rest) := ParseExpression(ts[1..], P.OperatorPrec(op) + 1).value;
      var form := Binary(lhs, op, rhs);
      assert WF(form);
      OperatorsSound(form, rest, m);
      BinaryRead(lhs, op, rhs, ts, rest);
      StepSound(lhs, form, ts, rest, ParseOperators(form, rest, m), m);
    }
  }

  lemma {:induction false} BetweenSound(lhs: Expr, ts: seq<Token>, m: int)
    requires WF(lhs) && m <= ComparisonPrec && m <= SpinePrec(lhs) && Stops(ts, RightOpen(lhs))
    requires |ts| >= 1 && ts[0] == Fixed(BETWEEN)
    ensures Faithful(ParseBetween(lhs, ts[1..], m), Print(lhs) + ts, m)
    decreases |ts|, 1
  {
    assert InfixPrec(Fixed(BETWEEN)) == Some(ComparisonPrec);
    ExpressionSound(ts[1..], BetweenLowMin);
    if ParseExpression(ts[1..], BetweenLowMin).Some? {
      var (lo, rest) := ParseExpression(ts[1..], BetweenLowMin).value;
      BetweenLowSound(lhs, lo, ts, rest, m);
    }
  }

  /** R is what follows the lower bound read so far: each `&&` extends it
      by one operand, keeping it a lower bound that R does not continue. */
  lemma {:induction false} BetweenLowSound(lhs: Expr, lo: Expr, ts: seq<Token>, R: seq<Token>, m: int)
    requires WF(lhs) && m <= ComparisonPrec && m <= SpinePrec(lhs) && ComparisonPrec < RightOpen(lhs)
    requires |ts| >= 1 && ts[0] == Fixed(BETWEEN) && ts[1..] == Print(lo) + R
    requires WF(lo) && LowerBound(lo) && Stops(R, Min(BetweenLowMin, RightOpen(lo)))
    ensures Faithful(ParseBetweenLow(lhs, lo, R, m), Print(lhs) + ts, m)
    decreases |R|, 1
  {
    AndWordToken();
    if |R| > 0 && R[0] == Op(P.AmpAmp) {
      assert InfixPrec(Op(P.AmpAmp)) == Some(P.Prec(P.And));
      ExpressionSound(R[1..], BetweenLowMin);
      if ParseExpression(R[1..], BetweenLowMin).Some? {
        var (rhs, rest) := ParseExpression(R[1..], BetweenLowMin).value;
        LowerBoundExtends(lo, rhs, R, rest);
        BetweenLowSound(lhs, Binary(lo, P.AmpAmp, rhs), ts, rest, m);
      }
    } else if |R| > 0 && R[0] == Op(P.AndWord) {
      BetweenHighSound(lhs, lo, ts, R, m);
    }
  }

  /** An `&&` and its right operand extend a lower bound to a lower bound. */
  lemma LowerBoundExtends(lo: Expr, rhs: Expr, R: seq<Token>, rest: seq<Token>)
    requires WF(lo) && LowerBound(lo) && Stops(R, Min(BetweenLowMin, RightOpen(lo)))
    requires |R| >= 1 && R[0] == Op(P.AmpAmp) && R[1..] == Print(rhs) + rest
    requires WF(rhs) && BetweenLowMin <= SpinePrec(rhs) && Stops(rest, Min(BetweenLowMin, RightOpen(rhs)))
    ensures var lo' := Binary(lo, P.AmpAmp, rhs);
      WF(lo') && LowerBound(lo') && Print(lo) + R == Print(lo') + rest
      && Stops(rest, Min(BetweenLowMin, RightOpen(lo')))
  {
    var lo' := Binary(lo, P.AmpAmp, rhs);
    assert InfixPrec(Op(P.AmpAmp)) == Some(P.Prec(P.And));
    assert Admitted(lo');
    BinaryRead(lo, P.AmpAmp, rhs, R, rest);
    CompoundPrint(lo', rest);
  }

  /** R is what follows the lower bound, beginning with its `AND`. */
  lemma {:induction false} BetweenHighSound(lhs: Expr, lo: Expr, ts: seq<Token>, R: seq<Token>, m: int)
    requires WF(lhs) && m <= ComparisonPrec && m <= SpinePrec(lhs) && ComparisonPrec < RightOpen(lhs)
    requires |ts| >= 1 && ts[0] == Fixed(BETWEEN) && ts[1..] == Print(lo) + R
    requires WF(lo) && LowerBound(lo) && Stops(R, RightOpen(lo))
    requires |R| >= 1 && R[0] == Op(P.AndWord)
    ensures Faithful(ParseBetweenHigh(lhs, lo, R[1..], m), Print(lhs) + ts, m)
    decreases |R|, 0
  {
    ExpressionSound(R[1..], BetweenHighMin);
    if ParseExpression(R[1..], BetweenHighMin).Some? {
      var (hi, rest) := ParseExpression(R[1..], BetweenHighMin).value;
      var form := Between(lhs, lo, hi);
      BetweenAdmitted(lhs, lo, hi, R);
      OperatorsSound(form, rest, m);
      BetweenRead(lhs, lo, hi, ts, R, rest);
      StepSound(lhs, form, ts, rest, ParseOperators(form, rest, m), m);
    }
  }

  lemma {:induction false} LikeSound(lhs: Expr, ts: seq<Token>, m: int)
    requires WF(lhs) && m <= ComparisonPrec && m <= SpinePrec(lhs) && Stops(ts, RightOpen(lhs))
    requires |ts| >= 2 && (ts[0] == Fixed(LIKE) || ts[0] == Fixed(NOT_LIKE)) && ts[1].Str?
    ensures Faithful(ParseOperators(Like(lhs, ts[0] == Fixed(NOT_LIKE), ts[1].text), ts[2..], m), Print(lhs) + ts, m)
    decreases |ts|, 1
  {
    ComparisonWordTokens();
    var form := Like(lhs, ts[0] == Fixed(NOT_LIKE), ts[1].text);
    StopsClosed(ts[2..]);
    OperatorsSound(form, ts[2..], m);
    LikeRead(lhs, ts);
    StepSound(lhs, form, ts, ts[2..], ParseOperators(form, ts[2..], m), m);
  }

  lemma {:induction false} RegexSound(lhs: Expr, ts: seq<Token>, m: int)
    requires WF(lhs) && m <= ComparisonPrec && m <= SpinePrec(lhs) && Stops(ts, RightOpen(lhs))
    requires |ts| >= 2 && (ts[0] == Fixed(REGEXP) || ts[0] == Fixed(NOT_REGEXP)) && ts[1].Str?
    ensures Faithful(ParseOperators(Regex(lhs, ts[0] == Fixed(NOT_REGEXP), ts[1].text), ts[2..], m), Print(lhs) + ts, m)
    decreases |ts|, 1
  {
    ComparisonWordTokens();
    var form := Regex(lhs, ts[0] == Fixed(NOT_REGEXP), ts[1].text);
    StopsClosed(ts[2..]);
    OperatorsSound(form, ts[2..], m);
    RegexRead(lhs, ts);
    StepSound(lhs, form, ts, ts[2..], ParseOperators(form, ts[2..], m), m);
  }

  /** O is what follows the words `IN` or `NOT IN`. */
  lemma {:induction false} InSound(lhs: Expr, neg: bool, ts: seq<Token>, O: seq<Token>, m: int)
    requires WF(lhs) && m <= ComparisonPrec && m <= SpinePrec(lhs) && Stops(ts, RightOpen(lhs))
    requires neg ==> |ts| >= 2 && ts[0] == Fixed(NOT) && ts[1] == Fixed(IN) && ts[2..] == O
    requires !neg ==> |ts| >= 1 && ts[0] == Fixed(IN) && ts[1..] == O
    ensures Faithful(ParseIn(lhs, neg, O, m), Print(lhs) + ts, m)
    decreases |ts|, 1
  {
    if StartsWith(O, LPAREN) {
      ListSound(O[1..]);
      if ParseExpressionList1(O[1..]).Some? {
        var (list, rest) := ParseExpressionList1(O[1..]).value;
        if StartsWith(rest, RPAREN) {
          assert WF(In(lhs, neg, list));
          InRead(lhs, neg, list, ts, O, rest);
          InFormSound(lhs, neg, list, ts, rest[1..], m);
          assert ParseIn(lhs, neg, O, m) == ParseOperators(In(lhs, neg, list), rest[1..], m);
        }
      }
    }
  }

  /** The operators after a complete `IN` form. */
  lemma {:induction false} InFormSound(lhs: Expr, neg: bool, list: seq<Expr>, ts: seq<Token>, T: seq<Token>, m: int)
    requires WF(In(lhs, neg, list)) && m <= ComparisonPrec && m <= SpinePrec(lhs)
    requires ts == Suffix(In(lhs, neg, list)) + T
    ensures Faithful(ParseOperators(In(lhs, neg, list), T, m), Print(lhs) + ts, m)
    decreases |ts|, 0
  {
    var form := In(lhs, neg, list);
    assert |Suffix(form)| > 0 by {
      InSuffixShape(lhs, neg, list, []);
    }
    StopsClosed(T);
    OperatorsSound(form, T, m);
    StepSound(lhs, form, ts, T, ParseOperators(form, T, m), m);
  }

  lemma {:induction false} ListSound(ts: seq<Token>)
    ensures FaithfulList(ParseExpressionList1(ts), ts)
    ensures ParseExpressionList1(ts).Some? ==> |ParseExpressionList1(ts).value.0| >= 1
    decreases |ts|, 4
  {
    ExpressionSound(ts, 0);
    if ParseExpression(ts, 0).Some? {
      var (e, rest) := ParseExpression(ts, 0).value;
      if StartsWith(rest, COMMA) {
        ListSound(rest[1..]);
        if ParseExpressionList1(rest[1..]).Some? {
          var (es, rest') := ParseExpressionList1(rest[1..]).value;
          ListRead(e, es, ts, rest, rest');
          assert AllWF([e] + es) by {
            assert forall i | 1 <= i < |es| + 1 :: ([e] + es)[i] == es[i - 1];
          }
        }
      } else {
        assert PrintList([e]) == Print(e);
      }
    }
  }

  lemma {:induction false} ArgumentsSound(ts: seq<Token>)
    ensures FaithfulList(ParseArguments(ts), ts)
    decreases |ts|, 5
  {
    if ParseExpression(ts, 0).None? {
      assert PrintList([]) + ts == ts;
    } else {
      ListSound(ts);
    }
  }

  // ---------------------------------------------------------------------
  // Facts about Stops

  /** No token continues a closed expression. */
  lemma StopsClosed(ts: seq<Token>)
    ensures Stops(ts, Closed)
  {
  }

  lemma StopsMin(ts: seq<Token>, a: int, b: int)
    requires Stops(ts, a) && Stops(ts, b)
    ensures Stops(ts, Min(a, b))
  {
  }
}
