/** Which expression trees the precedence rules admit, and the two halves of
    the round trip: every tree the parser yields prints back to the tokens
    it read, and every admitted tree is read back from its printing. */
module ExpressionTrees {
  import opened Wrappers
  import opened Tokens
  import P = Precedence
  import opened Expressions
  import S = Sequences

  // ---------------------------------------------------------------------
  // The shape predicates

  /** The loosest level among the operators on the left edge of e: a parse
      at level m yields only trees with m <= SpinePrec. */
  function SpinePrec(e: Expr): (k: int)
    ensures P.Prec(P.Or) <= k <= Closed
  {
    match e
    case Binary(l, op, _) => P.OperatorPrecRange(op); Min(P.OperatorPrec(op), SpinePrec(l))
    case In(x, _, _) => Min(ComparisonPrec, SpinePrec(x))
    case Like(x, _, _) => Min(ComparisonPrec, SpinePrec(x))
    case Regex(x, _, _) => Min(ComparisonPrec, SpinePrec(x))
    case Between(x, _, _) => Min(ComparisonPrec, SpinePrec(x))
    case _ => Closed
  }

  /** The loosest level an operator after e can have and still be drawn into
      e's right edge: the right operand of a binary operator takes operators
      one level tighter, the operand of NOT those above NOT, the upper bound
      of BETWEEN those above comparison. */
  function RightOpen(e: Expr): (k: int)
    ensures P.Prec(P.Or) < k <= Closed
  {
    match e
    case Binary(_, op, r) => P.OperatorPrecRange(op); Min(P.OperatorPrec(op) + 1, RightOpen(r))
    case Not(x) => Min(NotOperandMin, RightOpen(x))
    case Between(_, _, hi) => Min(BetweenHighMin, RightOpen(hi))
    case _ => Closed
  }

  /** The trees the `prec.left` declarations allow: every node is admitted
      and so are its operands. */
  predicate WF(e: Expr)
    decreases e, 1
  {
    Admitted(e) && OperandsWF(e)
  }

  /** The precedence conditions on one node: an operator's left operand does
      not draw the operator in, its right operand holds only tighter
      operators, the operands of NOT and BETWEEN are as the precedence of
      those forms demands, and an IN list is not empty. */
  predicate Admitted(e: Expr) {
    match e
    case Not(x) => SpinePrec(x) >= NotOperandMin
    case Binary(l, op, r) => P.OperatorPrec(op) < RightOpen(l) && SpinePrec(r) > P.OperatorPrec(op)
    case In(x, _, list) => ComparisonPrec < RightOpen(x) && |list| >= 1
    case Like(x, _, _) => ComparisonPrec < RightOpen(x)
    case Regex(x, _, _) => ComparisonPrec < RightOpen(x)
    case Between(x, lo, hi) =>
      && ComparisonPrec < RightOpen(x)
      && LowerBound(lo) && RightOpen(lo) > P.Prec(P.And)
      && SpinePrec(hi) >= BetweenHighMin
    case _ => true
  }

  /** The lower bound of BETWEEN: operands above AND, joined on the left
      edge by `&&` only, never by the word `AND`. */
  predicate LowerBound(lo: Expr) {
    if lo.Binary? && lo.operator == P.AmpAmp then LowerBound(lo.left)
    else SpinePrec(lo) >= BetweenLowMin
  }

  /** The operands of e are well formed. */
  predicate OperandsWF(e: Expr)
    decreases e, 0
  {
    match e
    case Parenthesized(x) => WF(x)
    case Literal(_) => true
    case Call(_, args) => forall i | 0 <= i < |args| :: WF(args[i])
    case Field(_, _) => true
    case Not(x) => WF(x)
    case Interval(x, _) => WF(x)
    case Binary(l, _, r) => WF(l) && WF(r)
    case In(x, _, list) => WF(x) && forall i | 0 <= i < |list| :: WF(list[i])
    case Like(x, _, _) => WF(x)
    case Regex(x, _, _) => WF(x)
    case Between(x, lo, hi) => WF(x) && WF(lo) && WF(hi)
  }

  predicate AllWF(es: seq<Expr>) { forall i | 0 <= i < |es| :: WF(es[i]) }

  /** The next token does not continue an expression at level k or tighter. */
  predicate Stops(ts: seq<Token>, k: int) {
    |ts| == 0 || InfixPrec(ts[0]).None? || InfixPrec(ts[0]).value < k
  }

  /** ts may follow an expression read at level k: it does not continue it,
      and it does not turn a trailing identifier into a call or a
      qualified field. */
  predicate Follows(ts: seq<Token>, k: int) {
    Stops(ts, k) && !StartsWith(ts, LPAREN) && !StartsWith(ts, DOT)
  }

  /** What may follow the last item of an expression list. */
  predicate ListFollows(ts: seq<Token>) {
    Follows(ts, 0) && !StartsWith(ts, COMMA)
  }

  /** What a parse at level m may yield from read: tokens that print the
      tree, followed by tokens that do not continue it at level m, and a tree
      the precedence rules admit whose left edge is at level m or tighter. */
  predicate Faithful(r: Option<(Expr, seq<Token>)>, read: seq<Token>, m: int) {
    r.Some? ==>
      && read == Print(r.value.0) + r.value.1
      && WF(r.value.0)
      && m <= SpinePrec(r.value.0)
      && Stops(r.value.1, Min(m, RightOpen(r.value.0)))
  }

  /** What a list parse may yield from read: the printing of admitted trees,
      followed by the tokens it leaves. */
  predicate FaithfulList(r: Option<(seq<Expr>, seq<Token>)>, read: seq<Token>) {
    r.Some? ==> read == PrintList(r.value.0) + r.value.1 && AllWF(r.value.0)
  }

  function Size(e: Expr): (n: nat)
    ensures n >= 1
  {
    match e
    case Parenthesized(x) => 1 + Size(x)
    case Literal(_) => 1
    case Call(_, args) => 1 + SizeList(args)
    case Field(_, _) => 1
    case Not(x) => 1 + Size(x)
    case Interval(x, _) => 1 + Size(x)
    case Binary(l, _, r) => 1 + Size(l) + Size(r)
    case In(x, _, list) => 1 + Size(x) + SizeList(list)
    case Like(x, _, _) => 1 + Size(x)
    case Regex(x, _, _) => 1 + Size(x)
    case Between(x, lo, hi) => 1 + Size(x) + Size(lo) + Size(hi)
  }

  function SizeList(es: seq<Expr>): nat {
    if |es| == 0 then 0 else Size(es[0]) + SizeList(es[1..])
  }

  /** The expression a compound form begins with. */
  function LeftOperand(e: Expr): (x: Expr)
    requires IsCompound(e)
    ensures Size(x) < Size(e)
  {
    match e
    case Binary(l, _, _) => l
    case In(x, _, _) => x
    case Like(x, _, _) => x
    case Regex(x, _, _) => x
    case Between(x, _, _) => x
  }

  /** The tokens of a compound form after its left operand. */
  function Suffix(e: Expr): seq<Token>
    requires IsCompound(e)
  {
    match e
    case Binary(_, op, r) => [Op(op)] + Print(r)
    case In(_, neg, list) =>
      (if neg then [Fixed(NOT)] else []) + ([Fixed(IN)] + ([Fixed(LPAREN)] + (PrintList(list) + [Fixed(RPAREN)])))
    case Like(_, neg, pat) => [Fixed(if neg then NOT_LIKE else LIKE), Str(pat)]
    case Regex(_, neg, pat) => [Fixed(if neg then NOT_REGEXP else REGEXP), Str(pat)]
    case Between(_, lo, hi) => [Fixed(BETWEEN)] + (Print(lo) + ([Op(P.AndWord)] + Print(hi)))
  }

  lemma CompoundPrint(e: Expr, T: seq<Token>)
    requires IsCompound(e)
    ensures Print(e) + T == Print(LeftOperand(e)) + (Suffix(e) + T)
  {
    assert Print(e) == Print(LeftOperand(e)) + Suffix(e);
    S.AppendAssoc(Print(LeftOperand(e)), Suffix(e), T);
  }

  // ---------------------------------------------------------------------
  // The printing of each form, followed by more tokens, taken apart

  lemma ParenthesizedShape(x: Expr, T: seq<Token>)
    ensures (Print(Parenthesized(x)) + T)[0] == Fixed(LPAREN)
    ensures (Print(Parenthesized(x)) + T)[1..] == Print(x) + ([Fixed(RPAREN)] + T)
  {
    S.AppendAssoc([Fixed(LPAREN)], Print(x) + [Fixed(RPAREN)], T);
    S.AppendAssoc(Print(x), [Fixed(RPAREN)], T);
    S.ConsParts(Fixed(LPAREN), Print(x) + ([Fixed(RPAREN)] + T));
  }

  lemma CallShape(f: Identifier, args: seq<Expr>, T: seq<Token>)
    ensures Print(Call(f, args)) + T == PrintIdentifier(f) + ([Fixed(LPAREN)] + (PrintList(args) + ([Fixed(RPAREN)] + T)))
  {
    var close := [Fixed(RPAREN)];
    S.AppendAssoc(PrintIdentifier(f), [Fixed(LPAREN)] + (PrintList(args) + close), T);
    S.AppendAssoc([Fixed(LPAREN)], PrintList(args) + close, T);
    S.AppendAssoc(PrintList(args), close, T);
  }

  lemma FieldShape(t: Identifier, c: Identifier, T: seq<Token>)
    ensures Print(Field(Some(t), c)) + T == PrintIdentifier(t) + ([Fixed(DOT)] + (PrintIdentifier(c) + T))
  {
    S.AppendAssoc(PrintIdentifier(t), [Fixed(DOT)] + PrintIdentifier(c), T);
    S.AppendAssoc([Fixed(DOT)], PrintIdentifier(c), T);
  }

  lemma NotShape(x: Expr, T: seq<Token>)
    ensures (Print(Not(x)) + T)[0] == Fixed(NOT) && (Print(Not(x)) + T)[1..] == Print(x) + T
  {
    S.AppendAssoc([Fixed(NOT)], Print(x), T);
    S.ConsParts(Fixed(NOT), Print(x) + T);
  }

  lemma IntervalShape(x: Expr, u: IntervalUnit, T: seq<Token>)
    ensures (Print(Interval(x, u)) + T)[0] == Fixed(INTERVAL)
    ensures (Print(Interval(x, u)) + T)[1..] == Print(x) + ([Fixed(UnitWord(u))] + T)
  {
    S.AppendAssoc([Fixed(INTERVAL)], Print(x) + [Fixed(UnitWord(u))], T);
    S.AppendAssoc(Print(x), [Fixed(UnitWord(u))], T);
    S.ConsParts(Fixed(INTERVAL), Print(x) + ([Fixed(UnitWord(u))] + T));
  }

  lemma BinarySuffixShape(l: Expr, op: P.BinaryOperator, r: Expr, T: seq<Token>)
    ensures (Suffix(Binary(l, op, r)) + T)[0] == Op(op)
    ensures (Suffix(Binary(l, op, r)) + T)[1..] == Print(r) + T
  {
    S.AppendAssoc([Op(op)], Print(r), T);
    S.ConsParts(Op(op), Print(r) + T);
  }

  /** The tokens after the left operand of `IN`: the words, then the
      bracketed list. */
  lemma InSuffixShape(x: Expr, neg: bool, list: seq<Expr>, T: seq<Token>)
    ensures var ts := Suffix(In(x, neg, list)) + T;
      var open := [Fixed(LPAREN)] + (PrintList(list) + ([Fixed(RPAREN)] + T));
      if neg then |ts| >= 2 && ts[0] == Fixed(NOT) && ts[1] == Fixed(IN) && ts[2..] == open
      else |ts| >= 1 && ts[0] == Fixed(IN) && ts[1..] == open
  {
    var open := [Fixed(LPAREN)] + (PrintList(list) + ([Fixed(RPAREN)] + T));
    var words := [Fixed(IN)] + ([Fixed(LPAREN)] + (PrintList(list) + [Fixed(RPAREN)]));
    assert words + T == [Fixed(IN)] + open by {
      S.AppendAssoc(PrintList(list), [Fixed(RPAREN)], T);
      S.AppendAssoc([Fixed(LPAREN)], PrintList(list) + [Fixed(RPAREN)], T);
      S.AppendAssoc([Fixed(IN)], [Fixed(LPAREN)] + (PrintList(list) + [Fixed(RPAREN)]), T);
    }
    S.ConsParts(Fixed(IN), open);
    if neg {
      assert Suffix(In(x, neg, list)) + T == [Fixed(NOT)] + ([Fixed(IN)] + open) by {
        S.AppendAssoc([Fixed(NOT)], words, T);
      }
      S.ConsParts(Fixed(NOT), [Fixed(IN)] + open);
    } else {
      assert Suffix(In(x, neg, list)) == words by {
        assert [] + words == words;
      }
    }
  }

  lemma PatternSuffixShape(e: Expr, T: seq<Token>)
    requires e.Like? || e.Regex?
    ensures |Suffix(e) + T| >= 2 && (Suffix(e) + T)[1] == Str(e.pattern) && (Suffix(e) + T)[2..] == T
    ensures (Suffix(e) + T)[0] == Suffix(e)[0]
  {
    assert |Suffix(e)| == 2;
  }

  lemma BetweenSuffixShape(x: Expr, lo: Expr, hi: Expr, T: seq<Token>)
    ensures (Suffix(Between(x, lo, hi)) + T)[0] == Fixed(BETWEEN)
    ensures (Suffix(Between(x, lo, hi)) + T)[1..] == Print(lo) + ([Op(P.AndWord)] + (Print(hi) + T))
  {
    var and := [Op(P.AndWord)] + Print(hi);
    S.AppendAssoc([Fixed(BETWEEN)], Print(lo) + and, T);
    S.AppendAssoc(Print(lo), and, T);
    S.AppendAssoc([Op(P.AndWord)], Print(hi), T);
    S.ConsParts(Fixed(BETWEEN), Print(lo) + (and + T));
  }

  lemma ListShape(es: seq<Expr>, T: seq<Token>)
    requires |es| >= 2
    ensures PrintList(es) + T == Print(es[0]) + ([Fixed(COMMA)] + (PrintList(es[1..]) + T))
  {
    S.AppendAssoc(Print(es[0]), [Fixed(COMMA)] + PrintList(es[1..]), T);
    S.AppendAssoc([Fixed(COMMA)], PrintList(es[1..]), T);
  }

  /** BETWEEN is admitted when its lower bound was closed by the logical
      `AND` that comes next. */
  lemma BetweenAdmitted(x: Expr, lo: Expr, hi: Expr, R: seq<Token>)
    requires WF(x) && WF(lo) && WF(hi) && ComparisonPrec < RightOpen(x)
    requires LowerBound(lo) && SpinePrec(hi) >= BetweenHighMin
    requires |R| >= 1 && R[0] == Op(P.AndWord) && Stops(R, RightOpen(lo))
    ensures WF(Between(x, lo, hi))
  {
    AndWordToken();
  }

  // ---------------------------------------------------------------------
  // Tokens taken apart as the parser does, put back together

  lemma LiteralRead(ts: seq<Token>)
    requires |ts| >= 1 && LiteralOfToken(ts[0]).Some?
    ensures ts == Print(Literal(LiteralOfToken(ts[0]).value)) + ts[1..]
  {
    S.HeadTail(ts);
  }

  lemma ParenthesizedRead(x: Expr, ts: seq<Token>, R: seq<Token>)
    requires |ts| >= 1 && ts[0] == Fixed(LPAREN) && ts[1..] == Print(x) + R && StartsWith(R, RPAREN)
    ensures ts == Print(Parenthesized(x)) + R[1..]
  {
    S.HeadTail(ts);
    S.HeadTail(R);
    S.AppendAssoc(Print(x), [Fixed(RPAREN)], R[1..]);
    S.AppendAssoc([Fixed(LPAREN)], Print(x) + [Fixed(RPAREN)], R[1..]);
  }

  lemma NotRead(x: Expr, ts: seq<Token>, R: seq<Token>)
    requires |ts| >= 1 && ts[0] == Fixed(NOT) && ts[1..] == Print(x) + R
    ensures ts == Print(Not(x)) + R
  {
    S.HeadTail(ts);
    S.AppendAssoc([Fixed(NOT)], Print(x), R);
  }

  lemma IntervalRead(x: Expr, u: IntervalUnit, ts: seq<Token>, R: seq<Token>)
    requires |ts| >= 1 && ts[0] == Fixed(INTERVAL) && ts[1..] == Print(x) + R
    requires |R| >= 1 && R[0] == Fixed(UnitWord(u))
    ensures ts == Print(Interval(x, u)) + R[1..]
  {
    S.HeadTail(ts);
    S.HeadTail(R);
    S.AppendAssoc(Print(x), [Fixed(UnitWord(u))], R[1..]);
    S.AppendAssoc([Fixed(INTERVAL)], Print(x) + [Fixed(UnitWord(u))], R[1..]);
  }

  lemma CallRead(f: Identifier, args: seq<Expr>, ts: seq<Token>, R: seq<Token>, R': seq<Token>)
    requires ts == PrintIdentifier(f) + R && StartsWith(R, LPAREN)
    requires R[1..] == PrintList(args) + R' && StartsWith(R', RPAREN)
    ensures ts == Print(Call(f, args)) + R'[1..]
  {
    S.HeadTail(R);
    S.HeadTail(R');
    CallShape(f, args, R'[1..]);
  }

  lemma FieldRead(t: Identifier, c: Identifier, ts: seq<Token>, R: seq<Token>, R': seq<Token>)
    requires ts == PrintIdentifier(t) + R && StartsWith(R, DOT) && R[1..] == PrintIdentifier(c) + R'
    ensures ts == Print(Field(Some(t), c)) + R'
  {
    S.HeadTail(R);
    FieldShape(t, c, R');
  }

  lemma BinaryRead(l: Expr, op: P.BinaryOperator, r: Expr, ts: seq<Token>, R: seq<Token>)
    requires |ts| >= 1 && ts[0] == Op(op) && ts[1..] == Print(r) + R
    ensures ts == Suffix(Binary(l, op, r)) + R
  {
    S.HeadTail(ts);
    S.AppendAssoc([Op(op)], Print(r), R);
  }

  lemma LikeRead(x: Expr, ts: seq<Token>)
    requires |ts| >= 2 && (ts[0] == Fixed(LIKE) || ts[0] == Fixed(NOT_LIKE)) && ts[1].Str?
    ensures ts == Suffix(Like(x, ts[0] == Fixed(NOT_LIKE), ts[1].text)) + ts[2..]
  {
    assert ts == [ts[0], ts[1]] + ts[2..];
  }

  lemma RegexRead(x: Expr, ts: seq<Token>)
    requires |ts| >= 2 && (ts[0] == Fixed(REGEXP) || ts[0] == Fixed(NOT_REGEXP)) && ts[1].Str?
    ensures ts == Suffix(Regex(x, ts[0] == Fixed(NOT_REGEXP), ts[1].text)) + ts[2..]
  {
    assert ts == [ts[0], ts[1]] + ts[2..];
  }

  /** O is what follows the words `IN` or `NOT IN`. */
  lemma InRead(x: Expr, neg: bool, list: seq<Expr>, ts: seq<Token>, O: seq<Token>, R: seq<Token>)
    requires neg ==> |ts| >= 2 && ts[0] == Fixed(NOT) && ts[1] == Fixed(IN) && ts[2..] == O
    requires !neg ==> |ts| >= 1 && ts[0] == Fixed(IN) && ts[1..] == O
    requires StartsWith(O, LPAREN) && O[1..] == PrintList(list) + R && StartsWith(R, RPAREN)
    ensures ts == Suffix(In(x, neg, list)) + R[1..]
  {
    S.HeadTail(O);
    S.HeadTail(R);
    InSuffixShape(x, neg, list, R[1..]);
    if neg {
      assert ts == [ts[0], ts[1]] + ts[2..];
      assert Suffix(In(x, neg, list)) + R[1..] == [Fixed(NOT), Fixed(IN)] + O;
    } else {
      S.HeadTail(ts);
      S.HeadTail(Suffix(In(x, neg, list)) + R[1..]);
    }
  }

  lemma BetweenRead(x: Expr, lo: Expr, hi: Expr, ts: seq<Token>, R: seq<Token>, R': seq<Token>)
    requires |ts| >= 1 && ts[0] == Fixed(BETWEEN) && ts[1..] == Print(lo) + R
    requires |R| >= 1 && R[0] == Op(P.AndWord) && R[1..] == Print(hi) + R'
    ensures ts == Suffix(Between(x, lo, hi)) + R'
  {
    S.HeadTail(ts);
    S.HeadTail(R);
    BetweenSuffixShape(x, lo, hi, R');
    S.HeadTail(Suffix(Between(x, lo, hi)) + R');
  }

  lemma ListRead(e: Expr, es: seq<Expr>, ts: seq<Token>, R: seq<Token>, R': seq<Token>)
    requires |es| >= 1 && ts == Print(e) + R && StartsWith(R, COMMA) && R[1..] == PrintList(es) + R'
    ensures ts == PrintList([e] + es) + R'
  {
    S.HeadTail(R);
    var list := [e] + es;
    assert list[0] == e && list[1..] == es;
    if |es| == 1 {
      assert PrintList(list) == Print(e) + ([Fixed(COMMA)] + Print(es[0]));
    }
    ListShape(list, R');
  }

  // ---------------------------------------------------------------------
  // Facts about single tokens

  /** A closing bracket or a comma ends every expression before it. */
  lemma PunctuationFollows(w: Word, T: seq<Token>, k: int)
    requires w == RPAREN || w == COMMA
    ensures Follows([Fixed(w)] + T, k)
  {
  }

  /** The `AND` of a BETWEEN ends its lower bound. */
  lemma AndFollows(T: seq<Token>, k: int)
    requires k > P.Prec(P.And)
    ensures Follows([Op(P.AndWord)] + T, k)
  {
    assert InfixPrec(Op(P.AndWord)) == Some(P.Prec(P.And));
  }

  lemma ComparisonWordTokens()
    ensures InfixPrec(Fixed(IN)) == Some(ComparisonPrec)
    ensures InfixPrec(Fixed(NOT)) == Some(ComparisonPrec)
    ensures InfixPrec(Fixed(LIKE)) == Some(ComparisonPrec)
    ensures InfixPrec(Fixed(NOT_LIKE)) == Some(ComparisonPrec)
    ensures InfixPrec(Fixed(REGEXP)) == Some(ComparisonPrec)
    ensures InfixPrec(Fixed(NOT_REGEXP)) == Some(ComparisonPrec)
    ensures InfixPrec(Fixed(BETWEEN)) == Some(ComparisonPrec)
  {
  }

  /** The `AND` that closes the lower bound of BETWEEN is the logical
      operator, at the AND level. */
  lemma AndWordToken()
    ensures InfixPrec(Op(P.AndWord)) == Some(P.Prec(P.And))
  {
  }

  /** The tokens that end or separate expressions continue none. */
  lemma PunctuationTokens()
    ensures InfixPrec(Fixed(RPAREN)) == None && InfixPrec(Fixed(COMMA)) == None
  {
  }

  lemma UnitToken(u: IntervalUnit)
    ensures InfixPrec(Fixed(UnitWord(u))) == None
    ensures UnitOfToken(Fixed(UnitWord(u))) == Some(u)
  {
  }

  lemma LiteralTokenRoundTrip(v: LiteralValue)
    ensures LiteralOfToken(LiteralToken(v)) == Some(v)
    ensures LiteralToken(v) != Fixed(LPAREN) && LiteralToken(v) != Fixed(NOT)
    ensures LiteralToken(v) != Fixed(INTERVAL)
  {
  }

  /** Stops and Follows allow more as k grows. */
  lemma FollowsWeaken(ts: seq<Token>, j: int, k: int)
    requires j <= k
    ensures Stops(ts, j) ==> Stops(ts, k)
    ensures Follows(ts, j) ==> Follows(ts, k)
  {
  }
}
