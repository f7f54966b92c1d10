/** The expression rules of the grammar: `_expression` and its alternatives,
    with the `prec.left` levels of the `PREC` table resolving how operators
    group. The parser is a precedence-climbing reading of those rules over
    tokens; well-formedness says which trees are the ones it yields. */
module Expressions {
  import opened Wrappers
  import opened Tokens
  import P = Precedence
  import C = Combinators

  /** The alternatives of `_literal`, each carrying the lexeme it was read from. */
  datatype LiteralValue =
    | StringValue(text: string)
    | IntegerValue(text: string)
    | HexValue(text: string)
    | BitValue(text: string)
    | FloatValue(text: string)
    | TrueValue
    | FalseValue
    | NullValue

  /** `interval_unit`. */
  datatype IntervalUnit =
    | Microsecond | Second | Minute | Hour | Day | Week | Month | Quarter | Year

  datatype Expr =
    | Parenthesized(inner: Expr)
    | Literal(literal: LiteralValue)
    | Call(func: Identifier, arguments: seq<Expr>)
    | Field(table: Option<Identifier>, column: Identifier)
    | Not(operand: Expr)
    | Interval(amount: Expr, unit: IntervalUnit)
    | Binary(left: Expr, operator: P.BinaryOperator, right: Expr)
    | In(value: Expr, negated: bool, list: seq<Expr>)
    | Like(value: Expr, negated: bool, pattern: string)
    | Regex(value: Expr, negated: bool, pattern: string)
    | Between(value: Expr, low: Expr, high: Expr)

  /** The forms that begin with another expression. */
  predicate IsCompound(e: Expr) {
    e.Binary? || e.In? || e.Like? || e.Regex? || e.Between?
  }

  function Min(a: int, b: int): int { if a <= b then a else b }

  // ---------------------------------------------------------------------
  // Tokens of the expression rules

  function UnitWord(u: IntervalUnit): Word {
    match u
    case Microsecond => MICROSECOND
    case Second => SECOND
    case Minute => MINUTE
    case Hour => HOUR
    case Day => DAY
    case Week => WEEK
    case Month => MONTH
    case Quarter => QUARTER
    case Year => YEAR
  }

  function UnitOfToken(t: Token): (r: Option<IntervalUnit>)
    ensures r.Some? ==> t == Fixed(UnitWord(r.value))
  {
    if !t.Fixed? then None
    else match t.word
      case MICROSECOND => Some(Microsecond)
      case SECOND => Some(Second)
      case MINUTE => Some(Minute)
      case HOUR => Some(Hour)
      case DAY => Some(Day)
      case WEEK => Some(Week)
      case MONTH => Some(Month)
      case QUARTER => Some(Quarter)
      case YEAR => Some(Year)
      case _ => None
  }

  function LiteralToken(v: LiteralValue): Token {
    match v
    case StringValue(s) => Str(s)
    case IntegerValue(s) => Integer(s)
    case HexValue(s) => Hex(s)
    case BitValue(s) => Bit(s)
    case FloatValue(s) => Float(s)
    case TrueValue => Fixed(TRUE)
    case FalseValue => Fixed(FALSE)
    case NullValue => Fixed(NULL)
  }

  function LiteralOfToken(t: Token): (r: Option<LiteralValue>)
    ensures r.Some? ==> LiteralToken(r.value) == t
  {
    if t.Str? then Some(StringValue(t.text))
    else if t.Integer? then Some(IntegerValue(t.text))
    else if t.Hex? then Some(HexValue(t.text))
    else if t.Bit? then Some(BitValue(t.text))
    else if t.Float? then Some(FloatValue(t.text))
    else if t == Fixed(TRUE) then Some(TrueValue)
    else if t == Fixed(FALSE) then Some(FalseValue)
    else if t == Fixed(NULL) then Some(NullValue)
    else None
  }

  /** The level at which NOT, IN, LIKE, REGEXP and BETWEEN are declared. */
  const ComparisonPrec: int := P.Prec(P.Comparison)
  /** The operand of NOT holds only operators binding tighter than NOT. */
  const NotOperandMin: int := P.Prec(P.Not) + 1
  /** The operands of the lower bound of BETWEEN hold only operators above
      AND. Between them the lower bound may have `&&`, which is at the AND
      level and groups left before the word `AND` is read; the first word
      `AND` belongs to the BETWEEN. */
  const BetweenLowMin: int := P.Prec(P.And) + 1
  /** BETWEEN is left-associative at the comparison level, so its upper bound
      holds only operators binding tighter than comparison. */
  const BetweenHighMin: int := P.Prec(P.Comparison) + 1
  /** Above every level an operator can follow an expression at. */
  const Closed: int := 15

  /** The string tokens other than the binary operators that continue an
      expression, all at the comparison level: `NOT` begins `NOT IN`. */
  predicate IsComparisonWord(w: Word) {
    w == IN || w == NOT || w == LIKE || w == NOT_LIKE || w == REGEXP || w == NOT_REGEXP || w == BETWEEN
  }

  /** The level of a token that continues an expression after it. */
  function InfixPrec(t: Token): (r: Option<int>)
    ensures r.Some? ==> P.Prec(P.Or) <= r.value <= P.Prec(P.Multiplication)
  {
    match t
    case Op(op) => P.OperatorPrecRange(op); Some(P.OperatorPrec(op))
    case Fixed(w) => if IsComparisonWord(w) then Some(ComparisonPrec) else None
    case _ => None
  }

  // ---------------------------------------------------------------------
  // Printing

  function Print(e: Expr): seq<Token> {
    match e
    case Parenthesized(x) => [Fixed(LPAREN)] + (Print(x) + [Fixed(RPAREN)])
    case Literal(v) => [LiteralToken(v)]
    case Call(f, args) => PrintIdentifier(f) + ([Fixed(LPAREN)] + (PrintList(args) + [Fixed(RPAREN)]))
    case Field(None, c) => PrintIdentifier(c)
    case Field(Some(t), c) => PrintIdentifier(t) + ([Fixed(DOT)] + PrintIdentifier(c))
    case Not(x) => [Fixed(NOT)] + Print(x)
    case Interval(x, u) => [Fixed(INTERVAL)] + (Print(x) + [Fixed(UnitWord(u))])
    case Binary(l, op, r) => Print(l) + ([Op(op)] + Print(r))
    case In(x, neg, list) =>
      Print(x) + ((if neg then [Fixed(NOT)] else []) + ([Fixed(IN)] + ([Fixed(LPAREN)] + (PrintList(list) + [Fixed(RPAREN)]))))
    case Like(x, neg, pat) => Print(x) + [Fixed(if neg then NOT_LIKE else LIKE), Str(pat)]
    case Regex(x, neg, pat) => Print(x) + [Fixed(if neg then NOT_REGEXP else REGEXP), Str(pat)]
    case Between(x, lo, hi) => Print(x) + ([Fixed(BETWEEN)] + (Print(lo) + ([Op(P.AndWord)] + Print(hi))))
  }

  /** A list of expressions with a comma between each two. */
  function PrintList(es: seq<Expr>): seq<Token> {
    if |es| == 0 then []
    else if |es| == 1 then Print(es[0])
    else Print(es[0]) + ([Fixed(COMMA)] + PrintList(es[1..]))
  }

  // ---------------------------------------------------------------------
  // Parsing
  //
  // Each function reads one rule; `decreases |ts|, k` orders the rules that
  // read the same tokens first.

  /** An expression whose operators, outside brackets, are all at level m or
      tighter. */
  function ParseExpression(ts: seq<Token>, m: int): (r: Option<(Expr, seq<Token>)>)
    ensures r.Some? ==> |r.value.1| < |ts|
    decreases |ts|, 2
  {
    match ParsePrimary(ts)
    case None => None
    case Some((lhs, rest)) => ParseOperators(lhs, rest, m)
  }

  /** The alternatives of `_expression` that do not begin with another
      expression. */
  function ParsePrimary(ts: seq<Token>): (r: Option<(Expr, seq<Token>)>)
    ensures r.Some? ==> |r.value.1| < |ts|
    decreases |ts|, 1
  {
    if |ts| == 0 then None
    else if ts[0] == Fixed(LPAREN) then ParseParenthesized(ts[1..])
    else if LiteralOfToken(ts[0]).Some? then Some((Literal(LiteralOfToken(ts[0]).value), ts[1..]))
    else if ts[0] == Fixed(NOT) then ParseNot(ts[1..])
    else if ts[0] == Fixed(INTERVAL) then ParseInterval(ts[1..])
    else ParseNamed(ts)
  }

  /** `parenthesized_expression`, after its `(`. */
  function ParseParenthesized(ts: seq<Token>): (r: Option<(Expr, seq<Token>)>)
    ensures r.Some? ==> |r.value.1| < |ts|
    decreases |ts|, 3
  {
    match ParseExpression(ts, 0)
    case None => None
    case Some((x, rest)) =>
      if StartsWith(rest, RPAREN) then Some((Parenthesized(x), rest[1..])) else None
  }

  /** `unary_expression`, after its `NOT`: the operand holds only operators
      binding tighter than NOT. */
  function ParseNot(ts: seq<Token>): (r: Option<(Expr, seq<Token>)>)
    ensures r.Some? ==> |r.value.1| < |ts|
    decreases |ts|, 3
  {
    match ParseExpression(ts, NotOperandMin)
    case None => None
    case Some((x, rest)) => Some((Not(x), rest))
  }

  /** `interval_expression`, after its `INTERVAL`. */
  function ParseInterval(ts: seq<Token>): (r: Option<(Expr, seq<Token>)>)
    ensures r.Some? ==> |r.value.1| < |ts|
    decreases |ts|, 3
  {
    match ParseExpression(ts, 0)
    case None => None
    case Some((x, rest)) =>
      if |rest| > 0 && UnitOfToken(rest[0]).Some? then
        Some((Interval(x, UnitOfToken(rest[0]).value), rest[1..]))
      else None
  }

  /** The forms that begin with an identifier: `call`, and `_field`
      with or without its table. */
  function ParseNamed(ts: seq<Token>): (r: Option<(Expr, seq<Token>)>)
    ensures r.Some? ==> |r.value.1| < |ts|
    decreases |ts|, 0
  {
    match ParseIdentifier(ts)
    case None => None
    case Some((id, rest)) =>
      if StartsWith(rest, LPAREN) then
        match ParseArguments(rest[1..])
        case None => None
        case Some((args, rest')) =>
          if StartsWith(rest', RPAREN) then Some((Call(id, args), rest'[1..])) else None
      else if StartsWith(rest, DOT) then
        match ParseIdentifier(rest[1..])
        case None => None
        case Some((column, rest')) => Some((Field(Some(id), column), rest'))
      else Some((Field(None, id), rest))
  }

  /** The precedence-climbing loop: while the next token continues an
      expression at level m or tighter, it is applied to what was read so
      far. `NOT` in this position must begin `NOT IN`. */
  function ParseOperators(lhs: Expr, ts: seq<Token>, m: int): (r: Option<(Expr, seq<Token>)>)
    ensures r.Some? ==> |r.value.1| <= |ts|
    decreases |ts|, 0
  {
    if |ts| == 0 || InfixPrec(ts[0]).None? || InfixPrec(ts[0]).value < m then Some((lhs, ts))
    else if ts[0].Op? then ParseBinary(lhs, ts[0].op, ts[1..], m)
    else if ts[0] == Fixed(BETWEEN) then ParseBetween(lhs, ts[1..], m)
    else if ts[0] == Fixed(LIKE) || ts[0] == Fixed(NOT_LIKE) then
      if |ts| >= 2 && ts[1].Str? then ParseOperators(Like(lhs, ts[0] == Fixed(NOT_LIKE), ts[1].text), ts[2..], m)
      else None
    else if ts[0] == Fixed(REGEXP) || ts[0] == Fixed(NOT_REGEXP) then
      if |ts| >= 2 && ts[1].Str? then ParseOperators(Regex(lhs, ts[0] == Fixed(NOT_REGEXP), ts[1].text), ts[2..], m)
      else None
    else if ts[0] == Fixed(IN) then ParseIn(lhs, false, ts[1..], m)
    else if |ts| >= 2 && ts[1] == Fixed(IN) then ParseIn(lhs, true, ts[2..], m)
    else None
  }

  /** `binary_expression`, after its operator: the right operand is read one
      level tighter, which makes every level left-associative. */
  function ParseBinary(lhs: Expr, op: P.BinaryOperator, ts: seq<Token>, m: int): (r: Option<(Expr, seq<Token>)>)
    ensures r.Some? ==> |r.value.1| < |ts|
    decreases |ts|, 3
  {
    match ParseExpression(ts, P.OperatorPrec(op) + 1)
    case None => None
    case Some((rhs, rest)) => ParseOperators(Binary(lhs, op, rhs), rest, m)
  }

  /** `between_expression`, after its `BETWEEN`. */
  function ParseBetween(lhs: Expr, ts: seq<Token>, m: int): (r: Option<(Expr, seq<Token>)>)
    ensures r.Some? ==> |r.value.1| < |ts|
    decreases |ts|, 3
  {
    match ParseExpression(ts, BetweenLowMin)
    case None => None
    case Some((lo, rest)) => ParseBetweenLow(lhs, lo, rest, m)
  }

  /** The lower bound of `between_expression`, lo so far: each `&&` takes
      one more operand above AND; the word `AND` ends the lower bound. */
  function ParseBetweenLow(lhs: Expr, lo: Expr, ts: seq<Token>, m: int): (r: Option<(Expr, seq<Token>)>)
    ensures r.Some? ==> |r.value.1| < |ts|
    decreases |ts|, 3
  {
    if |ts| > 0 && ts[0] == Op(P.AmpAmp) then
      match ParseExpression(ts[1..], BetweenLowMin)
      case None => None
      case Some((rhs, rest)) => ParseBetweenLow(lhs, Binary(lo, P.AmpAmp, rhs), rest, m)
    else if |ts| > 0 && ts[0] == Op(P.AndWord) then ParseBetweenHigh(lhs, lo, ts[1..], m)
    else None
  }

  /** `between_expression`, after its `AND`. */
  function ParseBetweenHigh(lhs: Expr, lo: Expr, ts: seq<Token>, m: int): (r: Option<(Expr, seq<Token>)>)
    ensures r.Some? ==> |r.value.1| < |ts|
    decreases |ts|, 3
  {
    match ParseExpression(ts, BetweenHighMin)
    case None => None
    case Some((hi, rest)) => ParseOperators(Between(lhs, lo, hi), rest, m)
  }

  /** `in_expression`, after its `IN` or `NOT IN`. */
  function ParseIn(lhs: Expr, negated: bool, ts: seq<Token>, m: int): (r: Option<(Expr, seq<Token>)>)
    ensures r.Some? ==> |r.value.1| < |ts|
    decreases |ts|, 3
  {
    if StartsWith(ts, LPAREN) then
      match ParseExpressionList1(ts[1..])
      case None => None
      case Some((list, rest)) =>
        if StartsWith(rest, RPAREN) then ParseOperators(In(lhs, negated, list), rest[1..], m)
        else None
    else None
  }

  /** `commaSeparated1($._expression)`. */
  function ParseExpressionList1(ts: seq<Token>): (r: Option<(seq<Expr>, seq<Token>)>)
    ensures r.Some? ==> |r.value.1| < |ts|
    decreases |ts|, 3
  {
    match ParseExpression(ts, 0)
    case None => None
    case Some((e, rest)) =>
      if StartsWith(rest, COMMA) then
        match ParseExpressionList1(rest[1..])
        case None => None
        case Some((es, rest')) => Some(([e] + es, rest'))
      else Some(([e], rest))
  }

  /** `commaSeparated($._expression)`, the arguments of a call. */
  function ParseArguments(ts: seq<Token>): (r: Option<(seq<Expr>, seq<Token>)>)
    ensures r.Some? ==> |r.value.1| <= |ts|
    decreases |ts|, 4
  {
    match ParseExpression(ts, 0)
    case None => Some(([], ts))
    case Some(_) => ParseExpressionList1(ts)
  }
}
