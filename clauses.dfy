/** The rules a select is assembled from: `_alias`, `table_name`, `column`,
    `select_expression`, the optional clauses after its table references
    and `join_clause`. Each parser's contract says that what it reads is the
    printing of what it yields; a `*Complete` lemma says that a printing, with
    a follower the rule cannot continue into, is read back whole. */
module Clauses {
  import opened Wrappers
  import opened Tokens
  import P = Precedence
  import C = Combinators
  import opened Expressions
  import opened ExpressionTrees
  import ExpressionComplete
  import opened ExpressionBinding
  import opened StatementSyntax

  /** ts begins with the keyword k. */
  predicate At(ts: seq<Token>, k: Keyword) {
    |ts| > 0 && ts[0] == K(k)
  }

  // ---------------------------------------------------------------------
  // Aliases and names

  function ParseAlias(ts: seq<Token>): (r: Option<(Alias, seq<Token>)>)
    ensures r.Some? ==> ts == PutAlias(r.value.0, r.value.1) && |r.value.1| < |ts|
  {
    if At(ts, AS) then
      match ParseIdentifier(ts[1..])
      case None => None
      case Some((id, rest)) => Some((Alias(true, id), rest))
    else
      match ParseIdentifier(ts)
      case None => None
      case Some((id, rest)) => Some((Alias(false, id), rest))
  }

  lemma AliasComplete(a: Alias, T: seq<Token>)
    ensures ParseAlias(PutAlias(a, T)) == Some((a, T))
  {
    IdentifierRoundTrip(a.name, T);
    if a.withAs {
      assert PutAlias(a, T)[1..] == PrintIdentifier(a.name) + T;
    }
  }

  function ParseTableName(ts: seq<Token>): (r: Option<(TableName, seq<Token>)>)
    ensures r.Some? ==> ts == PutTableName(r.value.0, r.value.1) && |r.value.1| < |ts|
  {
    match ParseIdentifier(ts)
    case None => None
    case Some((first, rest)) =>
      if StartsWith(rest, DOT) then
        match ParseIdentifier(rest[1..])
        case None => None
        case Some((second, rest')) => Some((TableName(Some(first), second), rest'))
      else Some((TableName(None, first), rest))
  }

  /** A table name is read back whole unless a bare name is followed by a
      `.`, which would make it the database of a qualified one. */
  lemma TableNameComplete(t: TableName, T: seq<Token>)
    requires t.database.None? ==> !StartsWith(T, DOT)
    ensures ParseTableName(PutTableName(t, T)) == Some((t, T))
  {
    if t.database.Some? {
      var R := [Fixed(DOT)] + PutIdentifier(t.name, T);
      IdentifierRoundTrip(t.database.value, R);
      IdentifierRoundTrip(t.name, T);
      assert R[1..] == PutIdentifier(t.name, T);
    } else {
      IdentifierRoundTrip(t.name, T);
    }
  }

  lemma IdentifierConsumes()
    ensures C.Consumes(ParseIdentifier)
  {
    forall ts | ParseIdentifier(ts).Some?
      ensures |ParseIdentifier(ts).value.1| < |ts|
    {
      var (id, rest) := ParseIdentifier(ts).value;
      assert ts == PrintIdentifier(id) + rest;
    }
  }

  lemma IdentifierReadsBack(id: Identifier, follow: seq<Token> -> bool)
    ensures C.ReadsBack(ParseIdentifier, PutIdentifier, id, follow)
  {
    forall T | StartsWith(T, COMMA) || follow(T)
      ensures ParseIdentifier(PutIdentifier(id, T)) == Some((id, T))
    {
      IdentifierRoundTrip(id, T);
    }
  }

  // ---------------------------------------------------------------------
  // What follows decides nothing

  /** A follower of a column continues neither its expression nor an
      alias, and begins no table name. */
  lemma BoundaryEnds(T: seq<Token>)
    requires Boundary(T)
    ensures Follows(T, 0) && !StartsWith(T, DOT) && !StartsWith(T, LPAREN)
    ensures ParseAlias(T).None? && ParseIdentifier(T).None?
  {
  }

  /** The printing of an alias does not continue an expression. */
  lemma AliasFollows(a: Alias, T: seq<Token>)
    ensures Follows(PutAlias(a, T), 0)
  {
  }

  /** The tokens of the optional clauses and the end of a statement are
      followers of a column. */
  lemma RankedBoundary(T: seq<Token>)
    requires ClauseRank(T) >= 1
    ensures Boundary(T)
    ensures !At(T, ASC) && !At(T, DESC) && !At(T, WITH_ROLLUP) && !At(T, OFFSET)
    ensures !At(T, ON) && !At(T, USING) && !StartsWith(T, COMMA)
  {
  }

  // ---------------------------------------------------------------------
  // Columns

  function ParseColumn(ts: seq<Token>): (r: Option<(Column, seq<Token>)>)
    ensures r.Some? ==> ts == PutColumn(r.value.0, r.value.1) && ValidColumn(r.value.0) && |r.value.1| < |ts|
  {
    match ExpressionItem(ts)
    case None => None
    case Some((e, rest)) =>
      AliasConsumes();
      var (alias, rest') := C.Optional(ParseAlias, rest);
      Some((Column(e, alias), rest'))
  }

  lemma AliasConsumes()
    ensures C.Consumes(ParseAlias)
  {
  }

  /** A column is read back whole before any of its followers. */
  lemma ColumnComplete(c: Column, T: seq<Token>)
    requires ValidColumn(c) && Boundary(T)
    ensures ParseColumn(PutColumn(c, T)) == Some((c, T))
  {
    var R := C.PutOptional(PutAlias, c.alias, T);
    BoundaryEnds(T);
    if c.alias.Some? {
      AliasFollows(c.alias.value, T);
      AliasComplete(c.alias.value, T);
    }
    ExpressionItemComplete(c.value, R);
    AliasConsumes();
    C.OptionalComplete(ParseAlias, PutAlias, c.alias, T);
  }

  lemma ColumnReadsBack(c: Column)
    requires ValidColumn(c)
    ensures C.ReadsBack(ParseColumn, PutColumn, c, Boundary)
  {
    forall T | StartsWith(T, COMMA) || Boundary(T)
      ensures ParseColumn(PutColumn(c, T)) == Some((c, T))
    {
      ColumnComplete(c, T);
    }
  }

  // ---------------------------------------------------------------------
  // select_expression

  /** The tokens begin with `identifier . *`. */
  predicate WildcardAt(ts: seq<Token>) {
    var id := ParseIdentifier(ts);
    id.Some? && |id.value.1| >= 2 && id.value.1[0] == Fixed(DOT) && id.value.1[1] == Op(P.Star)
  }

  function ParseSelectItem(ts: seq<Token>): (r: Option<(SelectItem, seq<Token>)>)
    ensures r.Some? ==> ts == PutSelectItem(r.value.0, r.value.1) && ValidSelectItem(r.value.0) && |r.value.1| < |ts|
  {
    if WildcardAt(ts) then
      var (t, rest) := ParseIdentifier(ts).value;
      Some((TableWildcard(t), rest[2..]))
    else
      match ParseColumn(ts)
      case None => None
      case Some((c, rest)) => Some((ColumnItem(c), rest))
  }

  /** No admitted expression begins with `identifier . *`: after the first
      identifier of its printing comes a `(`, the column of a qualified
      field, an operator, or its follower. */
  lemma {:induction false} NoWildcardInExpression(e: Expr, T: seq<Token>)
    requires WF(e) && !StartsWith(T, DOT)
    ensures !WildcardAt(Print(e) + T)
    decreases Size(e)
  {
    if IsCompound(e) {
      CompoundPrint(e, T);
      ExpressionComplete.SuffixFollows(e, T);
      NoWildcardInExpression(LeftOperand(e), Suffix(e) + T);
    } else if e.Field? {
      if e.table.Some? {
        var R := [Fixed(DOT)] + (PrintIdentifier(e.column) + T);
        assert Print(e) + T == PrintIdentifier(e.table.value) + R;
        IdentifierRoundTrip(e.table.value, R);
      } else {
        IdentifierRoundTrip(e.column, T);
      }
    } else if e.Call? {
      var R := [Fixed(LPAREN)] + (PrintList(e.arguments) + [Fixed(RPAREN)]);
      assert Print(e) + T == PrintIdentifier(e.func) + (R + T);
      IdentifierRoundTrip(e.func, R + T);
    } else if e.Literal? {
      LiteralTokenRoundTrip(e.literal);
    }
  }

  /** No printing of an admitted expression begins with an operator's
      token, so none begins with the `*` of `select_expression`. */
  lemma {:induction false} ExpressionStartsWithNoOperator(e: Expr, T: seq<Token>)
    requires WF(e)
    ensures |Print(e) + T| > 0 && !(Print(e) + T)[0].Op?
    decreases Size(e)
  {
    if IsCompound(e) {
      CompoundPrint(e, T);
      ExpressionStartsWithNoOperator(LeftOperand(e), Suffix(e) + T);
    } else if e.Literal? {
      LiteralTokenRoundTrip(e.literal);
    } else if e.Call? || e.Field? {
      var id := if e.Call? then e.func else if e.table.Some? then e.table.value else e.column;
      assert (Print(e) + T)[0] == PrintIdentifier(id)[0];
    }
  }

  lemma SelectItemComplete(i: SelectItem, T: seq<Token>)
    requires ValidSelectItem(i) && Boundary(T)
    ensures ParseSelectItem(PutSelectItem(i, T)) == Some((i, T))
  {
    match i
    case TableWildcard(t) =>
      var R := [Fixed(DOT), Op(P.Star)] + T;
      IdentifierRoundTrip(t, R);
      assert R[2..] == T;
    case ColumnItem(c) =>
      BoundaryEnds(T);
      if c.alias.Some? {
        AliasFollows(c.alias.value, T);
      }
      NoWildcardInExpression(c.value, C.PutOptional(PutAlias, c.alias, T));
      ColumnComplete(c, T);
  }

  lemma SelectItemLists()
    ensures C.Consumes(ParseSelectItem)
    ensures C.SoundFor(ParseSelectItem, PutSelectItem, ValidSelectItem)
  {
  }

  function ParseSelectExpression(ts: seq<Token>): (r: Option<(SelectExpression, seq<Token>)>)
    ensures r.Some? ==> ts == PutSelectExpression(r.value.0, r.value.1) && ValidSelectExpression(r.value.0)
    ensures r.Some? ==> |r.value.1| < |ts|
  {
    if |ts| > 0 && ts[0] == Op(P.Star) then Some((AllColumns, ts[1..]))
    else
      SelectItemLists();
      C.CommaSeparated1Sound(ParseSelectItem, PutSelectItem, ValidSelectItem, ts);
      match C.CommaSeparated1(ParseSelectItem, ts)
      case None => None
      case Some((items, rest)) => Some((Items(items), rest))
  }

  lemma SelectExpressionComplete(s: SelectExpression, T: seq<Token>)
    requires ValidSelectExpression(s) && Boundary(T) && !StartsWith(T, COMMA)
    ensures ParseSelectExpression(PutSelectExpression(s, T)) == Some((s, T))
  {
    if s.Items? {
      var items := s.items;
      forall k | 0 <= k < |items|
        ensures C.ReadsBack(ParseSelectItem, PutSelectItem, items[k], Boundary)
      {
        forall R | StartsWith(R, COMMA) || Boundary(R)
          ensures ParseSelectItem(PutSelectItem(items[k], R)) == Some((items[k], R))
        {
          SelectItemComplete(items[k], R);
        }
      }
      SelectItemLists();
      C.CommaSeparated1Complete(ParseSelectItem, PutSelectItem, items, Boundary, T);
      FirstItemStart(items, T);
    }
  }

  /** A printed list of items does not begin with the `*` that stands for
      all columns. */
  lemma FirstItemStart(items: seq<SelectItem>, T: seq<Token>)
    requires |items| >= 1 && ValidSelectItem(items[0])
    ensures var ts := C.Separated(PutSelectItem, items, T); |ts| > 0 && ts[0] != Op(P.Star)
  {
    var R := if |items| == 1 then T else [Fixed(COMMA)] + C.Separated(PutSelectItem, items[1..], T);
    assert C.Separated(PutSelectItem, items, T) == PutSelectItem(items[0], R);
    match items[0]
    case TableWildcard(t) =>
      assert PutSelectItem(items[0], R)[0] == PrintIdentifier(t)[0];
    case ColumnItem(c) =>
      ExpressionStartsWithNoOperator(c.value, C.PutOptional(PutAlias, c.alias, R));
  }

  // ---------------------------------------------------------------------
  // WHERE, GROUP BY, HAVING, ORDER BY, LIMIT

  function ParseWhere(ts: seq<Token>): (r: Option<(Expr, seq<Token>)>)
    ensures r.Some? ==> ts == PutWhere(r.value.0, r.value.1) && WF(r.value.0) && |r.value.1| < |ts|
  {
    if At(ts, WHERE) then ExpressionItem(ts[1..]) else None
  }

  function ParseHaving(ts: seq<Token>): (r: Option<(Expr, seq<Token>)>)
    ensures r.Some? ==> ts == PutHaving(r.value.0, r.value.1) && WF(r.value.0) && |r.value.1| < |ts|
  {
    if At(ts, HAVING) then ExpressionItem(ts[1..]) else None
  }

  lemma WhereComplete(e: Expr, T: seq<Token>)
    requires WF(e) && Follows(T, 0)
    ensures ParseWhere(PutWhere(e, T)) == Some((e, T))
    ensures ParseHaving(PutHaving(e, T)) == Some((e, T))
  {
    ExpressionItemComplete(e, T);
    assert PutWhere(e, T)[1..] == Print(e) + T;
    assert PutHaving(e, T)[1..] == Print(e) + T;
  }

  lemma ColumnLists()
    ensures C.Consumes(ParseColumn) && C.SoundFor(ParseColumn, PutColumn, ValidColumn)
  {
  }

  function ParseGroupBy(ts: seq<Token>): (r: Option<(GroupBy, seq<Token>)>)
    ensures r.Some? ==> ts == PutGroupBy(r.value.0, r.value.1) && ValidGroupBy(r.value.0) && |r.value.1| < |ts|
  {
    if !At(ts, GROUP_BY) then None
    else
      ColumnLists();
      C.CommaSeparated1Sound(ParseColumn, PutColumn, ValidColumn, ts[1..]);
      match C.CommaSeparated1(ParseColumn, ts[1..])
      case None => None
      case Some((columns, rest)) =>
        if At(rest, WITH_ROLLUP) then
          assert rest == [K(WITH_ROLLUP)] + rest[1..];
          Some((GroupBy(columns, true), rest[1..]))
        else Some((GroupBy(columns, false), rest))
  }

  /** A list of columns is read back whole before a follower that is no
      comma. */
  lemma ColumnsComplete(columns: seq<Column>, T: seq<Token>)
    requires |columns| >= 1 && (forall k | 0 <= k < |columns| :: ValidColumn(columns[k]))
    requires Boundary(T) && !StartsWith(T, COMMA)
    ensures C.CommaSeparated1(ParseColumn, C.Separated(PutColumn, columns, T)) == Some((columns, T))
  {
    forall k | 0 <= k < |columns|
      ensures C.ReadsBack(ParseColumn, PutColumn, columns[k], Boundary)
    {
      ColumnReadsBack(columns[k]);
    }
    ColumnLists();
    C.CommaSeparated1Complete(ParseColumn, PutColumn, columns, Boundary, T);
  }

  /** A GROUP BY is read back whole; without `WITH ROLLUP` its follower must
      not supply one. */
  lemma GroupByComplete(g: GroupBy, T: seq<Token>)
    requires ValidGroupBy(g)
    requires g.withRollup || (Boundary(T) && !StartsWith(T, COMMA) && !At(T, WITH_ROLLUP))
    ensures ParseGroupBy(PutGroupBy(g, T)) == Some((g, T))
  {
    var R := if g.withRollup then [K(WITH_ROLLUP)] + T else T;
    ColumnsComplete(g.columns, R);
    assert PutGroupBy(g, T)[1..] == C.Separated(PutColumn, g.columns, R);
    if g.withRollup {
      assert R[1..] == T;
    }
  }

  function ParseDirection(ts: seq<Token>): (r: Option<(Direction, seq<Token>)>)
    ensures r.Some? ==> ts == PutDirection(r.value.0, r.value.1) && |r.value.1| < |ts|
  {
    if At(ts, ASC) then Some((Ascending, ts[1..]))
    else if At(ts, DESC) then Some((Descending, ts[1..]))
    else None
  }

  function ParseOrderItem(ts: seq<Token>): (r: Option<(OrderItem, seq<Token>)>)
    ensures r.Some? ==> ts == PutOrderItem(r.value.0, r.value.1) && ValidOrderItem(r.value.0) && |r.value.1| < |ts|
  {
    match ParseColumn(ts)
    case None => None
    case Some((c, rest)) =>
      DirectionConsumes();
      var (d, rest') := C.Optional(ParseDirection, rest);
      Some((OrderItem(c, d), rest'))
  }

  lemma DirectionConsumes()
    ensures C.Consumes(ParseDirection)
  {
  }

  /** What may follow an item of ORDER BY: a follower of a column that
      gives it no direction. */
  predicate OrderFollower(ts: seq<Token>) {
    Boundary(ts) && !At(ts, ASC) && !At(ts, DESC)
  }

  lemma OrderItemComplete(o: OrderItem, T: seq<Token>)
    requires ValidOrderItem(o) && OrderFollower(T)
    ensures ParseOrderItem(PutOrderItem(o, T)) == Some((o, T))
  {
    var R := C.PutOptional(PutDirection, o.direction, T);
    ColumnComplete(o.column, R);
    DirectionConsumes();
    if o.direction.Some? {
      assert R[1..] == T;
    }
    C.OptionalComplete(ParseDirection, PutDirection, o.direction, T);
  }

  lemma OrderItemLists()
    ensures C.Consumes(ParseOrderItem) && C.SoundFor(ParseOrderItem, PutOrderItem, ValidOrderItem)
  {
  }

  function ParseOrderBy(ts: seq<Token>): (r: Option<(seq<OrderItem>, seq<Token>)>)
    ensures r.Some? ==> ts == PutOrderBy(r.value.0, r.value.1) && ValidOrderBy(r.value.0) && |r.value.1| < |ts|
  {
    if !At(ts, ORDER_BY) then None
    else
      OrderItemLists();
      C.CommaSeparated1Sound(ParseOrderItem, PutOrderItem, ValidOrderItem, ts[1..]);
      C.CommaSeparated1(ParseOrderItem, ts[1..])
  }

  lemma OrderByComplete(items: seq<OrderItem>, T: seq<Token>)
    requires ValidOrderBy(items) && OrderFollower(T) && !StartsWith(T, COMMA)
    ensures ParseOrderBy(PutOrderBy(items, T)) == Some((items, T))
  {
    forall k | 0 <= k < |items|
      ensures C.ReadsBack(ParseOrderItem, PutOrderItem, items[k], OrderFollower)
    {
      forall R | StartsWith(R, COMMA) || OrderFollower(R)
        ensures ParseOrderItem(PutOrderItem(items[k], R)) == Some((items[k], R))
      {
        OrderItemComplete(items[k], R);
      }
    }
    OrderItemLists();
    C.CommaSeparated1Complete(ParseOrderItem, PutOrderItem, items, OrderFollower, T);
    assert PutOrderBy(items, T)[1..] == C.Separated(PutOrderItem, items, T);
  }

  /** `limit_clause`: LIMIT and an integer. */
  function ParseLimit(ts: seq<Token>): (r: Option<(string, seq<Token>)>)
    ensures r.Some? ==> ts == PutLimit(r.value.0, r.value.1) && |r.value.1| < |ts|
  {
    if At(ts, LIMIT) && |ts| >= 2 && ts[1].Integer? then Some((ts[1].text, ts[2..])) else None
  }

  /** `offset_clause`: OFFSET and an integer. */
  function ParseOffset(ts: seq<Token>): (r: Option<(string, seq<Token>)>)
    ensures r.Some? ==> ts == PutOffset(r.value.0, r.value.1) && |r.value.1| < |ts|
  {
    if At(ts, OFFSET) && |ts| >= 2 && ts[1].Integer? then Some((ts[1].text, ts[2..])) else None
  }

  lemma LimitComplete(n: string, T: seq<Token>)
    ensures ParseLimit(PutLimit(n, T)) == Some((n, T))
    ensures ParseOffset(PutOffset(n, T)) == Some((n, T))
  {
    assert PutLimit(n, T)[2..] == T;
    assert PutOffset(n, T)[2..] == T;
  }

  lemma OffsetConsumes()
    ensures C.Consumes(ParseOffset)
  {
  }

  function ParseLimitOffset(ts: seq<Token>): (r: Option<(LimitOffset, seq<Token>)>)
    ensures r.Some? ==> ts == PutLimitOffset(r.value.0, r.value.1) && |r.value.1| < |ts|
  {
    match ParseLimit(ts)
    case None => None
    case Some((n, rest)) =>
      OffsetConsumes();
      var (offset, rest') := C.Optional(ParseOffset, rest);
      Some((LimitOffset(n, offset), rest'))
  }

  lemma LimitOffsetComplete(l: LimitOffset, T: seq<Token>)
    requires l.offset.None? ==> !At(T, OFFSET)
    ensures ParseLimitOffset(PutLimitOffset(l, T)) == Some((l, T))
  {
    var R := C.PutOptional(PutOffset, l.offset, T);
    LimitComplete(l.limit, R);
    if l.offset.Some? {
      LimitComplete(l.offset.value, T);
    }
    OffsetConsumes();
    C.OptionalComplete(ParseOffset, PutOffset, l.offset, T);
  }

  // ---------------------------------------------------------------------
  // The optional clauses of a select, in order

  /** Tokens of a rank do not begin a clause of a lower rank. */
  lemma RankExcludes(T: seq<Token>)
    ensures ClauseRank(T) >= 2 ==> !At(T, WHERE)
    ensures ClauseRank(T) >= 3 ==> !At(T, GROUP_BY)
    ensures ClauseRank(T) >= 4 ==> !At(T, HAVING)
    ensures ClauseRank(T) >= 5 ==> !At(T, ORDER_BY)
    ensures ClauseRank(T) >= 6 ==> !At(T, LIMIT)
  {
  }

  lemma ClauseParsersConsume()
    ensures C.Consumes(ParseWhere) && C.Consumes(ParseGroupBy) && C.Consumes(ParseHaving)
    ensures C.Consumes(ParseOrderBy) && C.Consumes(ParseLimitOffset)
  {
  }

  /** Each optional clause is read when its keyword comes next and skipped
      otherwise; none fails. */
  function ParseClauses(ts: seq<Token>): (r: (SelectClauses, seq<Token>))
    ensures ts == PutClauses(r.0, r.1) && ValidClauses(r.0) && |r.1| <= |ts|
  {
    ClauseParsersConsume();
    ClauseParsersSound();
    var (where, t1) := C.Optional(ParseWhere, ts);
    C.OptionalSound(ParseWhere, PutWhere, WF, ts);
    var (groupBy, t2) := C.Optional(ParseGroupBy, t1);
    C.OptionalSound(ParseGroupBy, PutGroupBy, ValidGroupBy, t1);
    var (having, t3) := C.Optional(ParseHaving, t2);
    C.OptionalSound(ParseHaving, PutHaving, WF, t2);
    var (orderBy, t4) := C.Optional(ParseOrderBy, t3);
    C.OptionalSound(ParseOrderBy, PutOrderBy, ValidOrderBy, t3);
    var (limit, t5) := C.Optional(ParseLimitOffset, t4);
    C.OptionalPrints(ParseLimitOffset, PutLimitOffset, t4);
    (SelectClauses(where, groupBy, having, orderBy, limit), t5)
  }

  lemma ClauseParsersSound()
    ensures C.SoundFor(ParseWhere, PutWhere, WF) && C.SoundFor(ParseGroupBy, PutGroupBy, ValidGroupBy)
    ensures C.SoundFor(ParseHaving, PutHaving, WF) && C.SoundFor(ParseOrderBy, PutOrderBy, ValidOrderBy)
    ensures C.Prints(ParseLimitOffset, PutLimitOffset)
  {
  }

  /** The rank of the tokens that begin with a clause keyword. */
  lemma KeywordRank(k: Keyword, T: seq<Token>)
    ensures k == WHERE ==> ClauseRank([K(k)] + T) == 1
    ensures k == GROUP_BY ==> ClauseRank([K(k)] + T) == 2
    ensures k == HAVING ==> ClauseRank([K(k)] + T) == 3
    ensures k == ORDER_BY ==> ClauseRank([K(k)] + T) == 4
    ensures k == LIMIT ==> ClauseRank([K(k)] + T) == 5
  {
  }

  lemma LimitOffsetConsumes()
    ensures C.Consumes(ParseLimitOffset)
  {
  }

  lemma OrderByConsumes()
    ensures C.Consumes(ParseOrderBy)
  {
  }

  lemma HavingConsumes()
    ensures C.Consumes(ParseHaving)
  {
  }

  lemma GroupByConsumes()
    ensures C.Consumes(ParseGroupBy)
  {
  }

  lemma WhereConsumes()
    ensures C.Consumes(ParseWhere)
  {
  }

  lemma LimitPart(l: Option<LimitOffset>, T: seq<Token>)
    requires StatementEnd(T)
    ensures C.Optional(ParseLimitOffset, C.PutOptional(PutLimitOffset, l, T)) == (l, T)
    ensures ClauseRank(C.PutOptional(PutLimitOffset, l, T)) >= 5
  {
    LimitOffsetConsumes();
    if l.Some? {
      LimitOffsetComplete(l.value, T);
      KeywordRank(LIMIT, [Integer(l.value.limit)] + C.PutOptional(PutOffset, l.value.offset, T));
    } else {
      RankExcludes(T);
    }
    C.OptionalComplete(ParseLimitOffset, PutLimitOffset, l, T);
  }

  lemma OrderPart(o: Option<seq<OrderItem>>, T: seq<Token>)
    requires ClauseRank(T) >= 5 && (o.Some? ==> ValidOrderBy(o.value))
    ensures C.Optional(ParseOrderBy, C.PutOptional(PutOrderBy, o, T)) == (o, T)
    ensures ClauseRank(C.PutOptional(PutOrderBy, o, T)) >= 4
  {
    OrderByConsumes();
    if o.Some? {
      OrderClauseRead(o.value, T);
    } else {
      RankExcludes(T);
    }
    C.OptionalComplete(ParseOrderBy, PutOrderBy, o, T);
  }

  lemma OrderClauseRead(items: seq<OrderItem>, T: seq<Token>)
    requires ClauseRank(T) >= 5 && ValidOrderBy(items)
    ensures ParseOrderBy(PutOrderBy(items, T)) == Some((items, T)) && ClauseRank(PutOrderBy(items, T)) == 4
  {
    RankedBoundary(T);
    OrderByComplete(items, T);
    KeywordRank(ORDER_BY, C.Separated(PutOrderItem, items, T));
  }

  lemma HavingPart(h: Option<Expr>, T: seq<Token>)
    requires ClauseRank(T) >= 4 && (h.Some? ==> WF(h.value))
    ensures C.Optional(ParseHaving, C.PutOptional(PutHaving, h, T)) == (h, T)
    ensures ClauseRank(C.PutOptional(PutHaving, h, T)) >= 3
  {
    HavingConsumes();
    if h.Some? {
      RankedBoundary(T);
      BoundaryEnds(T);
      WhereComplete(h.value, T);
      KeywordRank(HAVING, PutExpr(h.value, T));
    } else {
      RankExcludes(T);
    }
    C.OptionalComplete(ParseHaving, PutHaving, h, T);
  }

  lemma GroupPart(g: Option<GroupBy>, T: seq<Token>)
    requires ClauseRank(T) >= 3 && (g.Some? ==> ValidGroupBy(g.value))
    ensures C.Optional(ParseGroupBy, C.PutOptional(PutGroupBy, g, T)) == (g, T)
    ensures ClauseRank(C.PutOptional(PutGroupBy, g, T)) >= 2
  {
    GroupByConsumes();
    if g.Some? {
      GroupClauseRead(g.value, T);
    } else {
      RankExcludes(T);
    }
    C.OptionalComplete(ParseGroupBy, PutGroupBy, g, T);
  }

  lemma GroupClauseRead(g: GroupBy, T: seq<Token>)
    requires ClauseRank(T) >= 3 && ValidGroupBy(g)
    ensures ParseGroupBy(PutGroupBy(g, T)) == Some((g, T)) && ClauseRank(PutGroupBy(g, T)) == 2
  {
    RankedBoundary(T);
    GroupByComplete(g, T);
    var R := if g.withRollup then [K(WITH_ROLLUP)] + T else T;
    KeywordRank(GROUP_BY, C.Separated(PutColumn, g.columns, R));
  }

  lemma WherePart(w: Option<Expr>, T: seq<Token>)
    requires ClauseRank(T) >= 2 && (w.Some? ==> WF(w.value))
    ensures C.Optional(ParseWhere, C.PutOptional(PutWhere, w, T)) == (w, T)
    ensures ClauseRank(C.PutOptional(PutWhere, w, T)) >= 1
  {
    WhereConsumes();
    if w.Some? {
      RankedBoundary(T);
      BoundaryEnds(T);
      WhereComplete(w.value, T);
      KeywordRank(WHERE, PutExpr(w.value, T));
    } else {
      RankExcludes(T);
    }
    C.OptionalComplete(ParseWhere, PutWhere, w, T);
  }

  /** The clauses of a select are read back whole before the end of its
      statement, and what they leave begins no other clause. */
  lemma ClausesComplete(c: SelectClauses, T: seq<Token>)
    requires ValidClauses(c) && StatementEnd(T)
    ensures ParseClauses(PutClauses(c, T)) == (c, T)
    ensures ClauseRank(PutClauses(c, T)) >= 1
  {
    var t4 := C.PutOptional(PutLimitOffset, c.limit, T);
    var t3 := C.PutOptional(PutOrderBy, c.orderBy, t4);
    var t2 := C.PutOptional(PutHaving, c.having, t3);
    var t1 := C.PutOptional(PutGroupBy, c.groupBy, t2);
    LimitPart(c.limit, T);
    OrderPart(c.orderBy, t4);
    HavingPart(c.having, t3);
    GroupPart(c.groupBy, t2);
    WherePart(c.where, t1);
  }

  // ---------------------------------------------------------------------
  // join_clause

  lemma IdentifierLists()
    ensures C.Consumes(ParseIdentifier) && C.SoundFor(ParseIdentifier, PutIdentifier, (id: Identifier) => true)
  {
    IdentifierConsumes();
  }

  function ParseJoinSpecification(ts: seq<Token>): (r: Option<(JoinSpecification, seq<Token>)>)
    ensures r.Some? ==> ts == PutJoinSpecification(r.value.0, r.value.1)
    ensures r.Some? ==> ValidJoinSpecification(r.value.0) && |r.value.1| < |ts|
  {
    if At(ts, ON) then
      match ExpressionItem(ts[1..])
      case None => None
      case Some((e, rest)) => Some((On(e), rest))
    else if At(ts, USING) then
      match ParseNameList(ts[1..])
      case None => None
      case Some((ids, rest)) => Some((Using(ids), rest))
    else None
  }

  /** `"(" commaSeparated1($.identifier) ")"`, the columns of USING. */
  function ParseNameList(ts: seq<Token>): (r: Option<(seq<Identifier>, seq<Token>)>)
    ensures r.Some? ==> ts == [Fixed(LPAREN)] + C.Separated(PutIdentifier, r.value.0, [Fixed(RPAREN)] + r.value.1)
    ensures r.Some? ==> |r.value.0| >= 1 && |r.value.1| < |ts|
  {
    if !StartsWith(ts, LPAREN) then None
    else
      IdentifierLists();
      C.CommaSeparated1Sound(ParseIdentifier, PutIdentifier, (id: Identifier) => true, ts[1..]);
      match C.CommaSeparated1(ParseIdentifier, ts[1..])
      case None => None
      case Some((ids, rest)) =>
        if StartsWith(rest, RPAREN) then
          assert rest == [Fixed(RPAREN)] + rest[1..];
          Some((ids, rest[1..]))
        else None
  }

  lemma NameListComplete(ids: seq<Identifier>, T: seq<Token>)
    requires |ids| >= 1
    ensures ParseNameList([Fixed(LPAREN)] + C.Separated(PutIdentifier, ids, [Fixed(RPAREN)] + T)) == Some((ids, T))
  {
    var close := [Fixed(RPAREN)] + T;
    forall k | 0 <= k < |ids|
      ensures C.ReadsBack(ParseIdentifier, PutIdentifier, ids[k], Closing)
    {
      IdentifierReadsBack(ids[k], Closing);
    }
    IdentifierLists();
    C.CommaSeparated1Complete(ParseIdentifier, PutIdentifier, ids, Closing, close);
    assert ([Fixed(LPAREN)] + C.Separated(PutIdentifier, ids, close))[1..] == C.Separated(PutIdentifier, ids, close);
    assert close[1..] == T;
  }

  predicate Closing(ts: seq<Token>) {
    StartsWith(ts, RPAREN)
  }

  /** What may follow a join: a follower of a column that begins no join
      specification. */
  predicate JoinFollower(ts: seq<Token>) {
    Boundary(ts) && !At(ts, ON) && !At(ts, USING)
  }

  lemma JoinSpecificationComplete(s: JoinSpecification, T: seq<Token>)
    requires ValidJoinSpecification(s) && Boundary(T)
    ensures ParseJoinSpecification(PutJoinSpecification(s, T)) == Some((s, T))
  {
    var ts := PutJoinSpecification(s, T);
    match s
    case On(e) =>
      BoundaryEnds(T);
      ExpressionItemComplete(e, T);
      assert ts[1..] == Print(e) + T;
    case Using(ids) =>
      NameListComplete(ids, T);
      assert ts[1..] == [Fixed(LPAREN)] + C.Separated(PutIdentifier, ids, [Fixed(RPAREN)] + T);
  }

  lemma JoinSpecificationConsumes()
    ensures C.Consumes(ParseJoinSpecification)
  {
  }

  /** What the keywords of a join say before its table is read. */
  datatype JoinHead = InnerHead(kind: InnerKind) | OuterHead(side: Side, outer: bool) | NaturalHead

  function HeadOf(j: JoinClause): JoinHead {
    match j
    case Inner(kind, _, _) => InnerHead(kind)
    case Outer(side, outer, _, _) => OuterHead(side, outer)
    case Natural(_) => NaturalHead
  }

  /** The keywords of the three alternatives of `join_clause`. */
  function ParseJoinHead(ts: seq<Token>): (r: Option<(JoinHead, seq<Token>)>)
    ensures r.Some? ==> |r.value.1| < |ts|
  {
    if At(ts, JOIN) then Some((InnerHead(PlainJoin), ts[1..]))
    else if At(ts, INNER) && At(ts[1..], JOIN) then Some((InnerHead(InnerJoin), ts[2..]))
    else if At(ts, CROSS) && At(ts[1..], JOIN) then Some((InnerHead(CrossJoin), ts[2..]))
    else if At(ts, STRAIGHT_JOIN) then Some((InnerHead(StraightJoin), ts[1..]))
    else if At(ts, LEFT) || At(ts, RIGHT) then
      var side := if At(ts, LEFT) then LeftSide else RightSide;
      if At(ts[1..], OUTER) && At(ts[2..], JOIN) then Some((OuterHead(side, true), ts[3..]))
      else if At(ts[1..], JOIN) then Some((OuterHead(side, false), ts[2..]))
      else None
    else if At(ts, NATURAL) && At(ts[1..], JOIN) then Some((NaturalHead, ts[2..]))
    else None
  }

  /** What comes after the table of a join: an optional specification, a
      required one, or none. */
  function ParseJoinRest(head: JoinHead, t: Identifier, ts: seq<Token>): (r: Option<(JoinClause, seq<Token>)>)
    ensures r.Some? ==> HeadOf(r.value.0) == head && r.value.0.table == t
    ensures r.Some? ==> ts == PutJoinRest(r.value.0, r.value.1) && ValidJoin(r.value.0) && |r.value.1| <= |ts|
  {
    match head
    case InnerHead(kind) =>
      JoinSpecificationConsumes();
      var (spec, rest) := C.Optional(ParseJoinSpecification, ts);
      Some((Inner(kind, t, spec), rest))
    case OuterHead(side, outer) =>
      (match ParseJoinSpecification(ts)
       case None => None
       case Some((spec, rest)) => Some((Outer(side, outer, t, spec), rest)))
    case NaturalHead => Some((Natural(t), ts))
  }

  /** The keywords of a join tell which alternative it is. */
  function HeadTokens(h: JoinHead): seq<Token> {
    match h
    case InnerHead(kind) => InnerKeywords(kind)
    case OuterHead(side, outer) => [K(SideKeyword(side))] + (if outer then [K(OUTER)] else []) + [K(JOIN)]
    case NaturalHead => [K(NATURAL), K(JOIN)]
  }

  lemma HeadTokensOf(j: JoinClause)
    ensures HeadTokens(HeadOf(j)) == JoinKeywords(j)
  {
  }

  function ParseJoin(ts: seq<Token>): (r: Option<(JoinClause, seq<Token>)>)
    ensures r.Some? ==> ts == PutJoin(r.value.0, r.value.1) && ValidJoin(r.value.0) && |r.value.1| < |ts|
  {
    match ParseJoinHead(ts)
    case None => None
    case Some((head, rest)) =>
      JoinHeadSound(ts);
      match ParseIdentifier(rest)
      case None => None
      case Some((t, rest')) =>
        match ParseJoinRest(head, t, rest')
        case None => None
        case Some((j, rest'')) =>
          HeadTokensOf(j);
          Some((j, rest''))
  }

  lemma JoinHeadSound(ts: seq<Token>)
    ensures var r := ParseJoinHead(ts); r.Some? ==> ts == HeadTokens(r.value.0) + r.value.1
  {
    var r := ParseJoinHead(ts);
    if r.Some? {
      var n := |ts| - |r.value.1|;
      assert ts == ts[..n] + ts[n..];
    }
  }

  lemma JoinHeadComplete(h: JoinHead, T: seq<Token>)
    ensures ParseJoinHead(HeadTokens(h) + T) == Some((h, T))
  {
    var ts := HeadTokens(h) + T;
    var n := |HeadTokens(h)|;
    assert ts[n..] == T;
    match h
    case InnerHead(kind) =>
    case OuterHead(side, outer) =>
      if outer {
        assert ts[1..][0] == K(OUTER) && ts[2..][0] == K(JOIN);
      } else {
        assert ts[1..][0] == K(JOIN);
      }
    case NaturalHead =>
      assert ts[1..][0] == K(JOIN);
  }

  lemma JoinComplete(j: JoinClause, T: seq<Token>)
    requires ValidJoin(j) && JoinFollower(T)
    ensures ParseJoin(PutJoin(j, T)) == Some((j, T))
  {
    var R := PutJoinRest(j, T);
    HeadTokensOf(j);
    JoinHeadComplete(HeadOf(j), PutIdentifier(j.table, R));
    IdentifierRoundTrip(j.table, R);
    JoinRestComplete(j, T);
  }

  lemma JoinRestComplete(j: JoinClause, T: seq<Token>)
    requires ValidJoin(j) && JoinFollower(T)
    ensures ParseJoinRest(HeadOf(j), j.table, PutJoinRest(j, T)) == Some((j, T))
  {
    match j
    case Inner(kind, t, spec) =>
      if spec.Some? {
        JoinSpecificationComplete(spec.value, T);
      }
      JoinSpecificationConsumes();
      C.OptionalComplete(ParseJoinSpecification, PutJoinSpecification, spec, T);
    case Outer(side, outer, t, spec) =>
      JoinSpecificationComplete(spec, T);
    case Natural(t) =>
  }

  /** No join begins at a clause of a select or at the end of a
      statement. */
  lemma NoJoinAtClause(T: seq<Token>)
    requires ClauseRank(T) >= 1
    ensures ParseJoin(T).None?
  {
    NoJoinHeadAtClause(T);
  }

  lemma NoJoinHeadAtClause(T: seq<Token>)
    requires ClauseRank(T) >= 1
    ensures ParseJoinHead(T).None?
  {
    if |T| > 0 && T[0].Reserved? {
      assert IsStatementKeyword(T[0].keyword) || T[0].keyword in {WHERE, GROUP_BY, HAVING, ORDER_BY, LIMIT};
    }
  }

  /** An outer join without a specification is no join: LEFT and RIGHT
      JOIN require `ON` or `USING`. */
  lemma OuterJoinNeedsSpecification(side: Side, outer: bool, t: Identifier, T: seq<Token>)
    requires !At(T, ON) && !At(T, USING)
    ensures ParseJoin(HeadTokens(OuterHead(side, outer)) + PutIdentifier(t, T)) == None
  {
    JoinHeadComplete(OuterHead(side, outer), PutIdentifier(t, T));
    IdentifierRoundTrip(t, T);
  }

  /** A natural join takes no specification: an `ON` after it is left for
      the rules that follow. */
  lemma NaturalJoinTakesNone(t: Identifier, e: Expr, T: seq<Token>)
    ensures var R := [K(ON)] + PutExpr(e, T);
      ParseJoin(PutJoin(Natural(t), R)) == Some((Natural(t), R))
  {
    var R := [K(ON)] + PutExpr(e, T);
    JoinHeadComplete(NaturalHead, PutIdentifier(t, R));
    IdentifierRoundTrip(t, R);
  }

  /** An inner join reads a specification when one follows its table, and
      does without one otherwise. */
  lemma InnerJoinSpecificationOptional(kind: InnerKind, t: Identifier, s: JoinSpecification, T: seq<Token>)
    requires ValidJoinSpecification(s) && JoinFollower(T)
    ensures ParseJoin(PutJoin(Inner(kind, t, Some(s)), T)) == Some((Inner(kind, t, Some(s)), T))
    ensures ParseJoin(PutJoin(Inner(kind, t, None), T)) == Some((Inner(kind, t, None), T))
  {
    JoinComplete(Inner(kind, t, Some(s)), T);
    JoinComplete(Inner(kind, t, None), T);
  }
}
