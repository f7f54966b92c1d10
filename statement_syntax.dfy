/** The trees of the statement rules of the grammar, their printing and the
    trees the statement parsers yield.

    Every printer puts the tokens of a tree in front of the tokens that follow
    it (see `Combinators.Printer`). A `Valid*` predicate says which trees are
    printings of the grammar: the lists `commaSeparated1` builds are not
    empty, and every embedded expression is one the expression parser
    yields. */
module StatementSyntax {
  import opened Wrappers
  import opened Tokens
  import P = Precedence
  import C = Combinators
  import opened Expressions
  import opened ExpressionTrees

  // ---------------------------------------------------------------------
  // Names, aliases and columns

  /** `_alias`: an optional `AS`, then an identifier. */
  datatype Alias = Alias(withAs: bool, name: Identifier)

  /** `table_name`: an identifier, qualified by a database when a `.`
      follows the first identifier. */
  datatype TableName = TableName(database: Option<Identifier>, name: Identifier)

  /** `column`: an expression with an optional alias. */
  datatype Column = Column(value: Expr, alias: Option<Alias>)

  // ---------------------------------------------------------------------
  // SELECT

  /** An item of `select_expression`: `identifier . *` or a column. */
  datatype SelectItem = TableWildcard(table: Identifier) | ColumnItem(column: Column)

  /** `select_expression`: `*` or a non-empty list of items. */
  datatype SelectExpression = AllColumns | Items(items: seq<SelectItem>)

  datatype Direction = Ascending | Descending

  /** An item of `order_by_clause`. */
  datatype OrderItem = OrderItem(column: Column, direction: Option<Direction>)

  /** `group_by_clause`. */
  datatype GroupBy = GroupBy(columns: seq<Column>, withRollup: bool)

  /** `limit_offset_clause`: the integer lexemes of LIMIT and OFFSET. */
  datatype LimitOffset = LimitOffset(limit: string, offset: Option<string>)

  /** `_join_specification`. */
  datatype JoinSpecification = On(condition: Expr) | Using(columns: seq<Identifier>)

  /** The words before `JOIN` in the first alternative of `join_clause`. */
  datatype InnerKind = PlainJoin | InnerJoin | CrossJoin | StraightJoin

  datatype Side = LeftSide | RightSide

  /** `join_clause`, one alternative per constructor: the inner joins take
      an optional specification, the outer joins one that is required and
      the natural join none. The joined table is a bare `identifier`. */
  datatype JoinClause =
    | Inner(kind: InnerKind, table: Identifier, specification: Option<JoinSpecification>)
    | Outer(side: Side, outer: bool, table: Identifier, required: JoinSpecification)
    | Natural(table: Identifier)

  /** The optional clauses after `FROM table_references`, in their order. */
  datatype SelectClauses = SelectClauses(
    where: Option<Expr>,
    groupBy: Option<GroupBy>,
    having: Option<Expr>,
    orderBy: Option<seq<OrderItem>>,
    limit: Option<LimitOffset>)

  /** `select_statement`. */
  datatype Select = Select(items: SelectExpression, from: TableReferences, clauses: SelectClauses)

  /** The two alternatives of `table_references` before its join: a named
      table with an optional alias, or a parenthesised select whose alias is
      required. */
  datatype TableFactor =
    | Named(table: TableName, alias: Option<Alias>)
    | Subquery(query: Select, name: Alias)

  /** `table_references`: a table and at most one join. */
  datatype TableReferences = TableReferences(factor: TableFactor, join: Option<JoinClause>)

  // ---------------------------------------------------------------------
  // CREATE TABLE

  /** `data_type`. `YEAR` is the token of the interval unit and `SET` the
      keyword of UPDATE, so those two have constructors of their own. */
  datatype DataType =
    | Plain(word: TypeWord)
    | YearType
    | Sized(word: TypeWord, length: string)
    | EnumType(values: seq<string>)
    | SetType(values: seq<string>)

  datatype Nullability = Nullable | NotNullable

  datatype Visibility = Visible | Invisible

  /** `column_definition`: the data type, then each optional part in the
      order the rule lists them. `unique` holds whether `KEY` follows
      `UNIQUE`, `key` whether `PRIMARY` precedes `KEY`. */
  datatype ColumnDefinition = ColumnDefinition(
    dataType: DataType,
    nullability: Option<Nullability>,
    default: Option<Expr>,
    visibility: Option<Visibility>,
    autoIncrement: bool,
    unique: Option<bool>,
    key: Option<bool>,
    comment: Option<string>)

  /** `create_definition`. */
  datatype CreateDefinition = CreateDefinition(name: Identifier, definition: ColumnDefinition)

  // ---------------------------------------------------------------------
  // Statements

  datatype ShowSource = FromDatabase | InDatabase

  /** The eight alternatives of `statement`. */
  datatype StatementBody =
    | SelectStatement(query: Select)
    | Update(table: TableName, where: Expr, orderBy: seq<OrderItem>, limit: string)
    | Delete(table: TableName, where: Expr, orderBy: seq<OrderItem>, limit: string)
    | DropTable(temporary: bool, ifExists: bool, table: TableName)
    | TruncateTable(withTable: bool, table: TableName)
    | Insert(ignore: bool, into: Identifier, columns: seq<Identifier>, rows: seq<seq<Expr>>)
    | CreateTable(ifNotExists: bool, name: Identifier, definitions: seq<CreateDefinition>)
    | ShowTables(extended: bool, full: bool, database: Option<(ShowSource, Identifier)>, like: Option<string>)

  datatype Terminator = Semicolon | BackslashG

  /** `statement`: a body and an optional `;` or `\G`. */
  datatype Statement = Statement(body: StatementBody, terminator: Option<Terminator>)

  // ---------------------------------------------------------------------
  // Printing

  function K(k: Keyword): Token { Reserved(k) }

  function PutIdentifier(id: Identifier, T: seq<Token>): seq<Token> {
    PrintIdentifier(id) + T
  }

  function PutExpr(e: Expr, T: seq<Token>): seq<Token> {
    Print(e) + T
  }

  function PutString(s: string, T: seq<Token>): seq<Token> {
    [Str(s)] + T
  }

  function PutAlias(a: Alias, T: seq<Token>): seq<Token> {
    if a.withAs then [K(AS)] + PutIdentifier(a.name, T) else PutIdentifier(a.name, T)
  }

  function PutTableName(t: TableName, T: seq<Token>): seq<Token> {
    if t.database.Some? then PutIdentifier(t.database.value, [Fixed(DOT)] + PutIdentifier(t.name, T))
    else PutIdentifier(t.name, T)
  }

  function PutColumn(c: Column, T: seq<Token>): seq<Token> {
    PutExpr(c.value, C.PutOptional(PutAlias, c.alias, T))
  }

  function PutSelectItem(i: SelectItem, T: seq<Token>): seq<Token> {
    match i
    case TableWildcard(t) => PutIdentifier(t, [Fixed(DOT), Op(P.Star)] + T)
    case ColumnItem(c) => PutColumn(c, T)
  }

  function PutSelectExpression(s: SelectExpression, T: seq<Token>): seq<Token> {
    match s
    case AllColumns => [Op(P.Star)] + T
    case Items(items) => C.Separated(PutSelectItem, items, T)
  }

  function DirectionKeyword(d: Direction): Keyword {
    match d
    case Ascending => ASC
    case Descending => DESC
  }

  function PutDirection(d: Direction, T: seq<Token>): seq<Token> {
    [K(DirectionKeyword(d))] + T
  }

  function PutOrderItem(o: OrderItem, T: seq<Token>): seq<Token> {
    PutColumn(o.column, C.PutOptional(PutDirection, o.direction, T))
  }

  function PutWhere(e: Expr, T: seq<Token>): seq<Token> {
    [K(WHERE)] + PutExpr(e, T)
  }

  function PutHaving(e: Expr, T: seq<Token>): seq<Token> {
    [K(HAVING)] + PutExpr(e, T)
  }

  function PutGroupBy(g: GroupBy, T: seq<Token>): seq<Token> {
    [K(GROUP_BY)] + C.Separated(PutColumn, g.columns, if g.withRollup then [K(WITH_ROLLUP)] + T else T)
  }

  function PutOrderBy(items: seq<OrderItem>, T: seq<Token>): seq<Token> {
    [K(ORDER_BY)] + C.Separated(PutOrderItem, items, T)
  }

  function PutLimit(n: string, T: seq<Token>): seq<Token> {
    [K(LIMIT), Integer(n)] + T
  }

  function PutOffset(n: string, T: seq<Token>): seq<Token> {
    [K(OFFSET), Integer(n)] + T
  }

  function PutLimitOffset(l: LimitOffset, T: seq<Token>): seq<Token> {
    PutLimit(l.limit, C.PutOptional(PutOffset, l.offset, T))
  }

  function PutClauses(c: SelectClauses, T: seq<Token>): seq<Token> {
    C.PutOptional(PutWhere, c.where,
      C.PutOptional(PutGroupBy, c.groupBy,
        C.PutOptional(PutHaving, c.having,
          C.PutOptional(PutOrderBy, c.orderBy,
            C.PutOptional(PutLimitOffset, c.limit, T)))))
  }

  function PutJoinSpecification(s: JoinSpecification, T: seq<Token>): seq<Token> {
    match s
    case On(e) => [K(ON)] + PutExpr(e, T)
    case Using(ids) => [K(USING), Fixed(LPAREN)] + C.Separated(PutIdentifier, ids, [Fixed(RPAREN)] + T)
  }

  function InnerKeywords(kind: InnerKind): seq<Token> {
    match kind
    case PlainJoin => [K(JOIN)]
    case InnerJoin => [K(INNER), K(JOIN)]
    case CrossJoin => [K(CROSS), K(JOIN)]
    case StraightJoin => [K(STRAIGHT_JOIN)]
  }

  function SideKeyword(s: Side): Keyword {
    match s
    case LeftSide => LEFT
    case RightSide => RIGHT
  }

  /** The keywords of a join, before its table. */
  function JoinKeywords(j: JoinClause): seq<Token> {
    match j
    case Inner(kind, _, _) => InnerKeywords(kind)
    case Outer(side, outer, _, _) =>
      [K(SideKeyword(side))] + (if outer then [K(OUTER)] else []) + [K(JOIN)]
    case Natural(_) => [K(NATURAL), K(JOIN)]
  }

  /** The specification of a join, if it has one, in front of T. */
  function PutJoinRest(j: JoinClause, T: seq<Token>): seq<Token> {
    match j
    case Inner(_, _, spec) => C.PutOptional(PutJoinSpecification, spec, T)
    case Outer(_, _, _, spec) => PutJoinSpecification(spec, T)
    case Natural(_) => T
  }

  function PutJoin(j: JoinClause, T: seq<Token>): seq<Token> {
    JoinKeywords(j) + PutIdentifier(j.table, PutJoinRest(j, T))
  }

  function PutSelect(s: Select, T: seq<Token>): seq<Token> {
    [K(SELECT)] + PutSelectExpression(s.items, [K(FROM)] + PutTableReferences(s.from, PutClauses(s.clauses, T)))
  }

  function PutTableReferences(r: TableReferences, T: seq<Token>): seq<Token> {
    PutTableFactor(r.factor, C.PutOptional(PutJoin, r.join, T))
  }

  function PutTableFactor(f: TableFactor, T: seq<Token>): seq<Token> {
    match f
    case Named(t, alias) => PutTableName(t, C.PutOptional(PutAlias, alias, T))
    case Subquery(q, alias) => [Fixed(LPAREN)] + PutSelect(q, [Fixed(RPAREN)] + PutAlias(alias, T))
  }

  // ---------------------------------------------------------------------
  // The trees the parsers yield

  predicate ValidColumn(c: Column) { WF(c.value) }

  predicate ValidSelectItem(i: SelectItem) { i.ColumnItem? ==> ValidColumn(i.column) }

  predicate ValidSelectExpression(s: SelectExpression) {
    s.Items? ==> |s.items| >= 1 && forall i | 0 <= i < |s.items| :: ValidSelectItem(s.items[i])
  }

  predicate ValidOrderItem(o: OrderItem) { ValidColumn(o.column) }

  predicate ValidOrderBy(items: seq<OrderItem>) {
    |items| >= 1 && forall i | 0 <= i < |items| :: ValidOrderItem(items[i])
  }

  predicate ValidGroupBy(g: GroupBy) {
    |g.columns| >= 1 && forall i | 0 <= i < |g.columns| :: ValidColumn(g.columns[i])
  }

  predicate ValidClauses(c: SelectClauses) {
    && (c.where.Some? ==> WF(c.where.value))
    && (c.groupBy.Some? ==> ValidGroupBy(c.groupBy.value))
    && (c.having.Some? ==> WF(c.having.value))
    && (c.orderBy.Some? ==> ValidOrderBy(c.orderBy.value))
  }

  predicate ValidJoinSpecification(s: JoinSpecification) {
    match s
    case On(e) => WF(e)
    case Using(ids) => |ids| >= 1
  }

  predicate ValidJoin(j: JoinClause) {
    match j
    case Inner(_, _, spec) => spec.Some? ==> ValidJoinSpecification(spec.value)
    case Outer(_, _, _, spec) => ValidJoinSpecification(spec)
    case Natural(_) => true
  }

  predicate ValidSelect(s: Select) {
    ValidSelectExpression(s.items) && ValidTableReferences(s.from) && ValidClauses(s.clauses)
  }

  predicate ValidTableReferences(r: TableReferences) {
    ValidTableFactor(r.factor) && (r.join.Some? ==> ValidJoin(r.join.value))
  }

  predicate ValidTableFactor(f: TableFactor) {
    match f
    case Named(_, _) => true
    case Subquery(q, _) => ValidSelect(q)
  }

  // ---------------------------------------------------------------------
  // What may follow

  /** The keywords that begin a statement. */
  predicate IsStatementKeyword(k: Keyword) {
    k == SELECT || k == UPDATE || k == DELETE_FROM || k == DROP || k == TRUNCATE
    || k == INSERT || k == CREATE_TABLE || k == SHOW
  }

  /** What may follow a statement body: nothing, a terminator, the next
      statement, or the `)` that closes a subquery. */
  predicate StatementEnd(ts: seq<Token>) {
    || |ts| == 0
    || ts[0] == Fixed(RPAREN) || ts[0] == Fixed(SEMICOLON) || ts[0] == Fixed(BACKSLASH_G)
    || (ts[0].Reserved? && IsStatementKeyword(ts[0].keyword))
  }

  /** What may follow a column: a keyword other than `AS`, punctuation that
      separates or closes, or nothing. It continues neither the expression
      nor an alias. */
  predicate Boundary(ts: seq<Token>) {
    || |ts| == 0
    || (ts[0].Reserved? && ts[0].keyword != AS)
    || ts[0] == Fixed(COMMA) || ts[0] == Fixed(RPAREN)
    || ts[0] == Fixed(SEMICOLON) || ts[0] == Fixed(BACKSLASH_G)
  }

  /** Where the next tokens stand among the optional clauses of a select:
      1 for WHERE up to 5 for LIMIT, 6 at the end of the statement, 0 for
      anything else. A clause at position k may be followed by tokens of a
      rank above k. */
  function ClauseRank(ts: seq<Token>): (k: nat)
    ensures k <= 6
  {
    if StatementEnd(ts) then 6
    else if ts[0] == K(WHERE) then 1
    else if ts[0] == K(GROUP_BY) then 2
    else if ts[0] == K(HAVING) then 3
    else if ts[0] == K(ORDER_BY) then 4
    else if ts[0] == K(LIMIT) then 5
    else 0
  }
}
