/** The statements other than SELECT and CREATE TABLE, the `statement` rule
    that chooses among all eight and takes an optional terminator, and
    `source_file`, a sequence of statements. */
module Statements {
  import opened Wrappers
  import opened Tokens
  import C = Combinators
  import opened Expressions
  import opened ExpressionTrees
  import opened ExpressionBinding
  import opened StatementSyntax
  import opened Clauses
  import opened Queries
  import opened CreateTables

  // ---------------------------------------------------------------------
  // Required and optional keywords

  /** A required keyword: what follows it, if ts begins with it. */
  function Expect(ts: seq<Token>, k: Keyword): (r: Option<seq<Token>>)
    ensures r.Some? ==> ts == [K(k)] + r.value
  {
    if At(ts, k) then
      assert ts == [K(k)] + ts[1..];
      Some(ts[1..])
    else None
  }

  lemma ExpectComplete(k: Keyword, T: seq<Token>)
    ensures Expect([K(k)] + T, k) == Some(T)
  {
    assert ([K(k)] + T)[1..] == T;
  }

  /** An optional keyword, present or not. */
  function PutFlag(b: bool, k: Keyword, T: seq<Token>): seq<Token> {
    if b then [K(k)] + T else T
  }

  function ParseFlag(ts: seq<Token>, k: Keyword): (r: (bool, seq<Token>))
    ensures ts == PutFlag(r.0, k, r.1) && |r.1| <= |ts|
    ensures r.0 <==> |r.1| < |ts|
  {
    match Expect(ts, k)
    case Some(rest) => (true, rest)
    case None => (false, ts)
  }

  /** The flag is read back unless what follows it is the same keyword. */
  lemma FlagComplete(b: bool, k: Keyword, T: seq<Token>)
    requires !At(T, k)
    ensures ParseFlag(PutFlag(b, k, T), k) == (b, T)
  {
    if b {
      ExpectComplete(k, T);
    }
  }

  /** A table name begins with an identifier, never with a keyword. */
  lemma TableNameHead(t: TableName, T: seq<Token>)
    ensures |PutTableName(t, T)| > 0 && !PutTableName(t, T)[0].Reserved?
  {
    var id := if t.database.Some? then t.database.value else t.name;
    assert PutTableName(t, T)[0] == PrintIdentifier(id)[0];
  }

  /** What may follow a statement body is a follower of a column. */
  lemma EndIsBoundary(T: seq<Token>)
    requires StatementEnd(T)
    ensures Boundary(T) && Follows(T, 0) && OrderFollower(T) && !StartsWith(T, COMMA) && !StartsWith(T, DOT)
    ensures !At(T, ORDER_BY) && !At(T, LIMIT) && !StartsWith(T, LIKE)
  {
    BoundaryEnds(T);
  }

  // ---------------------------------------------------------------------
  // update_statement and delete_statement

  /** The tail both statements share: `where_clause`, `order_by_clause` and
      `limit_clause`, none of them optional. */
  datatype Filter = Filter(where: Expr, orderBy: seq<OrderItem>, limit: string)

  predicate ValidFilter(f: Filter) {
    WF(f.where) && ValidOrderBy(f.orderBy)
  }

  function PutFilter(f: Filter, T: seq<Token>): seq<Token> {
    PutWhere(f.where, PutOrderBy(f.orderBy, PutLimit(f.limit, T)))
  }

  function ParseFilter(ts: seq<Token>): (r: Option<(Filter, seq<Token>)>)
    ensures r.Some? ==> ts == PutFilter(r.value.0, r.value.1) && ValidFilter(r.value.0) && |r.value.1| < |ts|
  {
    match ParseWhere(ts)
    case None => None
    case Some((where, rest)) =>
      match ParseOrderBy(rest)
      case None => None
      case Some((orderBy, rest')) =>
        match ParseLimit(rest')
        case None => None
        case Some((limit, rest'')) => Some((Filter(where, orderBy, limit), rest''))
  }

  lemma FilterComplete(f: Filter, T: seq<Token>)
    requires ValidFilter(f)
    ensures ParseFilter(PutFilter(f, T)) == Some((f, T))
  {
    var R2 := PutLimit(f.limit, T);
    LimitComplete(f.limit, T);
    var R1 := PutOrderBy(f.orderBy, R2);
    OrderByComplete(f.orderBy, R2);
    BoundaryEnds(R1);
    WhereComplete(f.where, R1);
  }

  /** A filter begins with WHERE. */
  lemma FilterHead(f: Filter, T: seq<Token>)
    ensures At(PutFilter(f, T), WHERE)
  {
  }

  /** ORDER BY and LIMIT are required: a filter that ends after its WHERE
      clause is not read. */
  lemma FilterNeedsOrderAndLimit(where: Expr, T: seq<Token>)
    requires WF(where) && StatementEnd(T)
    ensures ParseFilter(PutWhere(where, T)).None?
  {
    EndIsBoundary(T);
    WhereComplete(where, T);
    assert ParseOrderBy(T).None?;
  }

  /** The same after ORDER BY: a LIMIT must follow. */
  lemma FilterNeedsLimit(where: Expr, orderBy: seq<OrderItem>, T: seq<Token>)
    requires WF(where) && ValidOrderBy(orderBy) && StatementEnd(T)
    ensures ParseFilter(PutWhere(where, PutOrderBy(orderBy, T))).None?
  {
    EndIsBoundary(T);
    OrderByComplete(orderBy, T);
    var R := PutOrderBy(orderBy, T);
    BoundaryEnds(R);
    WhereComplete(where, R);
    assert ParseLimit(T).None?;
  }

  function PutUpdate(t: TableName, f: Filter, T: seq<Token>): seq<Token> {
    [K(UPDATE)] + PutTableName(t, [K(SET)] + PutFilter(f, T))
  }

  /** `UPDATE table_name SET` and then the filter: the rule has no
      assignment list after `SET`. */
  function ParseUpdate(ts: seq<Token>): (r: Option<(TableName, Filter, seq<Token>)>)
    ensures r.Some? ==> ts == PutUpdate(r.value.0, r.value.1, r.value.2) && ValidFilter(r.value.1)
    ensures r.Some? ==> |r.value.2| < |ts|
  {
    match Expect(ts, UPDATE)
    case None => None
    case Some(t0) =>
      match ParseTableName(t0)
      case None => None
      case Some((t, t1)) =>
        match Expect(t1, SET)
        case None => None
        case Some(t2) =>
          match ParseFilter(t2)
          case None => None
          case Some((f, rest)) => Some((t, f, rest))
  }

  lemma UpdateComplete(t: TableName, f: Filter, T: seq<Token>)
    requires ValidFilter(f)
    ensures ParseUpdate(PutUpdate(t, f, T)) == Some((t, f, T))
  {
    var R := [K(SET)] + PutFilter(f, T);
    FilterComplete(f, T);
    ExpectComplete(SET, PutFilter(f, T));
    TableNameComplete(t, R);
    ExpectComplete(UPDATE, PutTableName(t, R));
  }

  /** After `SET` comes `WHERE` at once: an assignment such as `a = 1`
      there makes the statement unreadable. */
  lemma UpdateHasNoAssignments(t: TableName, R: seq<Token>)
    requires !At(R, WHERE)
    ensures ParseUpdate([K(UPDATE)] + PutTableName(t, [K(SET)] + R)).None?
  {
    TableNameComplete(t, [K(SET)] + R);
    ExpectComplete(UPDATE, PutTableName(t, [K(SET)] + R));
    ExpectComplete(SET, R);
  }

  function PutDelete(t: TableName, f: Filter, T: seq<Token>): seq<Token> {
    [K(DELETE_FROM)] + PutTableName(t, PutFilter(f, T))
  }

  function ParseDelete(ts: seq<Token>): (r: Option<(TableName, Filter, seq<Token>)>)
    ensures r.Some? ==> ts == PutDelete(r.value.0, r.value.1, r.value.2) && ValidFilter(r.value.1)
    ensures r.Some? ==> |r.value.2| < |ts|
  {
    match Expect(ts, DELETE_FROM)
    case None => None
    case Some(t0) =>
      match ParseTableName(t0)
      case None => None
      case Some((t, t1)) =>
        match ParseFilter(t1)
        case None => None
        case Some((f, rest)) => Some((t, f, rest))
  }

  lemma DeleteComplete(t: TableName, f: Filter, T: seq<Token>)
    requires ValidFilter(f)
    ensures ParseDelete(PutDelete(t, f, T)) == Some((t, f, T))
  {
    var R := PutFilter(f, T);
    FilterComplete(f, T);
    FilterHead(f, T);
    TableNameComplete(t, R);
    ExpectComplete(DELETE_FROM, PutTableName(t, R));
  }

  // ---------------------------------------------------------------------
  // drop_table_statement and truncate_table_statement

  function PutDrop(temporary: bool, ifExists: bool, t: TableName, T: seq<Token>): seq<Token> {
    [K(DROP)] + PutFlag(temporary, TEMPORARY, [K(TABLE)] + PutFlag(ifExists, IF_EXISTS, PutTableName(t, T)))
  }

  function ParseDrop(ts: seq<Token>): (r: Option<(StatementBody, seq<Token>)>)
    ensures r.Some? ==> r.value.0.DropTable?
    ensures r.Some? ==> ts == PutDrop(r.value.0.temporary, r.value.0.ifExists, r.value.0.table, r.value.1)
    ensures r.Some? ==> |r.value.1| < |ts|
  {
    match Expect(ts, DROP)
    case None => None
    case Some(t0) =>
      var (temporary, t1) := ParseFlag(t0, TEMPORARY);
      match Expect(t1, TABLE)
      case None => None
      case Some(t2) =>
        var (ifExists, t3) := ParseFlag(t2, IF_EXISTS);
        match ParseTableName(t3)
        case None => None
        case Some((t, rest)) => Some((DropTable(temporary, ifExists, t), rest))
  }

  lemma DropComplete(temporary: bool, ifExists: bool, t: TableName, T: seq<Token>)
    requires t.database.None? ==> !StartsWith(T, DOT)
    ensures ParseDrop(PutDrop(temporary, ifExists, t, T)) == Some((DropTable(temporary, ifExists, t), T))
  {
    var t3 := PutTableName(t, T);
    TableNameComplete(t, T);
    TableNameHead(t, T);
    FlagComplete(ifExists, IF_EXISTS, t3);
    var t2 := PutFlag(ifExists, IF_EXISTS, t3);
    ExpectComplete(TABLE, t2);
    FlagComplete(temporary, TEMPORARY, [K(TABLE)] + t2);
    ExpectComplete(DROP, PutFlag(temporary, TEMPORARY, [K(TABLE)] + t2));
  }

  function PutTruncate(withTable: bool, t: TableName, T: seq<Token>): seq<Token> {
    [K(TRUNCATE)] + PutFlag(withTable, TABLE, PutTableName(t, T))
  }

  function ParseTruncate(ts: seq<Token>): (r: Option<(StatementBody, seq<Token>)>)
    ensures r.Some? ==> r.value.0.TruncateTable?
    ensures r.Some? ==> ts == PutTruncate(r.value.0.withTable, r.value.0.table, r.value.1) && |r.value.1| < |ts|
  {
    match Expect(ts, TRUNCATE)
    case None => None
    case Some(t0) =>
      var (withTable, t1) := ParseFlag(t0, TABLE);
      match ParseTableName(t1)
      case None => None
      case Some((t, rest)) => Some((TruncateTable(withTable, t), rest))
  }

  lemma TruncateComplete(withTable: bool, t: TableName, T: seq<Token>)
    requires t.database.None? ==> !StartsWith(T, DOT)
    ensures ParseTruncate(PutTruncate(withTable, t, T)) == Some((TruncateTable(withTable, t), T))
  {
    TableNameComplete(t, T);
    TableNameHead(t, T);
    FlagComplete(withTable, TABLE, PutTableName(t, T));
    ExpectComplete(TRUNCATE, PutFlag(withTable, TABLE, PutTableName(t, T)));
  }

  // ---------------------------------------------------------------------
  // show_tables_statement

  function ShowSourceToken(s: ShowSource): Token {
    match s
    case FromDatabase => K(FROM)
    case InDatabase => Fixed(IN)
  }

  function PutShowDatabase(d: (ShowSource, Identifier), T: seq<Token>): seq<Token> {
    [ShowSourceToken(d.0)] + PutIdentifier(d.1, T)
  }

  /** `choice("FROM", "IN") $.identifier`. */
  function ParseShowDatabase(ts: seq<Token>): (r: Option<((ShowSource, Identifier), seq<Token>)>)
    ensures r.Some? ==> ts == PutShowDatabase(r.value.0, r.value.1) && |r.value.1| < |ts|
  {
    if |ts| == 0 || (ts[0] != K(FROM) && ts[0] != Fixed(IN)) then None
    else
      var source := if ts[0] == K(FROM) then FromDatabase else InDatabase;
      match ParseIdentifier(ts[1..])
      case None => None
      case Some((id, rest)) =>
        assert ts == [ShowSourceToken(source)] + ts[1..];
        Some(((source, id), rest))
  }

  /** `"LIKE" $.like_pattern`, a string. */
  function PutLike(pattern: string, T: seq<Token>): seq<Token> {
    [Fixed(LIKE), Str(pattern)] + T
  }

  function ParseLike(ts: seq<Token>): (r: Option<(string, seq<Token>)>)
    ensures r.Some? ==> ts == PutLike(r.value.0, r.value.1) && |r.value.1| < |ts|
  {
    if StartsWith(ts, LIKE) && |ts| >= 2 && ts[1].Str? then
      assert ts == [Fixed(LIKE), Str(ts[1].text)] + ts[2..];
      Some((ts[1].text, ts[2..]))
    else None
  }

  lemma ShowPartsConsume()
    ensures C.Consumes(ParseShowDatabase) && C.Consumes(ParseLike)
  {
  }

  /** What follows `TABLES`: the optional database and the optional
      pattern. */
  function PutShowTail(database: Option<(ShowSource, Identifier)>, like: Option<string>, T: seq<Token>): seq<Token> {
    C.PutOptional(PutShowDatabase, database, C.PutOptional(PutLike, like, T))
  }

  function PutShow(extended: bool, full: bool, database: Option<(ShowSource, Identifier)>, like: Option<string>, T: seq<Token>): seq<Token> {
    [K(SHOW)] + PutFlag(extended, EXTENDED, PutFlag(full, FULL, [K(TABLES)] + PutShowTail(database, like, T)))
  }

  function ParseShow(ts: seq<Token>): (r: Option<(StatementBody, seq<Token>)>)
    ensures r.Some? ==> r.value.0.ShowTables?
    ensures r.Some? ==> ts == PutShow(r.value.0.extended, r.value.0.full, r.value.0.database, r.value.0.like, r.value.1)
    ensures r.Some? ==> |r.value.1| < |ts|
  {
    match Expect(ts, SHOW)
    case None => None
    case Some(t0) =>
      var (extended, t1) := ParseFlag(t0, EXTENDED);
      var (full, t2) := ParseFlag(t1, FULL);
      match Expect(t2, TABLES)
      case None => None
      case Some(t3) =>
        ShowPartsConsume();
        var (database, t4) := C.Optional(ParseShowDatabase, t3);
        var (like, rest) := C.Optional(ParseLike, t4);
        Some((ShowTables(extended, full, database, like), rest))
  }

  /** The optional parts after `TABLES` are read back before the end of a
      statement. */
  lemma ShowTailComplete(database: Option<(ShowSource, Identifier)>, like: Option<string>, T: seq<Token>)
    requires StatementEnd(T)
    ensures var R := C.PutOptional(PutLike, like, T);
      && C.Optional(ParseLike, R) == (like, T)
      && C.Optional(ParseShowDatabase, PutShowTail(database, like, T)) == (database, R)
  {
    LikeComplete(like, T);
    ShowDatabaseComplete(database, C.PutOptional(PutLike, like, T));
  }

  /** The optional pattern is read back before the end of a statement, and
      what it leaves names no database. */
  lemma LikeComplete(like: Option<string>, T: seq<Token>)
    requires StatementEnd(T)
    ensures var R := C.PutOptional(PutLike, like, T);
      C.Optional(ParseLike, R) == (like, T) && ParseShowDatabase(R).None?
  {
    ShowPartsConsume();
    EndIsBoundary(T);
    if like.Some? {
      assert PutLike(like.value, T)[2..] == T;
    }
    C.OptionalComplete(ParseLike, PutLike, like, T);
  }

  lemma ShowDatabaseComplete(database: Option<(ShowSource, Identifier)>, R: seq<Token>)
    requires ParseShowDatabase(R).None?
    ensures C.Optional(ParseShowDatabase, C.PutOptional(PutShowDatabase, database, R)) == (database, R)
  {
    ShowPartsConsume();
    if database.Some? {
      IdentifierRoundTrip(database.value.1, R);
      assert PutShowDatabase(database.value, R)[1..] == PutIdentifier(database.value.1, R);
    }
    C.OptionalComplete(ParseShowDatabase, PutShowDatabase, database, R);
  }

  lemma ShowComplete(extended: bool, full: bool, database: Option<(ShowSource, Identifier)>, like: Option<string>, T: seq<Token>)
    requires StatementEnd(T)
    ensures ParseShow(PutShow(extended, full, database, like, T)) == Some((ShowTables(extended, full, database, like), T))
  {
    ShowTailComplete(database, like, T);
    var t3 := PutShowTail(database, like, T);
    ExpectComplete(TABLES, t3);
    FlagComplete(full, FULL, [K(TABLES)] + t3);
    var t1 := PutFlag(full, FULL, [K(TABLES)] + t3);
    FlagComplete(extended, EXTENDED, t1);
    ExpectComplete(SHOW, PutFlag(extended, EXTENDED, t1));
  }

  // ---------------------------------------------------------------------
  // insert_statement

  /** `value_list`: `"(" commaSeparated($._expression) ")"`. */
  function PutValueList(values: seq<Expr>, T: seq<Token>): seq<Token> {
    [Fixed(LPAREN)] + C.Separated(PutExpr, values, [Fixed(RPAREN)] + T)
  }

  predicate ValidValueList(values: seq<Expr>) {
    forall i | 0 <= i < |values| :: WF(values[i])
  }

  function ParseValueList(ts: seq<Token>): (r: Option<(seq<Expr>, seq<Token>)>)
    ensures r.Some? ==> ts == PutValueList(r.value.0, r.value.1) && ValidValueList(r.value.0) && |r.value.1| < |ts|
  {
    if !StartsWith(ts, LPAREN) then None
    else
      ExpressionItemConsumes();
      C.CommaSeparatedSound(ExpressionItem, PutExpr, WF, ts[1..]);
      match C.CommaSeparated(ExpressionItem, ts[1..])
      case None => None
      case Some((values, rest)) =>
        if StartsWith(rest, RPAREN) then
          assert rest == [Fixed(RPAREN)] + rest[1..];
          Some((values, rest[1..]))
        else None
  }

  /** Nothing the expression parser reads begins with `)`. */
  lemma NoExpressionAtClose(R: seq<Token>)
    ensures ExpressionItem([Fixed(RPAREN)] + R).None?
  {
    var ts := [Fixed(RPAREN)] + R;
    if ExpressionItem(ts).Some? {
      var (e, rest) := ExpressionItem(ts).value;
      ExpressionStartsWithNoClose(e, rest);
    }
  }

  /** The printing of an admitted expression does not begin with `)`. */
  lemma {:induction false} ExpressionStartsWithNoClose(e: Expr, T: seq<Token>)
    requires WF(e)
    ensures |Print(e) + T| > 0 && (Print(e) + T)[0] != Fixed(RPAREN)
    decreases Size(e)
  {
    if IsCompound(e) {
      CompoundPrint(e, T);
      ExpressionStartsWithNoClose(LeftOperand(e), Suffix(e) + T);
    } else if e.Literal? {
      LiteralTokenRoundTrip(e.literal);
    } else if e.Call? || e.Field? {
      var id := if e.Call? then e.func else if e.table.Some? then e.table.value else e.column;
      assert (Print(e) + T)[0] == PrintIdentifier(id)[0];
    }
  }

  lemma ValueListComplete(values: seq<Expr>, T: seq<Token>)
    requires ValidValueList(values)
    ensures ParseValueList(PutValueList(values, T)) == Some((values, T))
  {
    var close := [Fixed(RPAREN)] + T;
    forall k | 0 <= k < |values|
      ensures C.ReadsBack(ExpressionItem, PutExpr, values[k], Closing)
    {
      forall R | StartsWith(R, COMMA) || Closing(R)
        ensures ExpressionItem(PutExpr(values[k], R)) == Some((values[k], R))
      {
        BoundaryEnds(R);
        ExpressionItemComplete(values[k], R);
      }
    }
    ExpressionItemConsumes();
    NoExpressionAtClose(T);
    C.CommaSeparatedComplete(ExpressionItem, PutExpr, values, Closing, close);
    assert PutValueList(values, T)[1..] == C.Separated(PutExpr, values, close);
    assert close[1..] == T;
  }

  /** A value list is read back whatever follows it. */
  lemma ValueListReadsBack(values: seq<Expr>, follow: seq<Token> -> bool)
    requires ValidValueList(values)
    ensures C.ReadsBack(ParseValueList, PutValueList, values, follow)
  {
    forall R | StartsWith(R, COMMA) || follow(R)
      ensures ParseValueList(PutValueList(values, R)) == Some((values, R))
    {
      ValueListComplete(values, R);
    }
  }

  /** `column_list`: `"(" commaSeparated($.identifier) ")"`. */
  function PutColumnList(columns: seq<Identifier>, T: seq<Token>): seq<Token> {
    [Fixed(LPAREN)] + C.Separated(PutIdentifier, columns, [Fixed(RPAREN)] + T)
  }

  function ParseColumnList(ts: seq<Token>): (r: Option<(seq<Identifier>, seq<Token>)>)
    ensures r.Some? ==> ts == PutColumnList(r.value.0, r.value.1) && |r.value.1| < |ts|
  {
    if !StartsWith(ts, LPAREN) then None
    else
      IdentifierLists();
      C.CommaSeparatedSound(ParseIdentifier, PutIdentifier, (id: Identifier) => true, ts[1..]);
      match C.CommaSeparated(ParseIdentifier, ts[1..])
      case None => None
      case Some((columns, rest)) =>
        if StartsWith(rest, RPAREN) then
          assert rest == [Fixed(RPAREN)] + rest[1..];
          Some((columns, rest[1..]))
        else None
  }

  lemma ColumnListComplete(columns: seq<Identifier>, T: seq<Token>)
    ensures ParseColumnList(PutColumnList(columns, T)) == Some((columns, T))
  {
    var close := [Fixed(RPAREN)] + T;
    forall k | 0 <= k < |columns|
      ensures C.ReadsBack(ParseIdentifier, PutIdentifier, columns[k], Closing)
    {
      IdentifierReadsBack(columns[k], Closing);
    }
    IdentifierLists();
    C.CommaSeparatedComplete(ParseIdentifier, PutIdentifier, columns, Closing, close);
    assert PutColumnList(columns, T)[1..] == C.Separated(PutIdentifier, columns, close);
    assert close[1..] == T;
  }

  lemma ValueListsConsume()
    ensures C.Consumes(ParseValueList) && C.SoundFor(ParseValueList, PutValueList, ValidValueList)
  {
  }

  /** The rows of VALUES: one or more value lists, each admitted. */
  predicate ValidRows(rows: seq<seq<Expr>>) {
    |rows| >= 1 && forall i | 0 <= i < |rows| :: ValidValueList(rows[i])
  }

  function PutRowList(rows: seq<seq<Expr>>, T: seq<Token>): seq<Token> {
    C.Separated(PutValueList, rows, T)
  }

  /** `commaSeparated1($.value_list)`. */
  function ParseRowList(ts: seq<Token>): (r: Option<(seq<seq<Expr>>, seq<Token>)>)
    ensures r.Some? ==> ts == PutRowList(r.value.0, r.value.1) && ValidRows(r.value.0) && |r.value.1| < |ts|
  {
    ValueListsConsume();
    C.CommaSeparated1Sound(ParseValueList, PutValueList, ValidValueList, ts);
    C.CommaSeparated1(ParseValueList, ts)
  }

  /** Rows are read back whole when no comma follows them. */
  lemma RowListComplete(rows: seq<seq<Expr>>, T: seq<Token>)
    requires ValidRows(rows) && !StartsWith(T, COMMA)
    ensures ParseRowList(PutRowList(rows, T)) == Some((rows, T))
  {
    var always := (R: seq<Token>) => true;
    forall k | 0 <= k < |rows|
      ensures C.ReadsBack(ParseValueList, PutValueList, rows[k], always)
    {
      ValueListReadsBack(rows[k], always);
    }
    ValueListsConsume();
    C.CommaSeparated1Complete(ParseValueList, PutValueList, rows, always, T);
  }

  /** The column list, `VALUES` and its rows, then `ON DUPLICATE KEY
      UPDATE`, which the rule requires and which carries no assignments. */
  function PutInsertTail(columns: seq<Identifier>, rows: seq<seq<Expr>>, T: seq<Token>): seq<Token> {
    PutColumnList(columns, [K(VALUES)] + PutRowList(rows, [K(ON_DUPLICATE_KEY_UPDATE)] + T))
  }

  function PutInsert(ignore: bool, into: Identifier, columns: seq<Identifier>, rows: seq<seq<Expr>>, T: seq<Token>): seq<Token> {
    [K(INSERT)] + PutFlag(ignore, IGNORE, [K(INTO)] + PutIdentifier(into, PutInsertTail(columns, rows, T)))
  }

  function ParseInsertTail(ts: seq<Token>): (r: Option<(seq<Identifier>, seq<seq<Expr>>, seq<Token>)>)
    ensures r.Some? ==> ts == PutInsertTail(r.value.0, r.value.1, r.value.2) && ValidRows(r.value.1)
    ensures r.Some? ==> |r.value.2| < |ts|
  {
    match ParseColumnList(ts)
    case None => None
    case Some((columns, t0)) =>
      match Expect(t0, VALUES)
      case None => None
      case Some(t1) =>
        match ParseRowList(t1)
        case None => None
        case Some((rows, t2)) =>
          match Expect(t2, ON_DUPLICATE_KEY_UPDATE)
          case None => None
          case Some(rest) => Some((columns, rows, rest))
  }

  lemma InsertTailComplete(columns: seq<Identifier>, rows: seq<seq<Expr>>, T: seq<Token>)
    requires ValidRows(rows)
    ensures ParseInsertTail(PutInsertTail(columns, rows, T)) == Some((columns, rows, T))
  {
    var t2 := [K(ON_DUPLICATE_KEY_UPDATE)] + T;
    ExpectComplete(ON_DUPLICATE_KEY_UPDATE, T);
    RowListComplete(rows, t2);
    ExpectComplete(VALUES, PutRowList(rows, t2));
    ColumnListComplete(columns, [K(VALUES)] + PutRowList(rows, t2));
  }

  function ParseInsert(ts: seq<Token>): (r: Option<(StatementBody, seq<Token>)>)
    ensures r.Some? ==> r.value.0.Insert? && ValidRows(r.value.0.rows)
    ensures r.Some? ==> ts == PutInsert(r.value.0.ignore, r.value.0.into, r.value.0.columns, r.value.0.rows, r.value.1)
    ensures r.Some? ==> |r.value.1| < |ts|
  {
    match Expect(ts, INSERT)
    case None => None
    case Some(t0) =>
      var (ignore, t1) := ParseFlag(t0, IGNORE);
      match Expect(t1, INTO)
      case None => None
      case Some(t2) =>
        match ParseIdentifier(t2)
        case None => None
        case Some((into, t3)) =>
          match ParseInsertTail(t3)
          case None => None
          case Some((columns, rows, rest)) => Some((Insert(ignore, into, columns, rows), rest))
  }

  lemma InsertComplete(ignore: bool, into: Identifier, columns: seq<Identifier>, rows: seq<seq<Expr>>, T: seq<Token>)
    requires ValidRows(rows)
    ensures ParseInsert(PutInsert(ignore, into, columns, rows, T)) == Some((Insert(ignore, into, columns, rows), T))
  {
    var R := PutInsertTail(columns, rows, T);
    InsertTailComplete(columns, rows, T);
    IdentifierRoundTrip(into, R);
    ExpectComplete(INTO, PutIdentifier(into, R));
    FlagComplete(ignore, IGNORE, [K(INTO)] + PutIdentifier(into, R));
    ExpectComplete(INSERT, PutFlag(ignore, IGNORE, [K(INTO)] + PutIdentifier(into, R)));
  }

  /** `ON DUPLICATE KEY UPDATE` is required: rows followed by the end of
      the statement are not read. */
  lemma InsertNeedsDuplicateClause(columns: seq<Identifier>, rows: seq<seq<Expr>>, T: seq<Token>)
    requires ValidRows(rows) && StatementEnd(T)
    ensures ParseInsertTail(PutColumnList(columns, [K(VALUES)] + PutRowList(rows, T))).None?
  {
    var V := [K(VALUES)] + PutRowList(rows, T);
    assert ParseColumnList(PutColumnList(columns, V)) == Some((columns, V)) by {
      ColumnListComplete(columns, V);
    }
    assert Expect(V, VALUES) == Some(PutRowList(rows, T)) by {
      ExpectComplete(VALUES, PutRowList(rows, T));
    }
    assert ParseRowList(PutRowList(rows, T)) == Some((rows, T)) by {
      EndIsBoundary(T);
      RowListComplete(rows, T);
    }
  }

  /** `INSERT INTO t () VALUES ()` followed by the duplicate-key clause is
      the printing of an insert with empty column and value lists. */
  lemma EmptyListsPrinting(into: Identifier, T: seq<Token>)
    ensures PutInsert(false, into, [], [[]], T)
      == [K(INSERT), K(INTO)] + (PrintIdentifier(into)
         + ([Fixed(LPAREN), Fixed(RPAREN), K(VALUES), Fixed(LPAREN), Fixed(RPAREN), K(ON_DUPLICATE_KEY_UPDATE)] + T))
  {
    var D := [K(ON_DUPLICATE_KEY_UPDATE)] + T;
    var V := [K(VALUES)] + PutRowList([[]], D);
    assert PutRowList([[]], D) == [Fixed(LPAREN)] + ([Fixed(RPAREN)] + D) by {
      EmptyParentheses(D);
    }
    assert PutInsertTail([], [[]], T) == [Fixed(LPAREN)] + ([Fixed(RPAREN)] + V) by {
      EmptyParentheses(V);
    }
    var tail := [Fixed(LPAREN), Fixed(RPAREN), K(VALUES), Fixed(LPAREN), Fixed(RPAREN), K(ON_DUPLICATE_KEY_UPDATE)] + T;
    Flatten(Fixed(LPAREN), Fixed(RPAREN), K(VALUES), Fixed(LPAREN), Fixed(RPAREN), K(ON_DUPLICATE_KEY_UPDATE), T);
    assert [K(INSERT)] + ([K(INTO)] + (PrintIdentifier(into) + tail))
      == [K(INSERT), K(INTO)] + (PrintIdentifier(into) + tail);
  }

  /** Empty column and value lists print as `()`. */
  lemma EmptyParentheses(T: seq<Token>)
    ensures PutValueList([], T) == [Fixed(LPAREN)] + ([Fixed(RPAREN)] + T)
    ensures PutColumnList([], T) == [Fixed(LPAREN)] + ([Fixed(RPAREN)] + T)
    ensures PutRowList([[]], T) == PutValueList([], T)
  {
  }

  lemma Flatten(a: Token, b: Token, c: Token, d: Token, e: Token, f: Token, T: seq<Token>)
    ensures [a] + ([b] + ([c] + ([d] + ([e] + ([f] + T))))) == [a, b, c, d, e, f] + T
  {
  }

  /** Empty column and value lists are accepted: `INSERT INTO t () VALUES
      ()` followed by the duplicate-key clause is read. */
  lemma EmptyListsAccepted(into: Identifier, T: seq<Token>)
    ensures ParseInsert([K(INSERT), K(INTO)] + (PrintIdentifier(into)
         + ([Fixed(LPAREN), Fixed(RPAREN), K(VALUES), Fixed(LPAREN), Fixed(RPAREN), K(ON_DUPLICATE_KEY_UPDATE)] + T)))
      == Some((Insert(false, into, [], [[]]), T))
  {
    EmptyListsPrinting(into, T);
    assert ValidRows([[]]) by {
      assert ValidValueList([]);
    }
    InsertComplete(false, into, [], [[]], T);
  }

  // ---------------------------------------------------------------------
  // statement

  function PutBody(b: StatementBody, T: seq<Token>): seq<Token> {
    match b
    case SelectStatement(q) => PutSelect(q, T)
    case Update(t, w, o, l) => PutUpdate(t, Filter(w, o, l), T)
    case Delete(t, w, o, l) => PutDelete(t, Filter(w, o, l), T)
    case DropTable(temporary, ifExists, t) => PutDrop(temporary, ifExists, t, T)
    case TruncateTable(withTable, t) => PutTruncate(withTable, t, T)
    case Insert(ignore, into, columns, rows) => PutInsert(ignore, into, columns, rows, T)
    case CreateTable(ifNotExists, name, definitions) => PutCreateTable(ifNotExists, name, definitions, T)
    case ShowTables(extended, full, database, like) => PutShow(extended, full, database, like, T)
  }

  /** The statement trees the rules admit. */
  predicate ValidBody(b: StatementBody) {
    match b
    case SelectStatement(q) => ValidSelect(q)
    case Update(_, w, o, _) => WF(w) && ValidOrderBy(o)
    case Delete(_, w, o, _) => WF(w) && ValidOrderBy(o)
    case Insert(_, _, _, rows) => ValidRows(rows)
    case CreateTable(_, _, definitions) => ValidDefinitions(definitions)
    case _ => true
  }

  /** The keyword each statement kind begins with. */
  function BodyKeyword(b: StatementBody): (k: Keyword)
    ensures IsStatementKeyword(k)
  {
    match b
    case SelectStatement(_) => SELECT
    case Update(_, _, _, _) => UPDATE
    case Delete(_, _, _, _) => DELETE_FROM
    case DropTable(_, _, _) => DROP
    case TruncateTable(_, _) => TRUNCATE
    case Insert(_, _, _, _) => INSERT
    case CreateTable(_, _, _) => CREATE_TABLE
    case ShowTables(_, _, _, _) => SHOW
  }

  lemma BodyHead(b: StatementBody, T: seq<Token>)
    ensures At(PutBody(b, T), BodyKeyword(b))
  {
  }

  function SelectBody(ts: seq<Token>): (r: Option<(StatementBody, seq<Token>)>)
    ensures r.Some? ==> |r.value.1| < |ts|
  {
    match ParseSelect(ts)
    case None => None
    case Some((q, rest)) => Some((SelectStatement(q), rest))
  }

  function UpdateBody(ts: seq<Token>): (r: Option<(StatementBody, seq<Token>)>)
    ensures r.Some? ==> |r.value.1| < |ts|
  {
    match ParseUpdate(ts)
    case None => None
    case Some((t, f, rest)) => Some((Update(t, f.where, f.orderBy, f.limit), rest))
  }

  function DeleteBody(ts: seq<Token>): (r: Option<(StatementBody, seq<Token>)>)
    ensures r.Some? ==> |r.value.1| < |ts|
  {
    match ParseDelete(ts)
    case None => None
    case Some((t, f, rest)) => Some((Delete(t, f.where, f.orderBy, f.limit), rest))
  }

  /** The choice among the eight statements, made on the first keyword:
      what it reads is a statement of the rules, printed, that begins with
      its kind's keyword, and nothing is read without such a keyword. */
  function ParseBody(ts: seq<Token>): (r: Option<(StatementBody, seq<Token>)>)
    ensures r.Some? ==> |r.value.1| < |ts|
    ensures r.Some? ==>
      ts == PutBody(r.value.0, r.value.1) && ValidBody(r.value.0) && At(ts, BodyKeyword(r.value.0))
    ensures !(|ts| > 0 && ts[0].Reserved? && IsStatementKeyword(ts[0].keyword)) ==> r.None?
  {
    if At(ts, SELECT) then SelectBody(ts)
    else if At(ts, UPDATE) then UpdateBody(ts)
    else if At(ts, DELETE_FROM) then DeleteBody(ts)
    else if At(ts, DROP) then ParseDrop(ts)
    else if At(ts, TRUNCATE) then ParseTruncate(ts)
    else if At(ts, INSERT) then ParseInsert(ts)
    else if At(ts, CREATE_TABLE) then ParseCreateTable(ts)
    else if At(ts, SHOW) then ParseShow(ts)
    else None
  }

  /** The keyword that hands the tokens to each statement's reader. */
  lemma BodyRoute(ts: seq<Token>)
    ensures At(ts, SELECT) ==> ParseBody(ts) == SelectBody(ts)
    ensures At(ts, UPDATE) ==> ParseBody(ts) == UpdateBody(ts)
    ensures At(ts, DELETE_FROM) ==> ParseBody(ts) == DeleteBody(ts)
    ensures At(ts, DROP) ==> ParseBody(ts) == ParseDrop(ts)
    ensures At(ts, TRUNCATE) ==> ParseBody(ts) == ParseTruncate(ts)
    ensures At(ts, INSERT) ==> ParseBody(ts) == ParseInsert(ts)
    ensures At(ts, CREATE_TABLE) ==> ParseBody(ts) == ParseCreateTable(ts)
    ensures At(ts, SHOW) ==> ParseBody(ts) == ParseShow(ts)
  {
  }

  lemma SelectBodyComplete(q: Select, T: seq<Token>)
    requires ValidSelect(q) && StatementEnd(T)
    ensures ParseBody(PutSelect(q, T)) == Some((SelectStatement(q), T))
  {
    SelectComplete(q, T);
    BodyRoute(PutSelect(q, T));
  }

  lemma UpdateBodyComplete(t: TableName, w: Expr, o: seq<OrderItem>, l: string, T: seq<Token>)
    requires WF(w) && ValidOrderBy(o) && StatementEnd(T)
    ensures ParseBody(PutUpdate(t, Filter(w, o, l), T)) == Some((Update(t, w, o, l), T))
  {
    UpdateComplete(t, Filter(w, o, l), T);
    BodyRoute(PutUpdate(t, Filter(w, o, l), T));
  }

  lemma DeleteBodyComplete(t: TableName, w: Expr, o: seq<OrderItem>, l: string, T: seq<Token>)
    requires WF(w) && ValidOrderBy(o) && StatementEnd(T)
    ensures ParseBody(PutDelete(t, Filter(w, o, l), T)) == Some((Delete(t, w, o, l), T))
  {
    DeleteComplete(t, Filter(w, o, l), T);
    BodyRoute(PutDelete(t, Filter(w, o, l), T));
  }

  lemma DropBodyComplete(temporary: bool, ifExists: bool, t: TableName, T: seq<Token>)
    requires StatementEnd(T)
    ensures ParseBody(PutDrop(temporary, ifExists, t, T)) == Some((DropTable(temporary, ifExists, t), T))
  {
    EndIsBoundary(T);
    DropComplete(temporary, ifExists, t, T);
    BodyRoute(PutDrop(temporary, ifExists, t, T));
  }

  lemma TruncateBodyComplete(withTable: bool, t: TableName, T: seq<Token>)
    requires StatementEnd(T)
    ensures ParseBody(PutTruncate(withTable, t, T)) == Some((TruncateTable(withTable, t), T))
  {
    EndIsBoundary(T);
    TruncateComplete(withTable, t, T);
    BodyRoute(PutTruncate(withTable, t, T));
  }

  lemma InsertBodyComplete(ignore: bool, into: Identifier, columns: seq<Identifier>, rows: seq<seq<Expr>>, T: seq<Token>)
    requires ValidRows(rows) && StatementEnd(T)
    ensures ParseBody(PutInsert(ignore, into, columns, rows, T)) == Some((Insert(ignore, into, columns, rows), T))
  {
    InsertComplete(ignore, into, columns, rows, T);
    BodyRoute(PutInsert(ignore, into, columns, rows, T));
  }

  lemma CreateBodyComplete(ifNotExists: bool, name: Identifier, definitions: seq<CreateDefinition>, T: seq<Token>)
    requires ValidDefinitions(definitions) && StatementEnd(T)
    ensures ParseBody(PutCreateTable(ifNotExists, name, definitions, T)) == Some((CreateTable(ifNotExists, name, definitions), T))
  {
    CreateTableComplete(ifNotExists, name, definitions, T);
    BodyRoute(PutCreateTable(ifNotExists, name, definitions, T));
  }

  lemma ShowBodyComplete(extended: bool, full: bool, database: Option<(ShowSource, Identifier)>, like: Option<string>, T: seq<Token>)
    requires StatementEnd(T)
    ensures ParseBody(PutShow(extended, full, database, like, T)) == Some((ShowTables(extended, full, database, like), T))
  {
    ShowComplete(extended, full, database, like, T);
    BodyRoute(PutShow(extended, full, database, like, T));
  }

  /** Before the end of a statement, every admitted statement body is read
      back from its printing. */
  lemma BodyComplete(b: StatementBody, T: seq<Token>)
    requires ValidBody(b) && StatementEnd(T)
    ensures ParseBody(PutBody(b, T)) == Some((b, T))
  {
    match b
    case SelectStatement(q) => SelectBodyComplete(q, T);
    case Update(t, w, o, l) => UpdateBodyComplete(t, w, o, l, T);
    case Delete(t, w, o, l) => DeleteBodyComplete(t, w, o, l, T);
    case DropTable(temporary, ifExists, t) => DropBodyComplete(temporary, ifExists, t, T);
    case TruncateTable(withTable, t) => TruncateBodyComplete(withTable, t, T);
    case Insert(ignore, into, columns, rows) => InsertBodyComplete(ignore, into, columns, rows, T);
    case CreateTable(ifNotExists, name, definitions) => CreateBodyComplete(ifNotExists, name, definitions, T);
    case ShowTables(extended, full, database, like) => ShowBodyComplete(extended, full, database, like, T);
  }

  /** Before the end of a statement, the choice reads exactly the printings
      of admitted statements. */
  lemma BodyIff(ts: seq<Token>, b: StatementBody, T: seq<Token>)
    requires StatementEnd(T)
    ensures ParseBody(ts) == Some((b, T)) <==> ts == PutBody(b, T) && ValidBody(b)
  {
    if ts == PutBody(b, T) && ValidBody(b) {
      BodyComplete(b, T);
    }
  }

  /** `optional(choice(";", "\\G"))`. */
  function TerminatorToken(t: Terminator): Token {
    match t
    case Semicolon => Fixed(SEMICOLON)
    case BackslashG => Fixed(BACKSLASH_G)
  }

  function PutTerminator(t: Terminator, T: seq<Token>): seq<Token> {
    [TerminatorToken(t)] + T
  }

  function ParseTerminator(ts: seq<Token>): (r: Option<(Terminator, seq<Token>)>)
    ensures r.Some? ==> ts == PutTerminator(r.value.0, r.value.1) && |r.value.1| < |ts|
  {
    if StartsWith(ts, SEMICOLON) then
      assert ts == [Fixed(SEMICOLON)] + ts[1..];
      Some((Semicolon, ts[1..]))
    else if StartsWith(ts, BACKSLASH_G) then
      assert ts == [Fixed(BACKSLASH_G)] + ts[1..];
      Some((BackslashG, ts[1..]))
    else None
  }

  lemma TerminatorConsumes()
    ensures C.Consumes(ParseTerminator)
  {
  }

  function PutStatement(s: Statement, T: seq<Token>): seq<Token> {
    PutBody(s.body, C.PutOptional(PutTerminator, s.terminator, T))
  }

  /** `statement`: a statement body and its optional terminator. */
  function ParseStatement(ts: seq<Token>): (r: Option<(Statement, seq<Token>)>)
    ensures r.Some? ==> |r.value.1| < |ts|
  {
    match ParseBody(ts)
    case None => None
    case Some((b, rest)) =>
      TerminatorConsumes();
      var (terminator, rest') := C.Optional(ParseTerminator, rest);
      Some((Statement(b, terminator), rest'))
  }

  lemma StatementSound(ts: seq<Token>)
    ensures var r := ParseStatement(ts);
      r.Some? ==> ts == PutStatement(r.value.0, r.value.1) && ValidBody(r.value.0.body)
  {
    match ParseBody(ts)
    case None =>
    case Some((b, rest)) =>
      TerminatorConsumes();
      C.OptionalSound(ParseTerminator, PutTerminator, (t: Terminator) => true, rest);
  }

  /** What may come after a statement in a source file: nothing, or the
      keyword of the next statement. */
  predicate NextStatement(ts: seq<Token>) {
    |ts| == 0 || (ts[0].Reserved? && IsStatementKeyword(ts[0].keyword))
  }

  /** The optional terminator is read back before the next statement, and
      what it leaves may end a statement body. */
  lemma TerminatorComplete(terminator: Option<Terminator>, T: seq<Token>)
    requires NextStatement(T)
    ensures var R := C.PutOptional(PutTerminator, terminator, T);
      StatementEnd(R) && C.Optional(ParseTerminator, R) == (terminator, T)
  {
    TerminatorConsumes();
    if terminator.Some? {
      assert PutTerminator(terminator.value, T)[1..] == T;
    }
    C.OptionalComplete(ParseTerminator, PutTerminator, terminator, T);
  }

  lemma StatementComplete(s: Statement, T: seq<Token>)
    requires ValidBody(s.body) && NextStatement(T)
    ensures ParseStatement(PutStatement(s, T)) == Some((s, T))
  {
    var R := C.PutOptional(PutTerminator, s.terminator, T);
    TerminatorComplete(s.terminator, T);
    BodyComplete(s.body, R);
  }

  /** A statement begins with its body's keyword. */
  lemma StatementHead(s: Statement, T: seq<Token>)
    ensures NextStatement(PutStatement(s, T)) && |PutStatement(s, T)| > 0
  {
    BodyHead(s.body, C.PutOptional(PutTerminator, s.terminator, T));
  }

  // ---------------------------------------------------------------------
  // source_file

  predicate ValidStatements(ss: seq<Statement>) {
    forall i | 0 <= i < |ss| :: ValidBody(ss[i].body)
  }

  function PutSourceFile(ss: seq<Statement>): seq<Token> {
    if |ss| == 0 then [] else PutStatement(ss[0], PutSourceFile(ss[1..]))
  }

  /** `repeat($.statement)` over the whole input: the statements, or
      nothing when some part of the input is not a statement. */
  function ParseSourceFile(ts: seq<Token>): (r: Option<seq<Statement>>)
    ensures r.Some? && |ts| > 0 ==> |r.value| > 0
    decreases |ts|
  {
    if |ts| == 0 then Some([])
    else
      match ParseStatement(ts)
      case None => None
      case Some((s, rest)) =>
        match ParseSourceFile(rest)
        case None => None
        case Some(ss) => Some([s] + ss)
  }

  lemma {:induction false} SourceFileSound(ts: seq<Token>)
    ensures var r := ParseSourceFile(ts); r.Some? ==> ts == PutSourceFile(r.value) && ValidStatements(r.value)
    decreases |ts|
  {
    if |ts| > 0 {
      StatementSound(ts);
      match ParseStatement(ts)
      case None =>
      case Some((s, rest)) =>
        SourceFileSound(rest);
        if ParseSourceFile(rest).Some? {
          var ss := ParseSourceFile(rest).value;
          assert ([s] + ss)[1..] == ss;
          assert ([s] + ss)[0] == s;
          assert ValidStatements([s] + ss) by {
            forall i | 0 <= i < |[s] + ss| ensures ValidBody(([s] + ss)[i].body) {
              if i > 0 {
                assert ([s] + ss)[i] == ss[i - 1];
              }
            }
          }
        }
    }
  }

  /** One more admitted statement in front of a source file that is read
      back is read back with it. */
  lemma SourceFileStep(s: Statement, ss: seq<Statement>)
    requires ValidBody(s.body) && ParseSourceFile(PutSourceFile(ss)) == Some(ss)
    ensures ParseSourceFile(PutStatement(s, PutSourceFile(ss))) == Some([s] + ss)
  {
    var T := PutSourceFile(ss);
    if |ss| > 0 {
      StatementHead(ss[0], PutSourceFile(ss[1..]));
    }
    StatementComplete(s, T);
    StatementHead(s, T);
  }

  lemma {:induction false} SourceFileComplete(ss: seq<Statement>)
    requires ValidStatements(ss)
    ensures ParseSourceFile(PutSourceFile(ss)) == Some(ss)
    decreases |ss|
  {
    if |ss| > 0 {
      ValidStatementsTail(ss);
      SourceFileComplete(ss[1..]);
      SourceFileStep(ss[0], ss[1..]);
      assert [ss[0]] + ss[1..] == ss;
    }
  }

  lemma ValidStatementsTail(ss: seq<Statement>)
    requires |ss| > 0 && ValidStatements(ss)
    ensures ValidBody(ss[0].body) && ValidStatements(ss[1..])
  {
    forall i | 0 <= i < |ss[1..]| ensures ValidBody(ss[1..][i].body) {
      assert ss[1..][i] == ss[i + 1];
    }
  }

  /** A token sequence is read as a source file exactly when it is the
      printing of admitted statements. */
  lemma SourceFileIff(ts: seq<Token>, ss: seq<Statement>)
    ensures ParseSourceFile(ts) == Some(ss) <==> ts == PutSourceFile(ss) && ValidStatements(ss)
  {
    SourceFileSound(ts);
    if ts == PutSourceFile(ss) && ValidStatements(ss) {
      SourceFileComplete(ss);
    }
  }

  /** Different admitted statement sequences print differently. */
  lemma SourceFileInjective(ss1: seq<Statement>, ss2: seq<Statement>)
    requires ValidStatements(ss1) && ValidStatements(ss2)
    requires PutSourceFile(ss1) == PutSourceFile(ss2)
    ensures ss1 == ss2
  {
    SourceFileComplete(ss1);
    SourceFileComplete(ss2);
  }
}
