/** `select_statement` and `table_references`, which contain each other
    through a parenthesised select in place of a table. */
module Queries {
  import opened Wrappers
  import opened Tokens
  import C = Combinators
  import S = Sequences
  import opened Expressions
  import opened StatementSyntax
  import opened Clauses

  function ParseSelect(ts: seq<Token>): (r: Option<(Select, seq<Token>)>)
    ensures r.Some? ==> ts == PutSelect(r.value.0, r.value.1) && ValidSelect(r.value.0) && |r.value.1| < |ts|
    decreases |ts|, 3
  {
    if !At(ts, SELECT) then None
    else
      match ParseSelectExpression(ts[1..])
      case None => None
      case Some((items, rest)) =>
        if !At(rest, FROM) then None
        else
          match ParseTableReferences(rest[1..])
          case None => None
          case Some((from, rest')) =>
            var (clauses, rest'') := ParseClauses(rest');
            SelectPrinted(Select(items, from, clauses), ts, rest, rest', rest'');
            Some((Select(items, from, clauses), rest''))
  }

  lemma SelectPrinted(s: Select, ts: seq<Token>, rest: seq<Token>, rest': seq<Token>, rest'': seq<Token>)
    requires At(ts, SELECT) && ts[1..] == PutSelectExpression(s.items, rest)
    requires At(rest, FROM) && rest[1..] == PutTableReferences(s.from, rest')
    requires rest' == PutClauses(s.clauses, rest'')
    ensures ts == PutSelect(s, rest'')
  {
    S.HeadTail(rest);
    S.HeadTail(ts);
  }

  function ParseTableReferences(ts: seq<Token>): (r: Option<(TableReferences, seq<Token>)>)
    ensures r.Some? ==> ts == PutTableReferences(r.value.0, r.value.1) && ValidTableReferences(r.value.0)
    ensures r.Some? ==> |r.value.1| < |ts|
    decreases |ts|, 2
  {
    match ParseTableFactor(ts)
    case None => None
    case Some((factor, rest)) =>
      JoinConsumes();
      var (join, rest') := C.Optional(ParseJoin, rest);
      Some((TableReferences(factor, join), rest'))
  }

  /** A named table with an optional alias, or a parenthesised select and
      the alias it requires. */
  function ParseTableFactor(ts: seq<Token>): (r: Option<(TableFactor, seq<Token>)>)
    ensures r.Some? ==> ts == PutTableFactor(r.value.0, r.value.1) && ValidTableFactor(r.value.0)
    ensures r.Some? ==> |r.value.1| < |ts|
    decreases |ts|, 1
  {
    if StartsWith(ts, LPAREN) then ParseSubquery(ts) else ParseNamedTable(ts)
  }

  function ParseSubquery(ts: seq<Token>): (r: Option<(TableFactor, seq<Token>)>)
    requires StartsWith(ts, LPAREN)
    ensures r.Some? ==> ts == PutTableFactor(r.value.0, r.value.1) && ValidTableFactor(r.value.0)
    ensures r.Some? ==> |r.value.1| < |ts|
    decreases |ts|, 0
  {
    match ParseSelect(ts[1..])
    case None => None
    case Some((q, rest)) =>
      if !StartsWith(rest, RPAREN) then None
      else
        match ParseAlias(rest[1..])
        case None => None
        case Some((alias, rest')) =>
          SubqueryPrinted(q, alias, ts, rest, rest');
          Some((Subquery(q, alias), rest'))
  }

  lemma SubqueryPrinted(q: Select, alias: Alias, ts: seq<Token>, rest: seq<Token>, rest': seq<Token>)
    requires StartsWith(ts, LPAREN) && ts[1..] == PutSelect(q, rest)
    requires StartsWith(rest, RPAREN) && rest[1..] == PutAlias(alias, rest')
    ensures ts == PutTableFactor(Subquery(q, alias), rest')
  {
    S.HeadTail(rest);
    S.HeadTail(ts);
  }

  function ParseNamedTable(ts: seq<Token>): (r: Option<(TableFactor, seq<Token>)>)
    ensures r.Some? ==> r.value.0.Named? && ts == PutTableFactor(r.value.0, r.value.1) && |r.value.1| < |ts|
  {
    match ParseTableName(ts)
    case None => None
    case Some((t, rest)) =>
      AliasConsumes();
      var (alias, rest') := C.Optional(ParseAlias, rest);
      Some((Named(t, alias), rest'))
  }

  lemma JoinConsumes()
    ensures C.Consumes(ParseJoin)
  {
  }

  /** A join begins with a keyword other than `AS`. */
  lemma JoinStartsWithKeyword(j: JoinClause, T: seq<Token>)
    ensures Boundary(PutJoin(j, T)) && !StartsWith(PutJoin(j, T), COMMA)
  {
    assert PutJoin(j, T)[0] == JoinKeywords(j)[0];
  }

  lemma {:induction false} SelectComplete(s: Select, T: seq<Token>)
    requires ValidSelect(s) && StatementEnd(T)
    ensures ParseSelect(PutSelect(s, T)) == Some((s, T))
    decreases s, 3
  {
    var R3 := PutClauses(s.clauses, T);
    ClausesComplete(s.clauses, T);
    var R2 := PutTableReferences(s.from, R3);
    TableReferencesComplete(s.from, R3);
    var R1 := [K(FROM)] + R2;
    SelectExpressionComplete(s.items, R1);
    assert R1[1..] == R2;
    assert PutSelect(s, T)[1..] == PutSelectExpression(s.items, R1);
  }

  lemma {:induction false} TableReferencesComplete(r: TableReferences, T: seq<Token>)
    requires ValidTableReferences(r) && ClauseRank(T) >= 1
    ensures ParseTableReferences(PutTableReferences(r, T)) == Some((r, T))
    decreases r, 2
  {
    var R := C.PutOptional(PutJoin, r.join, T);
    RankedBoundary(T);
    if r.join.Some? {
      JoinComplete(r.join.value, T);
      JoinStartsWithKeyword(r.join.value, T);
    } else {
      NoJoinAtClause(T);
    }
    TableFactorComplete(r.factor, R);
    JoinConsumes();
    C.OptionalComplete(ParseJoin, PutJoin, r.join, T);
  }

  lemma {:induction false} TableFactorComplete(f: TableFactor, T: seq<Token>)
    requires ValidTableFactor(f) && Boundary(T)
    ensures ParseTableFactor(PutTableFactor(f, T)) == Some((f, T))
    decreases f, 0
  {
    match f
    case Named(t, alias) =>
      NamedTableComplete(t, alias, T);
      NamedTableStart(t, C.PutOptional(PutAlias, alias, T));
    case Subquery(q, alias) =>
      var R := [Fixed(RPAREN)] + PutAlias(alias, T);
      SelectComplete(q, R);
      SubqueryRead(q, alias, T);
  }

  lemma NamedTableComplete(t: TableName, alias: Option<Alias>, T: seq<Token>)
    requires Boundary(T)
    ensures ParseNamedTable(PutTableFactor(Named(t, alias), T)) == Some((Named(t, alias), T))
  {
    var R := C.PutOptional(PutAlias, alias, T);
    BoundaryEnds(T);
    if alias.Some? {
      AliasComplete(alias.value, T);
    }
    TableNameComplete(t, R);
    AliasConsumes();
    C.OptionalComplete(ParseAlias, PutAlias, alias, T);
  }

  /** A subquery is read back once its select is. */
  lemma {:induction false} SubqueryRead(q: Select, alias: Alias, T: seq<Token>)
    requires var R := [Fixed(RPAREN)] + PutAlias(alias, T); ParseSelect(PutSelect(q, R)) == Some((q, R))
    ensures ParseTableFactor(PutTableFactor(Subquery(q, alias), T)) == Some((Subquery(q, alias), T))
  {
    var R := [Fixed(RPAREN)] + PutAlias(alias, T);
    var ts := PutTableFactor(Subquery(q, alias), T);
    AliasComplete(alias, T);
    S.ConsParts(Fixed(LPAREN), PutSelect(q, R));
    S.ConsParts(Fixed(RPAREN), PutAlias(alias, T));
    assert ParseTableFactor(ts) == ParseSubquery(ts);
  }

  /** A table name does not begin with `(`. */
  lemma NamedTableStart(t: TableName, T: seq<Token>)
    ensures !StartsWith(PutTableName(t, T), LPAREN)
  {
    var id := if t.database.Some? then t.database.value else t.name;
    assert PutTableName(t, T)[0] == PrintIdentifier(id)[0];
  }

  /** Before the end of a statement, a select is read exactly from the
      printing of a tree the rules admit. */
  lemma SelectIff(ts: seq<Token>, s: Select, T: seq<Token>)
    requires StatementEnd(T)
    ensures ParseSelect(ts) == Some((s, T)) <==> ts == PutSelect(s, T) && ValidSelect(s)
  {
    if ts == PutSelect(s, T) && ValidSelect(s) {
      SelectComplete(s, T);
    }
  }

  /** A parenthesised select in place of a table needs its alias: without
      one the table references are not read. */
  lemma SubqueryNeedsAlias(q: Select, T: seq<Token>)
    requires ValidSelect(q) && Boundary(T)
    ensures ParseTableFactor([Fixed(LPAREN)] + PutSelect(q, [Fixed(RPAREN)] + T)) == None
    ensures ParseTableReferences([Fixed(LPAREN)] + PutSelect(q, [Fixed(RPAREN)] + T)) == None
  {
    var R := [Fixed(RPAREN)] + T;
    SelectComplete(q, R);
    BoundaryEnds(T);
    assert ([Fixed(LPAREN)] + PutSelect(q, R))[1..] == PutSelect(q, R);
    assert R[1..] == T;
  }
}
