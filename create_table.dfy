/** `create_table_statement` and the rules it is built from: `data_type`,
    `column_definition` and `create_definition`. */
module CreateTables {
  import opened Wrappers
  import opened Tokens
  import C = Combinators
  import S = Sequences
  import opened Expressions
  import opened ExpressionTrees
  import opened ExpressionBinding
  import opened StatementSyntax
  import opened Clauses

  // ---------------------------------------------------------------------
  // data_type

  /** The type names that take a length in parentheses. */
  predicate IsSizedWord(w: TypeWord) {
    w == CHAR || w == VARCHAR || w == BINARY || w == VARBINARY
  }

  /** The data types of the rule: a bare name is neither a sized one nor
      `ENUM`, and the value lists of `ENUM` and `SET` are not empty. */
  predicate ValidDataType(d: DataType) {
    match d
    case Plain(w) => !IsSizedWord(w) && w != ENUM
    case YearType => true
    case Sized(w, _) => IsSizedWord(w)
    case EnumType(values) => |values| >= 1
    case SetType(values) => |values| >= 1
  }

  /** `"(" commaSeparated1($.string) ")"`. */
  function PutStringList(values: seq<string>, T: seq<Token>): seq<Token> {
    [Fixed(LPAREN)] + C.Separated(PutString, values, [Fixed(RPAREN)] + T)
  }

  function PutDataType(d: DataType, T: seq<Token>): seq<Token> {
    match d
    case Plain(w) => [TypeName(w)] + T
    case YearType => [Fixed(YEAR)] + T
    case Sized(w, n) => [TypeName(w), Fixed(LPAREN), Integer(n), Fixed(RPAREN)] + T
    case EnumType(values) => [TypeName(ENUM)] + PutStringList(values, T)
    case SetType(values) => [K(SET)] + PutStringList(values, T)
  }

  function ParseString(ts: seq<Token>): (r: Option<(string, seq<Token>)>)
    ensures r.Some? ==> ts == PutString(r.value.0, r.value.1) && |r.value.1| < |ts|
  {
    if |ts| > 0 && ts[0].Str? then
      assert ts == [Str(ts[0].text)] + ts[1..];
      Some((ts[0].text, ts[1..]))
    else None
  }

  lemma StringLists()
    ensures C.Consumes(ParseString) && C.SoundFor(ParseString, PutString, (s: string) => true)
  {
  }

  function ParseStringList(ts: seq<Token>): (r: Option<(seq<string>, seq<Token>)>)
    ensures r.Some? ==> ts == PutStringList(r.value.0, r.value.1) && |r.value.0| >= 1 && |r.value.1| < |ts|
  {
    if !StartsWith(ts, LPAREN) then None
    else
      StringLists();
      C.CommaSeparated1Sound(ParseString, PutString, (s: string) => true, ts[1..]);
      match C.CommaSeparated1(ParseString, ts[1..])
      case None => None
      case Some((values, rest)) =>
        if StartsWith(rest, RPAREN) then
          assert rest == [Fixed(RPAREN)] + rest[1..];
          Some((values, rest[1..]))
        else None
  }

  lemma StringListComplete(values: seq<string>, T: seq<Token>)
    requires |values| >= 1
    ensures ParseStringList(PutStringList(values, T)) == Some((values, T))
  {
    var close := [Fixed(RPAREN)] + T;
    forall k | 0 <= k < |values|
      ensures C.ReadsBack(ParseString, PutString, values[k], Closing)
    {
    }
    StringLists();
    C.CommaSeparated1Complete(ParseString, PutString, values, Closing, close);
    assert PutStringList(values, T)[1..] == C.Separated(PutString, values, close);
    assert close[1..] == T;
  }

  function ParseDataType(ts: seq<Token>): (r: Option<(DataType, seq<Token>)>)
    ensures r.Some? ==> ts == PutDataType(r.value.0, r.value.1) && ValidDataType(r.value.0) && |r.value.1| < |ts|
  {
    if |ts| == 0 then None
    else if ts[0] == Fixed(YEAR) then Some((YearType, ts[1..]))
    else if ts[0] == K(SET) then
      match ParseStringList(ts[1..])
      case None => None
      case Some((values, rest)) => Some((SetType(values), rest))
    else if !ts[0].TypeName? then None
    else if ts[0].typeWord == ENUM then
      match ParseStringList(ts[1..])
      case None => None
      case Some((values, rest)) => Some((EnumType(values), rest))
    else if IsSizedWord(ts[0].typeWord) then
      if |ts| >= 4 && ts[1] == Fixed(LPAREN) && ts[2].Integer? && ts[3] == Fixed(RPAREN) then
        assert ts == [ts[0], ts[1], ts[2], ts[3]] + ts[4..];
        Some((Sized(ts[0].typeWord, ts[2].text), ts[4..]))
      else None
    else Some((Plain(ts[0].typeWord), ts[1..]))
  }

  /** An admitted data type is read back whatever follows it. */
  lemma DataTypeComplete(d: DataType, T: seq<Token>)
    requires ValidDataType(d)
    ensures ParseDataType(PutDataType(d, T)) == Some((d, T))
  {
    match d
    case Plain(w) =>
      assert PutDataType(d, T)[1..] == T;
    case YearType =>
      assert PutDataType(d, T)[1..] == T;
    case Sized(w, n) =>
      assert PutDataType(d, T)[4..] == T;
    case EnumType(values) =>
      StringListComplete(values, T);
      assert PutDataType(d, T)[1..] == PutStringList(values, T);
    case SetType(values) =>
      StringListComplete(values, T);
      assert PutDataType(d, T)[1..] == PutStringList(values, T);
  }

  // ---------------------------------------------------------------------
  // The optional parts of column_definition

  function PutNullability(n: Nullability, T: seq<Token>): seq<Token> {
    match n
    case Nullable => [Fixed(NULL)] + T
    case NotNullable => [Fixed(NOT), Fixed(NULL)] + T
  }

  /** `optional("NOT") $.NULL`. */
  function ParseNullability(ts: seq<Token>): (r: Option<(Nullability, seq<Token>)>)
    ensures r.Some? ==> ts == PutNullability(r.value.0, r.value.1) && |r.value.1| < |ts|
  {
    if StartsWith(ts, NULL) then
      assert ts == [Fixed(NULL)] + ts[1..];
      Some((Nullable, ts[1..]))
    else if StartsWith(ts, NOT) && StartsWith(ts[1..], NULL) then
      assert ts == [Fixed(NOT), Fixed(NULL)] + ts[2..];
      Some((NotNullable, ts[2..]))
    else None
  }

  function PutDefault(e: Expr, T: seq<Token>): seq<Token> {
    [K(DEFAULT)] + PutExpr(e, T)
  }

  /** `"DEFAULT" $._expression`. */
  function ParseDefault(ts: seq<Token>): (r: Option<(Expr, seq<Token>)>)
    ensures r.Some? ==> ts == PutDefault(r.value.0, r.value.1) && WF(r.value.0) && |r.value.1| < |ts|
  {
    if !At(ts, DEFAULT) then None
    else
      match ExpressionItem(ts[1..])
      case None => None
      case Some((e, rest)) =>
        assert ts == [K(DEFAULT)] + ts[1..];
        Some((e, rest))
  }

  function VisibilityKeyword(v: Visibility): Keyword {
    match v
    case Visible => VISIBLE
    case Invisible => INVISIBLE
  }

  function PutVisibility(v: Visibility, T: seq<Token>): seq<Token> {
    [K(VisibilityKeyword(v))] + T
  }

  function ParseVisibility(ts: seq<Token>): (r: Option<(Visibility, seq<Token>)>)
    ensures r.Some? ==> ts == PutVisibility(r.value.0, r.value.1) && |r.value.1| < |ts|
  {
    if At(ts, VISIBLE) then
      assert ts == [K(VISIBLE)] + ts[1..];
      Some((Visible, ts[1..]))
    else if At(ts, INVISIBLE) then
      assert ts == [K(INVISIBLE)] + ts[1..];
      Some((Invisible, ts[1..]))
    else None
  }

  function PutAutoIncrement(b: bool, T: seq<Token>): seq<Token> {
    if b then [K(AUTO_INCREMENT)] + T else T
  }

  /** `optional("AUTO_INCREMENT")`: whether the word is there. */
  function ParseAutoIncrement(ts: seq<Token>): (r: (bool, seq<Token>))
    ensures ts == PutAutoIncrement(r.0, r.1) && (r.0 <==> At(ts, AUTO_INCREMENT))
  {
    if At(ts, AUTO_INCREMENT) then
      assert ts == [K(AUTO_INCREMENT)] + ts[1..];
      (true, ts[1..])
    else (false, ts)
  }

  /** `"UNIQUE" optional("KEY")`; the flag says whether `KEY` is there. */
  function PutUnique(withKey: bool, T: seq<Token>): seq<Token> {
    if withKey then [K(UNIQUE), K(KEY)] + T else [K(UNIQUE)] + T
  }

  /** A `KEY` right after `UNIQUE` is read as part of it. */
  function ParseUnique(ts: seq<Token>): (r: Option<(bool, seq<Token>)>)
    ensures r.Some? ==> ts == PutUnique(r.value.0, r.value.1) && |r.value.1| < |ts|
    ensures r.Some? ==> (r.value.0 <==> At(ts[1..], KEY))
  {
    if !At(ts, UNIQUE) then None
    else if At(ts[1..], KEY) then
      assert ts == [K(UNIQUE), K(KEY)] + ts[2..];
      Some((true, ts[2..]))
    else
      assert ts == [K(UNIQUE)] + ts[1..];
      Some((false, ts[1..]))
  }

  /** `optional("PRIMARY") "KEY"`; the flag says whether `PRIMARY` is
      there. */
  function PutKey(primary: bool, T: seq<Token>): seq<Token> {
    if primary then [K(PRIMARY), K(KEY)] + T else [K(KEY)] + T
  }

  function ParseKey(ts: seq<Token>): (r: Option<(bool, seq<Token>)>)
    ensures r.Some? ==> ts == PutKey(r.value.0, r.value.1) && |r.value.1| < |ts|
  {
    if At(ts, PRIMARY) && At(ts[1..], KEY) then
      assert ts == [K(PRIMARY), K(KEY)] + ts[2..];
      Some((true, ts[2..]))
    else if At(ts, KEY) then
      assert ts == [K(KEY)] + ts[1..];
      Some((false, ts[1..]))
    else None
  }

  function PutComment(s: string, T: seq<Token>): seq<Token> {
    [K(COMMENT), Str(s)] + T
  }

  function ParseComment(ts: seq<Token>): (r: Option<(string, seq<Token>)>)
    ensures r.Some? ==> ts == PutComment(r.value.0, r.value.1) && |r.value.1| < |ts|
  {
    if At(ts, COMMENT) && |ts| >= 2 && ts[1].Str? then
      assert ts == [K(COMMENT), Str(ts[1].text)] + ts[2..];
      Some((ts[1].text, ts[2..]))
    else None
  }

  lemma PartsConsume()
    ensures C.Consumes(ParseNullability) && C.Consumes(ParseDefault) && C.Consumes(ParseVisibility)
    ensures C.Consumes(ParseUnique) && C.Consumes(ParseKey) && C.Consumes(ParseComment)
  {
  }

  lemma PartsPrint()
    ensures C.Prints(ParseNullability, PutNullability) && C.Prints(ParseDefault, PutDefault)
    ensures C.Prints(ParseVisibility, PutVisibility) && C.Prints(ParseUnique, PutUnique)
    ensures C.Prints(ParseKey, PutKey) && C.Prints(ParseComment, PutComment)
  {
  }

  // ---------------------------------------------------------------------
  // column_definition

  /** The column definitions the parser yields. `UNIQUE` without `KEY`
      followed by a `KEY` without `PRIMARY` prints as `UNIQUE KEY`, which is
      read as `UNIQUE KEY` without a key part; that tree is not one the
      parser yields. */
  predicate ValidColumnDefinition(d: ColumnDefinition) {
    && ValidDataType(d.dataType)
    && (d.default.Some? ==> WF(d.default.value))
    && !(d.unique == Some(false) && d.key == Some(false))
  }

  /** The definition's tokens after its data type. */
  function PutAttributes(d: ColumnDefinition, T: seq<Token>): seq<Token> {
    C.PutOptional(PutNullability, d.nullability,
      C.PutOptional(PutDefault, d.default,
        C.PutOptional(PutVisibility, d.visibility,
          PutAutoIncrement(d.autoIncrement,
            C.PutOptional(PutUnique, d.unique,
              C.PutOptional(PutKey, d.key,
                C.PutOptional(PutComment, d.comment, T)))))))
  }

  function PutColumnDefinition(d: ColumnDefinition, T: seq<Token>): seq<Token> {
    PutDataType(d.dataType, PutAttributes(d, T))
  }

  function ParseColumnDefinition(ts: seq<Token>): (r: Option<(ColumnDefinition, seq<Token>)>)
    ensures r.Some? ==> ts == PutColumnDefinition(r.value.0, r.value.1)
    ensures r.Some? ==> ValidColumnDefinition(r.value.0) && |r.value.1| < |ts|
  {
    match ParseDataType(ts)
    case None => None
    case Some((dataType, rest)) =>
      var (d, rest') := ParseAttributes(dataType, rest);
      Some((d, rest'))
  }

  /** The optional parts after the data type, in the order of the rule. */
  function ParseAttributes(dataType: DataType, ts: seq<Token>): (r: (ColumnDefinition, seq<Token>))
    requires ValidDataType(dataType)
    ensures r.0.dataType == dataType && ts == PutAttributes(r.0, r.1)
    ensures ValidColumnDefinition(r.0) && |r.1| <= |ts|
  {
    PartsConsume();
    PartsPrint();
    var (n, t1) := C.Optional(ParseNullability, ts);
    C.OptionalPrints(ParseNullability, PutNullability, ts);
    var (e, t2) := C.Optional(ParseDefault, t1);
    C.OptionalPrints(ParseDefault, PutDefault, t1);
    var (v, t3) := C.Optional(ParseVisibility, t2);
    C.OptionalPrints(ParseVisibility, PutVisibility, t2);
    var (a, t4) := ParseAutoIncrement(t3);
    var (u, t5) := C.Optional(ParseUnique, t4);
    C.OptionalPrints(ParseUnique, PutUnique, t4);
    var (k, t6) := C.Optional(ParseKey, t5);
    C.OptionalPrints(ParseKey, PutKey, t5);
    var (c, t7) := C.Optional(ParseComment, t6);
    C.OptionalPrints(ParseComment, PutComment, t6);
    assert u == Some(false) ==> !At(t5, KEY);
    (ColumnDefinition(dataType, n, e, v, a, u, k, c), t7)
  }

  // ---------------------------------------------------------------------
  // Reading a column definition back

  /** Where the next tokens stand among the optional parts of a column
      definition: 1 for the nullability up to 7 for COMMENT, 8 for the `,`
      or `)` after the definition, 0 for anything else. A part at position
      k may be followed by tokens of a rank above k. */
  function AttributeRank(ts: seq<Token>): (k: nat)
    ensures k <= 8
  {
    if StartsWith(ts, COMMA) || StartsWith(ts, RPAREN) then 8
    else if At(ts, COMMENT) then 7
    else if At(ts, PRIMARY) || At(ts, KEY) then 6
    else if At(ts, UNIQUE) then 5
    else if At(ts, AUTO_INCREMENT) then 4
    else if At(ts, VISIBLE) || At(ts, INVISIBLE) then 3
    else if At(ts, DEFAULT) then 2
    else if StartsWith(ts, NULL) || StartsWith(ts, NOT) then 1
    else 0
  }

  lemma CommentPart(o: Option<string>, R: seq<Token>)
    requires AttributeRank(R) >= 8
    ensures C.Optional(ParseComment, C.PutOptional(PutComment, o, R)) == (o, R)
    ensures AttributeRank(C.PutOptional(PutComment, o, R)) >= 7
  {
    PartsConsume();
    if o.Some? {
      assert PutComment(o.value, R)[2..] == R;
    }
    C.OptionalComplete(ParseComment, PutComment, o, R);
  }

  lemma KeyPart(o: Option<bool>, R: seq<Token>)
    requires AttributeRank(R) >= 7
    ensures C.Optional(ParseKey, C.PutOptional(PutKey, o, R)) == (o, R)
    ensures AttributeRank(C.PutOptional(PutKey, o, R)) >= 6
    ensures At(C.PutOptional(PutKey, o, R), KEY) <==> o == Some(false)
  {
    PartsConsume();
    if o.Some? {
      if o.value {
        assert PutKey(true, R)[1..] == [K(KEY)] + R;
        assert PutKey(true, R)[2..] == R;
      } else {
        assert PutKey(false, R)[1..] == R;
      }
    }
    C.OptionalComplete(ParseKey, PutKey, o, R);
  }

  lemma UniquePart(o: Option<bool>, R: seq<Token>)
    requires AttributeRank(R) >= 6 && (o == Some(false) ==> !At(R, KEY))
    ensures C.Optional(ParseUnique, C.PutOptional(PutUnique, o, R)) == (o, R)
    ensures AttributeRank(C.PutOptional(PutUnique, o, R)) >= 5
  {
    PartsConsume();
    if o.Some? {
      if o.value {
        assert PutUnique(true, R)[1..] == [K(KEY)] + R;
        assert PutUnique(true, R)[2..] == R;
      } else {
        assert PutUnique(false, R)[1..] == R;
      }
    }
    C.OptionalComplete(ParseUnique, PutUnique, o, R);
  }

  lemma AutoIncrementPart(b: bool, R: seq<Token>)
    requires AttributeRank(R) >= 5
    ensures ParseAutoIncrement(PutAutoIncrement(b, R)) == (b, R)
    ensures AttributeRank(PutAutoIncrement(b, R)) >= 4
  {
    if b {
      assert PutAutoIncrement(b, R)[1..] == R;
    }
  }

  lemma VisibilityPart(o: Option<Visibility>, R: seq<Token>)
    requires AttributeRank(R) >= 4
    ensures C.Optional(ParseVisibility, C.PutOptional(PutVisibility, o, R)) == (o, R)
    ensures AttributeRank(C.PutOptional(PutVisibility, o, R)) >= 3
  {
    PartsConsume();
    if o.Some? {
      assert PutVisibility(o.value, R)[1..] == R;
    }
    C.OptionalComplete(ParseVisibility, PutVisibility, o, R);
  }

  lemma DefaultPart(o: Option<Expr>, R: seq<Token>)
    requires AttributeRank(R) >= 3 && (o.Some? ==> WF(o.value))
    ensures C.Optional(ParseDefault, C.PutOptional(PutDefault, o, R)) == (o, R)
    ensures AttributeRank(C.PutOptional(PutDefault, o, R)) >= 2
  {
    PartsConsume();
    if o.Some? {
      DefaultComplete(o.value, R);
    }
    C.OptionalComplete(ParseDefault, PutDefault, o, R);
  }

  lemma DefaultComplete(e: Expr, R: seq<Token>)
    requires AttributeRank(R) >= 3 && WF(e)
    ensures ParseDefault(PutDefault(e, R)) == Some((e, R))
  {
    assert Boundary(R);
    BoundaryEnds(R);
    ExpressionItemComplete(e, R);
    assert PutDefault(e, R)[1..] == PutExpr(e, R);
  }

  lemma NullabilityPart(o: Option<Nullability>, R: seq<Token>)
    requires AttributeRank(R) >= 2
    ensures C.Optional(ParseNullability, C.PutOptional(PutNullability, o, R)) == (o, R)
  {
    PartsConsume();
    if o.Some? {
      match o.value
      case Nullable =>
        assert PutNullability(o.value, R)[1..] == R;
      case NotNullable =>
        assert PutNullability(o.value, R)[1..] == [Fixed(NULL)] + R;
        assert PutNullability(o.value, R)[2..] == R;
    }
    C.OptionalComplete(ParseNullability, PutNullability, o, R);
  }

  /** The optional parts of an admitted definition are read back before a
      `,` or a `)`. */
  lemma AttributesComplete(d: ColumnDefinition, T: seq<Token>)
    requires ValidColumnDefinition(d) && AttributeRank(T) == 8
    ensures ParseAttributes(d.dataType, PutAttributes(d, T)) == (d, T)
  {
    var t6 := C.PutOptional(PutComment, d.comment, T);
    CommentPart(d.comment, T);
    var t5 := C.PutOptional(PutKey, d.key, t6);
    KeyPart(d.key, t6);
    var t4 := C.PutOptional(PutUnique, d.unique, t5);
    UniquePart(d.unique, t5);
    var t3 := PutAutoIncrement(d.autoIncrement, t4);
    AutoIncrementPart(d.autoIncrement, t4);
    var t2 := C.PutOptional(PutVisibility, d.visibility, t3);
    VisibilityPart(d.visibility, t3);
    var t1 := C.PutOptional(PutDefault, d.default, t2);
    DefaultPart(d.default, t2);
    NullabilityPart(d.nullability, t1);
  }

  lemma ColumnDefinitionComplete(d: ColumnDefinition, T: seq<Token>)
    requires ValidColumnDefinition(d) && AttributeRank(T) == 8
    ensures ParseColumnDefinition(PutColumnDefinition(d, T)) == Some((d, T))
  {
    DataTypeComplete(d.dataType, PutAttributes(d, T));
    AttributesComplete(d, T);
  }

  /** `UNIQUE` without `KEY` and then a bare `KEY` print as `UNIQUE KEY`,
      which is read back as `UNIQUE KEY` with no key part. */
  lemma UniqueTakesKey(d: ColumnDefinition, T: seq<Token>)
    requires ValidDataType(d.dataType) && (d.default.Some? ==> WF(d.default.value))
    requires d.unique == Some(false) && d.key == Some(false) && AttributeRank(T) == 8
    ensures var r := ParseColumnDefinition(PutColumnDefinition(d, T));
      r.Some? && r.value.0.unique == Some(true) && r.value.0.key.None?
  {
    var t6 := C.PutOptional(PutComment, d.comment, T);
    CommentPart(d.comment, T);
    var t4 := PutUnique(true, t6);
    assert PutUnique(false, PutKey(false, t6)) == t4;
    var d' := d.(unique := Some(true), key := None);
    assert PutAttributes(d, T) == PutAttributes(d', T);
    ColumnDefinitionComplete(d', T);
  }

  // ---------------------------------------------------------------------
  // create_definition and create_table_statement

  predicate ValidCreateDefinition(c: CreateDefinition) {
    ValidColumnDefinition(c.definition)
  }

  function PutCreateDefinition(c: CreateDefinition, T: seq<Token>): seq<Token> {
    PutIdentifier(c.name, PutColumnDefinition(c.definition, T))
  }

  function ParseCreateDefinition(ts: seq<Token>): (r: Option<(CreateDefinition, seq<Token>)>)
    ensures r.Some? ==> ts == PutCreateDefinition(r.value.0, r.value.1)
    ensures r.Some? ==> ValidCreateDefinition(r.value.0) && |r.value.1| < |ts|
  {
    match ParseIdentifier(ts)
    case None => None
    case Some((name, rest)) =>
      match ParseColumnDefinition(rest)
      case None => None
      case Some((d, rest')) => Some((CreateDefinition(name, d), rest'))
  }

  lemma CreateDefinitionComplete(c: CreateDefinition, T: seq<Token>)
    requires ValidCreateDefinition(c) && AttributeRank(T) == 8
    ensures ParseCreateDefinition(PutCreateDefinition(c, T)) == Some((c, T))
  {
    IdentifierRoundTrip(c.name, PutColumnDefinition(c.definition, T));
    ColumnDefinitionComplete(c.definition, T);
  }

  lemma CreateDefinitionLists()
    ensures C.Consumes(ParseCreateDefinition)
    ensures C.SoundFor(ParseCreateDefinition, PutCreateDefinition, ValidCreateDefinition)
  {
  }

  /** The definitions of a table: one or more, each admitted. */
  predicate ValidDefinitions(definitions: seq<CreateDefinition>) {
    |definitions| >= 1 && forall i | 0 <= i < |definitions| :: ValidCreateDefinition(definitions[i])
  }

  function PutCreateTable(ifNotExists: bool, name: Identifier, definitions: seq<CreateDefinition>, T: seq<Token>): seq<Token> {
    var body := PutIdentifier(name, [Fixed(LPAREN)] + C.Separated(PutCreateDefinition, definitions, [Fixed(RPAREN)] + T));
    if ifNotExists then [K(CREATE_TABLE), K(IF_NOT_EXISTS)] + body else [K(CREATE_TABLE)] + body
  }

  /** `commaSeparated1($.create_definition)` between parentheses. */
  function ParseDefinitions(ts: seq<Token>): (r: Option<(seq<CreateDefinition>, seq<Token>)>)
    ensures r.Some? ==> ts == [Fixed(LPAREN)] + C.Separated(PutCreateDefinition, r.value.0, [Fixed(RPAREN)] + r.value.1)
    ensures r.Some? ==> ValidDefinitions(r.value.0) && |r.value.1| < |ts|
  {
    if !StartsWith(ts, LPAREN) then None
    else
      CreateDefinitionLists();
      C.CommaSeparated1Sound(ParseCreateDefinition, PutCreateDefinition, ValidCreateDefinition, ts[1..]);
      match C.CommaSeparated1(ParseCreateDefinition, ts[1..])
      case None => None
      case Some((definitions, rest)) =>
        if StartsWith(rest, RPAREN) then
          DefinitionsPrinted(definitions, ts, rest);
          Some((definitions, rest[1..]))
        else None
  }

  lemma DefinitionsPrinted(definitions: seq<CreateDefinition>, ts: seq<Token>, rest: seq<Token>)
    requires StartsWith(ts, LPAREN) && ts[1..] == C.Separated(PutCreateDefinition, definitions, rest)
    requires StartsWith(rest, RPAREN)
    ensures ts == [Fixed(LPAREN)] + C.Separated(PutCreateDefinition, definitions, [Fixed(RPAREN)] + rest[1..])
  {
    S.HeadTail(rest);
    S.HeadTail(ts);
  }

  lemma DefinitionsComplete(definitions: seq<CreateDefinition>, T: seq<Token>)
    requires ValidDefinitions(definitions)
    ensures ParseDefinitions([Fixed(LPAREN)] + C.Separated(PutCreateDefinition, definitions, [Fixed(RPAREN)] + T))
      == Some((definitions, T))
  {
    var close := [Fixed(RPAREN)] + T;
    forall k | 0 <= k < |definitions|
      ensures C.ReadsBack(ParseCreateDefinition, PutCreateDefinition, definitions[k], Closing)
    {
      forall R | StartsWith(R, COMMA) || Closing(R)
        ensures ParseCreateDefinition(PutCreateDefinition(definitions[k], R)) == Some((definitions[k], R))
      {
        CreateDefinitionComplete(definitions[k], R);
      }
    }
    CreateDefinitionLists();
    C.CommaSeparated1Complete(ParseCreateDefinition, PutCreateDefinition, definitions, Closing, close);
    assert ([Fixed(LPAREN)] + C.Separated(PutCreateDefinition, definitions, close))[1..]
      == C.Separated(PutCreateDefinition, definitions, close);
    assert close[1..] == T;
  }

  function ParseCreateTable(ts: seq<Token>): (r: Option<(StatementBody, seq<Token>)>)
    ensures r.Some? ==> r.value.0.CreateTable? && ValidDefinitions(r.value.0.definitions)
    ensures r.Some? ==> ts == PutCreateTable(r.value.0.ifNotExists, r.value.0.name, r.value.0.definitions, r.value.1)
    ensures r.Some? ==> |r.value.1| < |ts|
  {
    if !At(ts, CREATE_TABLE) then None
    else
      var ifNotExists := At(ts[1..], IF_NOT_EXISTS);
      var rest := if ifNotExists then ts[2..] else ts[1..];
      match ParseIdentifier(rest)
      case None => None
      case Some((name, rest')) =>
        match ParseDefinitions(rest')
        case None => None
        case Some((definitions, rest'')) =>
          CreateTablePrinted(ifNotExists, name, definitions, ts, rest, rest'');
          Some((CreateTable(ifNotExists, name, definitions), rest''))
  }

  lemma CreateTablePrinted(ifNotExists: bool, name: Identifier, definitions: seq<CreateDefinition>,
                           ts: seq<Token>, rest: seq<Token>, T: seq<Token>)
    requires At(ts, CREATE_TABLE) && ifNotExists == At(ts[1..], IF_NOT_EXISTS)
    requires rest == (if ifNotExists then ts[2..] else ts[1..])
    requires rest == PutIdentifier(name, [Fixed(LPAREN)] + C.Separated(PutCreateDefinition, definitions, [Fixed(RPAREN)] + T))
    ensures ts == PutCreateTable(ifNotExists, name, definitions, T)
  {
    if ifNotExists {
      assert ts == [K(CREATE_TABLE), K(IF_NOT_EXISTS)] + rest;
    } else {
      S.HeadTail(ts);
    }
  }

  /** After its header, a create-table statement is read exactly as its
      parenthesised definitions are. */
  lemma CreateTableRead(ifNotExists: bool, name: Identifier, list: seq<Token>)
    ensures var body := PutIdentifier(name, list);
      var ts := if ifNotExists then [K(CREATE_TABLE), K(IF_NOT_EXISTS)] + body else [K(CREATE_TABLE)] + body;
      ParseCreateTable(ts) == match ParseDefinitions(list)
        case None => None
        case Some((definitions, rest)) => Some((CreateTable(ifNotExists, name, definitions), rest))
  {
    var body := PutIdentifier(name, list);
    IdentifierRoundTrip(name, list);
    if ifNotExists {
      var ts := [K(CREATE_TABLE), K(IF_NOT_EXISTS)] + body;
      assert ts[1..] == [K(IF_NOT_EXISTS)] + body;
      assert ts[2..] == body;
    } else {
      var ts := [K(CREATE_TABLE)] + body;
      assert ts[1..] == body;
      assert !At(body, IF_NOT_EXISTS) by {
        assert body[0] == PrintIdentifier(name)[0];
      }
    }
  }

  lemma CreateTableComplete(ifNotExists: bool, name: Identifier, definitions: seq<CreateDefinition>, T: seq<Token>)
    requires ValidDefinitions(definitions)
    ensures ParseCreateTable(PutCreateTable(ifNotExists, name, definitions, T))
      == Some((CreateTable(ifNotExists, name, definitions), T))
  {
    var list := [Fixed(LPAREN)] + C.Separated(PutCreateDefinition, definitions, [Fixed(RPAREN)] + T);
    DefinitionsComplete(definitions, T);
    CreateTableRead(ifNotExists, name, list);
  }

  /** A table needs at least one definition: empty parentheses are not
      read. */
  lemma CreateTableNeedsDefinition(ifNotExists: bool, name: Identifier, T: seq<Token>)
    ensures var ts := PutCreateTable(ifNotExists, name, [], T); ParseCreateTable(ts).None?
  {
    var list := [Fixed(LPAREN)] + C.Separated(PutCreateDefinition, [], [Fixed(RPAREN)] + T);
    assert ParseDefinitions(list).None? by {
      assert list[1..] == [Fixed(RPAREN)] + T;
      assert ParseIdentifier(list[1..]).None?;
    }
    CreateTableRead(ifNotExists, name, list);
  }
}
