/** The tokens the grammar's rules are written over, and the `identifier`
    rule, which every other layer uses. */
module Tokens {
  import opened Wrappers
  import Lexical
  import P = Precedence

  /** The punctuation and the words of expressions, one constructor per
      distinct string token. A string used by several rules (`YEAR`, `IN`,
      `LIKE`, `NOT`, `(`) is one token, as it is for the lexer; a multi-word
      token such as `NOT LIKE` is one token. */
  datatype Word =
    // punctuation
    | SEMICOLON | BACKSLASH_G | LPAREN | RPAREN | COMMA | DOT | BACKTICK
    // expression words
    | NOT | IN | LIKE | NOT_LIKE | REGEXP | NOT_REGEXP | BETWEEN | INTERVAL
    | MICROSECOND | SECOND | MINUTE | HOUR | DAY | WEEK | MONTH | QUARTER | YEAR
    | TRUE | FALSE | NULL

  /** The exact, case-sensitive text of each string token: `keyword()` in
      the grammar returns its argument unchanged. */
  function WordText(w: Word): string {
    match w
    case SEMICOLON => ";" case BACKSLASH_G => "\\G" case LPAREN => "(" case RPAREN => ")"
    case COMMA => "," case DOT => "." case BACKTICK => "`"
    case NOT => "NOT" case IN => "IN" case LIKE => "LIKE" case NOT_LIKE => "NOT LIKE"
    case REGEXP => "REGEXP" case NOT_REGEXP => "NOT REGEXP" case BETWEEN => "BETWEEN"
    case INTERVAL => "INTERVAL"
    case MICROSECOND => "MICROSECOND" case SECOND => "SECOND" case MINUTE => "MINUTE"
    case HOUR => "HOUR" case DAY => "DAY" case WEEK => "WEEK" case MONTH => "MONTH"
    case QUARTER => "QUARTER" case YEAR => "YEAR"
    case TRUE => "true" case FALSE => "false" case NULL => "NULL"
  }

  /** The keywords of the statements, their clauses and column
      definitions; `CREATE TABLE` or `ON DUPLICATE KEY UPDATE` is one
      token. */
  datatype Keyword =
    | SELECT | FROM | UPDATE | SET | DELETE_FROM | DROP | TEMPORARY | TABLE | IF_EXISTS
    | TRUNCATE | SHOW | EXTENDED | FULL | TABLES | INSERT | IGNORE | INTO | VALUES
    | ON_DUPLICATE_KEY_UPDATE | CREATE_TABLE | IF_NOT_EXISTS
    | INNER | CROSS | JOIN | STRAIGHT_JOIN | LEFT | RIGHT | OUTER | NATURAL | ON | USING
    | WHERE | GROUP_BY | WITH_ROLLUP | HAVING | ORDER_BY | ASC | DESC | LIMIT | OFFSET | AS
    | DEFAULT | VISIBLE | INVISIBLE | AUTO_INCREMENT | UNIQUE | KEY | PRIMARY | COMMENT

  function KeywordText(k: Keyword): string {
    match k
    case SELECT => "SELECT" case FROM => "FROM" case UPDATE => "UPDATE" case SET => "SET"
    case DELETE_FROM => "DELETE FROM" case DROP => "DROP" case TEMPORARY => "TEMPORARY"
    case TABLE => "TABLE" case IF_EXISTS => "IF EXISTS" case TRUNCATE => "TRUNCATE"
    case SHOW => "SHOW" case EXTENDED => "EXTENDED" case FULL => "FULL" case TABLES => "TABLES"
    case INSERT => "INSERT" case IGNORE => "IGNORE" case INTO => "INTO" case VALUES => "VALUES"
    case ON_DUPLICATE_KEY_UPDATE => "ON DUPLICATE KEY UPDATE" case CREATE_TABLE => "CREATE TABLE"
    case IF_NOT_EXISTS => "IF NOT EXISTS"
    case INNER => "INNER" case CROSS => "CROSS" case JOIN => "JOIN" case STRAIGHT_JOIN => "STRAIGHT_JOIN"
    case LEFT => "LEFT" case RIGHT => "RIGHT" case OUTER => "OUTER" case NATURAL => "NATURAL"
    case ON => "ON" case USING => "USING"
    case WHERE => "WHERE" case GROUP_BY => "GROUP BY" case WITH_ROLLUP => "WITH ROLLUP"
    case HAVING => "HAVING" case ORDER_BY => "ORDER BY" case ASC => "ASC" case DESC => "DESC"
    case LIMIT => "LIMIT" case OFFSET => "OFFSET" case AS => "AS"
    case DEFAULT => "DEFAULT" case VISIBLE => "VISIBLE" case INVISIBLE => "INVISIBLE"
    case AUTO_INCREMENT => "AUTO_INCREMENT" case UNIQUE => "UNIQUE" case KEY => "KEY"
    case PRIMARY => "PRIMARY" case COMMENT => "COMMENT"
  }

  /** The names of the data types of `create_table`. */
  datatype TypeWord =
    | TINYINT | SMALLINT | INT | INTEGER | BIGINT | DECIMAL | DEC | FIXED | NUMERIC | FLOAT
    | DOUBLE_PRECISION | DOUBLE | REAL | BIT | DATE | TIME | DATETIME | TIMESTAMP
    | CHAR | VARCHAR | BINARY | VARBINARY | TINYBLOB | BLOB | MEDIUMBLOB | LONGBLOB
    | TINYTEXT | TEXT | MEDIUMTEXT | LONGTEXT | ENUM

  function TypeWordText(t: TypeWord): string {
    match t
    case TINYINT => "TINYINT" case SMALLINT => "SMALLINT" case INT => "INT" case INTEGER => "INTEGER"
    case BIGINT => "BIGINT" case DECIMAL => "DECIMAL" case DEC => "DEC" case FIXED => "FIXED"
    case NUMERIC => "NUMERIC" case FLOAT => "FLOAT" case DOUBLE_PRECISION => "DOUBLE PRECISION"
    case DOUBLE => "DOUBLE" case REAL => "REAL" case BIT => "BIT" case DATE => "DATE"
    case TIME => "TIME" case DATETIME => "DATETIME" case TIMESTAMP => "TIMESTAMP"
    case CHAR => "CHAR" case VARCHAR => "VARCHAR" case BINARY => "BINARY" case VARBINARY => "VARBINARY"
    case TINYBLOB => "TINYBLOB" case BLOB => "BLOB" case MEDIUMBLOB => "MEDIUMBLOB"
    case LONGBLOB => "LONGBLOB" case TINYTEXT => "TINYTEXT" case TEXT => "TEXT"
    case MEDIUMTEXT => "MEDIUMTEXT" case LONGTEXT => "LONGTEXT" case ENUM => "ENUM"
  }

  /** A lexeme as the lexer classifies it: a binary operator's token (also
      used for the `*` of a select list and the `AND` of BETWEEN), another of
      the grammar's string tokens by group, or a named token rule carrying
      its text. */
  datatype Token =
    | Op(op: P.BinaryOperator)
    | Fixed(word: Word)
    | Reserved(keyword: Keyword)
    | TypeName(typeWord: TypeWord)
    | Name(text: string)
    | Str(text: string)
    | Integer(text: string)
    | Float(text: string)
    | Hex(text: string)
    | Bit(text: string)

  /** The named token kinds carry a text their regular expression accepts. */
  predicate WellFormedToken(t: Token) {
    match t
    case Op(_) => true
    case Fixed(_) => true
    case Reserved(_) => true
    case TypeName(_) => true
    case Name(s) => Lexical.IsIdentifierLexeme(s)
    case Str(s) => Lexical.IsStringLexeme(s)
    case Integer(s) => Lexical.IsIntegerLexeme(s)
    case Float(s) => Lexical.IsFloatLexeme(s)
    case Hex(s) => Lexical.IsHexLexeme(s)
    case Bit(s) => Lexical.IsBitLexeme(s)
  }

  predicate WellFormedTokens(ts: seq<Token>) {
    forall i | 0 <= i < |ts| :: WellFormedToken(ts[i])
  }

  /** The text of a token as it appears in the source. */
  function TokenText(t: Token): string {
    match t
    case Op(op) => P.OperatorText(op)
    case Fixed(w) => WordText(w)
    case Reserved(k) => KeywordText(k)
    case TypeName(t) => TypeWordText(t)
    case Name(s) => s
    case Str(s) => s
    case Integer(s) => s
    case Float(s) => s
    case Hex(s) => s
    case Bit(s) => s
  }

  /** A keyword or type name of more than one word, such as `GROUP BY` or
      `DOUBLE PRECISION`, is no `_identifier`: a space is no word character. */
  lemma MultiWordKeywordsAreNoIdentifiers(k: Keyword, t: TypeWord)
    ensures ' ' in KeywordText(k) ==> !Lexical.IsIdentifierLexeme(KeywordText(k))
    ensures ' ' in TypeWordText(t) ==> !Lexical.IsIdentifierLexeme(TypeWordText(t))
  {
    Lexical.SpaceIsNoWordChar(KeywordText(k));
    Lexical.SpaceIsNoWordChar(TypeWordText(t));
  }

  /** ts begins with the string token w. */
  predicate StartsWith(ts: seq<Token>, w: Word) {
    |ts| > 0 && ts[0] == Fixed(w)
  }

  /** An `identifier`: a bare `_identifier` or one between backticks. */
  datatype Identifier = Identifier(name: string, quoted: bool)

  function PrintIdentifier(id: Identifier): seq<Token> {
    if id.quoted then [Fixed(BACKTICK), Name(id.name), Fixed(BACKTICK)] else [Name(id.name)]
  }

  function ParseIdentifier(ts: seq<Token>): (r: Option<(Identifier, seq<Token>)>)
    ensures r.Some? ==> ts == PrintIdentifier(r.value.0) + r.value.1
  {
    if |ts| >= 1 && ts[0].Name? then Some((Identifier(ts[0].text, false), ts[1..]))
    else if |ts| >= 3 && ts[0] == Fixed(BACKTICK) && ts[1].Name? && ts[2] == Fixed(BACKTICK) then
      Some((Identifier(ts[1].text, true), ts[3..]))
    else None
  }

  lemma IdentifierRoundTrip(id: Identifier, T: seq<Token>)
    ensures ParseIdentifier(PrintIdentifier(id) + T) == Some((id, T))
  {
    var ts := PrintIdentifier(id) + T;
    if id.quoted { assert ts[3..] == T; } else { assert ts[1..] == T; }
  }

  /** Over lexer output, every identifier the rule yields has a name the
      `_identifier` regular expression accepts. */
  lemma ParsedIdentifierIsLexeme(ts: seq<Token>)
    requires WellFormedTokens(ts)
    ensures ParseIdentifier(ts).Some? ==>
      Lexical.IsIdentifierLexeme(ParseIdentifier(ts).value.0.name)
      && WellFormedTokens(ParseIdentifier(ts).value.1)
  {
    if ParseIdentifier(ts).Some? {
      var id := ParseIdentifier(ts).value.0;
      var k := if id.quoted then 1 else 0;
      assert WellFormedToken(ts[k]);
    }
  }

  /** Only a name token or an opening backtick begins an identifier, so no
      identifier is read from a keyword, type word, operator, punctuation or
      literal token. */
  lemma KeywordIsNoIdentifier(t: Token, T: seq<Token>)
    requires !t.Name? && t != Fixed(BACKTICK)
    ensures ParseIdentifier([t] + T) == None
  {
  }
}
