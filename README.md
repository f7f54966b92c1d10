# A verified model of the tree-sitter MySQL grammar

This project models `grammar.js`, the tree-sitter grammar of a MySQL dialect, in Dafny. The model has three layers.

- **Lexical** (`lexical.dfy`, `tokens.dfy`). Each token regular expression of the grammar is a predicate over a lexeme: `_identifier`, `integer`, `float`, `hex`, `bit`, `string`, `true`/`false`/`NULL` and the three forms of `comment`. Lemmas say what each one accepts and rejects. The string tokens of the rules become a `Token` datatype. This includes the multi-word tokens such as `GROUP BY` and `ON DUPLICATE KEY UPDATE`, which are one token each. The `identifier` rule, bare or between backticks, reads and prints those tokens.
- **Expressions** (`precedence.dfy`, `expressions.dfy`, `expression_*.dfy`).
  - The `PREC` table and the level of each operator of `binary_expression`.
  - An expression tree with one constructor per alternative of `_expression`.
  - A printer from trees to tokens, and a precedence-climbing parser that reads the `prec.left` declarations.
  - A well-formedness predicate `WF` that says which trees those declarations admit.
  - **Soundness:** every tree the parser yields is admitted and prints back to the tokens read.
  - **Completeness:** every admitted tree is read back from its printing.
  - Lemmas on how the operators group: left-associativity, higher levels binding tighter, where NOT and BETWEEN sit, and concrete token strings.
- **Statements** (`statement_syntax.dfy`, `clauses.dfy`, `select.dfy`, `create_table.dfy`, `statements.dfy`).
  - One datatype per statement and sub-rule, one printer per rule in continuation style (`PutX(x, T)` is the printing of `x` followed by `T`), and one parser per rule.
  - The parsers cover `select_statement`, `update_statement`, `delete_statement`, `drop_table_statement`, `truncate_table_statement`, `insert_statement`, `create_table_statement`, `show_tables_statement`, `statement` and `source_file`.
  - They are built from the `commaSeparated`/`commaSeparated1` and `optional` combinators (`combinators.dfy`).
  - Soundness, that what a parser reads is the printing of a valid tree, is most parsers' own `ensures`. For the expression parser, `statement` and `source_file` it is a lemma (`ExpressionSound`, `StatementSound`, `SourceFileSound`).
  - A lemma per rule, mostly named `...Complete`, states completeness: a valid tree is read back when the next tokens cannot continue it.
  - The expression parser, `select_statement`, the statement body and `source_file` also have an if-and-only-if joining the two (`ParseIff`, `SelectIff`, `BodyIff`, `SourceFileIff`).
  - Further lemmas pin down the rules' particular shapes.

The grammar is modelled as written, including where it differs from MySQL:

- `keyword()` returns its argument unchanged, so every keyword is one exact, case-sensitive token.
- `update_statement` has `SET` but no assignment list, and its `WHERE`, `ORDER BY` and `LIMIT` clauses are all mandatory. The same three clauses are mandatory in `delete_statement`.
- `insert_statement` requires `ON DUPLICATE KEY UPDATE`, and that clause has no body.
- The double-quoted `string` form is `"[^']*"`. It rejects a single quote inside and accepts a double quote.
- A table factor takes at most one `join_clause`. Join chains and comma-separated table lists are not part of the grammar.
- `join_clause` names its table with a bare `identifier`, not a `table_name`.
- `&&` and the word `AND` share one level, so the lower bound of `between_expression` may be an `&&` chain, as in `x BETWEEN a && b AND c`, while the first word `AND` always ends the lower bound.

The grammar cites the MySQL 8.0 Reference Manual for each of its rule groups, from operator precedence to comments. Where MySQL's documented syntax differs, the model follows `grammar.js`:

- MySQL keywords are case-insensitive; here they are case-sensitive.
- In MySQL the duplicate-key clause of an insert is optional and lists assignments; here it is mandatory and empty.
- A MySQL double-quoted string may not hold an unescaped `"`; here it may not hold `'`.
- MySQL has a `CASE` expression and `COUNT(*)`; here there is no `CASE`, and a call does not accept `*` as its argument list.
- MySQL has many more statements; here there are only the eight above.

A parser for a rule that can fail returns `Option<(tree, rest)>`, where `rest` is the unread tokens. Failure is `None`: a rule that does not match is an error path of the model, never a precondition. The readers of optional parts cannot fail and return a pair: `Combinators.Optional`, `Clauses.ParseClauses`, `CreateTables.ParseAttributes`, `CreateTables.ParseAutoIncrement` and `Statements.ParseFlag` yield what they found (or nothing) with the unread tokens. `Statements.ParseSourceFile` reads the whole input and returns `Option<seq<Statement>>`.

Four rule parsers have no row of their own, because their lemma rows state their contract:
- `Expressions.ParseExpression` (`expression`, grammar.js:414-533): `ExpressionSound.ExpressionSound` and `ExpressionComplete.ExpressionComplete`.
- `CreateTables.ParseColumnDefinition` (`column_definition`, grammar.js:71-96): `CreateTables.ColumnDefinitionComplete`.
- `CreateTables.ParseCreateDefinition` (`create_definition`, grammar.js:66-69): `CreateTables.CreateDefinitionComplete`.
- `Statements.ParseStatement` (`statement`, grammar.js:38-53): `Statements.StatementSound` and `Statements.StatementComplete`.

## Model

| member | source | states |
|---|---|---|
| Precedence.LevelsStrictlyOrdered | grammar.js:6-20 | The PREC table is a strict order: listed first means strictly higher, from INTERVAL 14 down to LITERAL 2, every level is listed, and no two levels share a value |
| Lexical.BlockBodyMeaning | grammar.js:621-629 | The block-comment body pattern accepts exactly the non-empty texts that end in a star and contain no star-slash |
| Lexical.LineCommentRunsToNewline | grammar.js:622-623 | A line comment extends by one more character exactly when that character is not a newline, so it runs to the end of its line |
| Lexical.LineCommentExamples | grammar.js:621-629 | `--` and `# note` are comments, and so is `-- a` followed by a carriage return; a newline ends a line comment; both comment forms are comments |
| Lexical.BlockCommentExamples | grammar.js:621-629 | `/**/` and `/* a **/` are comments; a comment ends at the first star-slash and does not nest |
| Lexical.ScanIdentifier | grammar.js:548 | The maximal munch of `_identifier`: the result is the longest prefix matching `[a-zA-Z][0-9a-zA-Z_]*`, and no longer prefix matches |
| Lexical.FloatScanAgrees | grammar.js:612 | `\d+\.\d+` holds exactly when the leading digits are followed by a dot and at least one digit |
| Lexical.FloatShape | grammar.js:612 | A float begins and ends with a digit and has exactly one dot and no exponent |
| Lexical.LiteralClassesDisjoint | grammar.js:595-612 | The integer, float, hex, bit and string classes and the identifier class are pairwise disjoint |
| Lexical.StringLexemeExamples | grammar.js:595-598 | A single-quoted string may hold `"`; a double-quoted one may hold `"` but not `'` |
| Lexical.KeywordsAreIdentifierShaped | grammar.js:548 | The words `SELECT`, `select`, `true`, `NULL` and `a_1` match `_identifier`; `_x`, `1a` and `GROUP BY` do not |
| Lexical.SpaceIsNoWordChar | grammar.js:548 | No text containing a space matches `_identifier` |
| Tokens.MultiWordKeywordsAreNoIdentifiers | grammar.js:548 | A keyword or type name of more than one word, such as `GROUP BY` or `DOUBLE PRECISION`, never matches `_identifier` |
| Lexical.NumericLexemeExamples | grammar.js:600-612 | Accepted and rejected examples of `-?\d+`, `\d+\.\d+`, both hex forms and both bit forms, including `0X1F`, `0B1` and `1e5` rejected |
| Tokens.ParseIdentifier | grammar.js:540-547 | Whatever is read is the printing of the identifier read, bare or backticked |
| Tokens.IdentifierRoundTrip | grammar.js:540-547 | An identifier is read back from its printing, whatever follows |
| Tokens.ParsedIdentifierIsLexeme | grammar.js:540-548 | Over well-formed tokens, every identifier read has a name `_identifier` accepts |
| Tokens.KeywordIsNoIdentifier | grammar.js:540-547 | No token other than a name or the opening backtick begins an identifier: no keyword, type word, operator, punctuation or literal is ever read as one |
| Combinators.CommaSeparated1 | grammar.js:640-642 | A successful read yields at least one item, consumes input, and stops before any comma |
| Combinators.CommaSeparated | grammar.js:633-638 | The list is empty exactly when no first item is there; otherwise it is non-empty and stops before any comma |
| Combinators.CommaSeparated1Sound | grammar.js:640-642 | What a list read consumed is the comma-separated printing of the items read, each of them valid |
| Combinators.CommaSeparatedSound | grammar.js:633-638 | The same for the list that may be empty |
| Combinators.CommaSeparated1Complete | grammar.js:640-642 | A non-empty list of items that read back is read back from its comma-separated printing |
| Combinators.CommaSeparatedComplete | grammar.js:633-638 | A list that may be empty is read back from its printing |
| Combinators.EmptyListOnlyWithoutItem | grammar.js:633-642 | `commaSeparated1` never yields an empty list; `commaSeparated` yields one exactly where no item begins |
| Combinators.Optional | grammar.js:179-183 | `optional(p)` yields a value exactly when it consumes tokens |
| Combinators.OptionalSound | grammar.js:179-183 | What `optional` consumed is the printing of what it yields |
| Combinators.OptionalComplete | grammar.js:179-183 | An optional part is read back from its printing when its absence leaves nothing the part could read |
| ExpressionSound.ExpressionSound | grammar.js:414-533 | Every expression read at level m is an admitted tree that prints as the tokens read, has no operator looser than m on its left edge, and is followed by no token that continues it |
| ExpressionSound.ListSound | grammar.js:474-483 | An IN list read is a non-empty list of admitted trees that prints as the tokens read |
| ExpressionSound.ArgumentsSound | grammar.js:405-410 | The arguments of a call are admitted trees that print as the tokens read |
| ExpressionComplete.ExpressionComplete | grammar.js:414-533 | Every admitted tree is read back from its printing at any level its left edge allows, when the next tokens do not continue it |
| ExpressionComplete.ListComplete | grammar.js:474-483 | A non-empty list of admitted trees is read back from its comma-separated printing |
| ExpressionComplete.ArgumentsComplete | grammar.js:405-410 | The arguments of a call, possibly none, are read back before the closing parenthesis |
| ExpressionComplete.PrimaryParenthesized | grammar.js:428-432 | A parenthesized expression is read back whatever follows |
| ExpressionComplete.PrimaryCall | grammar.js:405-410 | A call is read back whatever follows |
| ExpressionComplete.PrimaryField | grammar.js:550-555 | A field, with or without its table, is read back |
| ExpressionComplete.PrimaryNot | grammar.js:434-440 | A NOT expression is read back |
| ExpressionComplete.PrimaryInterval | grammar.js:517-533 | An interval expression is read back whatever follows |
| ExpressionComplete.StepBinary | grammar.js:441-472 | Reading a binary operator and its right operand after the left one continues as if the whole tree were read |
| ExpressionComplete.StepIn | grammar.js:474-483 | The same for IN and NOT IN |
| ExpressionComplete.StepLike | grammar.js:485-495 | The same for LIKE and NOT LIKE |
| ExpressionComplete.StepRegex | grammar.js:497-507 | The same for REGEXP and NOT REGEXP |
| ExpressionComplete.StepBetween | grammar.js:509-515 | The same for BETWEEN ... AND ...: the lower bound is read up to the word `AND`, including any `&&` chain before it |
| ExpressionComplete.LowerBoundComplete | grammar.js:509-515 | A lower bound of BETWEEN is read back `&&` by `&&` when the word `AND` of the BETWEEN or a further `&&` follows it |
| ExpressionBinding.ParseIff | grammar.js:414-533 | An expression is read from tokens, with the given tokens after it, exactly when the tokens are its printing and the tree is admitted |
| ExpressionBinding.PrintInjective | grammar.js:414-533 | Two admitted trees with the same printing are equal: the precedence rules leave no ambiguity |
| ExpressionBinding.TwoOperators | grammar.js:441-472 | `a op1 b op2 c` groups to the left when op1 is at op2's level or tighter, and to the right otherwise |
| ExpressionBinding.LeftAssociative | grammar.js:441-472 | Two operators of one level group to the left |
| ExpressionBinding.NotBinding | grammar.js:434-440 | `NOT a op b` takes the binary expression as NOT's operand exactly when op binds tighter than NOT |
| ExpressionBinding.LikeBinding | grammar.js:485-495 | In `a op b LIKE p`, LIKE takes `a op b` when op is at comparison level or tighter, and `b` alone otherwise |
| ExpressionBinding.BetweenLowerAmpAmp | grammar.js:509-515 | `x BETWEEN a && b AND c` reads as a BETWEEN whose lower bound is `a && b`: `&&` groups left before the word `AND` is reached |
| ExpressionBinding.LowerBoundExcludesAndWord | grammar.js:509-515 | No admitted BETWEEN has a lower bound joined by the word `AND`, since that word ends the lower bound |
| ExpressionBinding.BetweenThenAnd | grammar.js:509-515 | In `a BETWEEN lo AND hi AND d`, the first AND belongs to BETWEEN and the second joins the result with d |
| ExpressionBinding.SubtractionGroupsLeft | grammar.js:441-472 | `1 - 2 - 3` reads as `(1 - 2) - 3` |
| ExpressionBinding.MultiplicationBindsTighter | grammar.js:441-472 | `1 + 2 * 3` reads as `1 + (2 * 3)` |
| ExpressionBinding.AndBindsTighterThanOr | grammar.js:463-467 | `a AND b OR c` reads as `(a AND b) OR c`, in either spelling of each operator |
| ExpressionBinding.NotTakesComparison | grammar.js:434-440 | `NOT a = b` reads as `NOT (a = b)` |
| ExpressionBinding.NotBindsTighterThanAnd | grammar.js:434-440 | `NOT a AND b` reads as `(NOT a) AND b` |
| ExpressionBinding.DanglingNotRejected | grammar.js:474-483 | `a NOT b` is no expression: NOT after an operand must begin NOT IN |
| ExpressionBinding.EmptyInListRejected | grammar.js:474-483 | `a IN ()` is no expression: the IN list holds at least one expression |
| ExpressionBinding.CallWithoutArguments | grammar.js:405-410 | `f()` is a call with no arguments |
| ExpressionBinding.IntervalOperand | grammar.js:517-533 | `d + INTERVAL 1 DAY` reads the interval as the right operand of `+` |
| ExpressionBinding.ListIsCommaSeparated1 | grammar.js:474-483 | The IN list parser is `commaSeparated1` of expressions |
| ExpressionBinding.ArgumentsAreCommaSeparated | grammar.js:405-410 | The argument parser is `commaSeparated` of expressions |
| Clauses.ParseAlias | grammar.js:400-403 | An alias read, with or without AS, is the printing of what it yields |
| Clauses.AliasComplete | grammar.js:400-403 | An alias is read back from its printing |
| Clauses.ParseTableName | grammar.js:571-578 | A table name read, with or without its database, is the printing of what it yields |
| Clauses.TableNameComplete | grammar.js:571-578 | A table name is read back unless a bare name is followed by a dot |
| Clauses.ParseColumn | grammar.js:342-345 | A `column` read is an admitted expression with an optional alias, printed as the tokens read |
| Clauses.ColumnComplete | grammar.js:342-345 | A valid column is read back whole when what follows is the end of input, a reserved word other than AS, `,`, `)`, `;` or `\G` |
| Clauses.ParseSelectItem | grammar.js:268-276 | A select item read is either `t.*` or a column, printed as the tokens read |
| Clauses.SelectItemComplete | grammar.js:268-276 | A select item is read back; `t.*` is never taken for a field |
| Clauses.ParseSelectExpression | grammar.js:268-276 | The select list read is `*` or a non-empty comma-separated list of items |
| Clauses.SelectExpressionComplete | grammar.js:268-276 | A valid select list is read back from its printing |
| Clauses.ParseWhere | grammar.js:347-354 | A WHERE clause read is `WHERE` and an admitted expression |
| Clauses.ParseHaving | grammar.js:364-367 | A HAVING clause read is `HAVING` and an admitted expression |
| Clauses.WhereComplete | grammar.js:347-367 | WHERE and HAVING clauses are read back from their printing |
| Clauses.ParseGroupBy | grammar.js:356-362 | A GROUP BY clause read has at least one column and an optional WITH ROLLUP |
| Clauses.GroupByComplete | grammar.js:356-362 | A GROUP BY clause is read back from its printing |
| Clauses.ParseOrderBy | grammar.js:369-377 | An ORDER BY clause read has at least one item, each a column with an optional ASC or DESC |
| Clauses.OrderItemComplete | grammar.js:369-377 | An order item is read back from its printing |
| Clauses.OrderByComplete | grammar.js:369-377 | An ORDER BY clause is read back from its printing |
| Clauses.ParseLimit | grammar.js:386-389 | A LIMIT clause read is `LIMIT` and an integer |
| Clauses.ParseOffset | grammar.js:381-384 | An OFFSET clause read is `OFFSET` and an integer |
| Clauses.LimitComplete | grammar.js:381-389 | LIMIT and OFFSET clauses are read back |
| Clauses.ParseLimitOffset | grammar.js:391-394 | A LIMIT clause with an optional OFFSET is the printing of what it yields |
| Clauses.LimitOffsetComplete | grammar.js:391-394 | A LIMIT clause with an optional OFFSET is read back |
| Clauses.ParseClauses | grammar.js:179-183 | The optional clauses of a select, in their fixed order, are the printing of what is read, and each is valid |
| Clauses.ClausesComplete | grammar.js:179-183 | Any valid combination of the five optional clauses is read back before the end of a statement |
| Clauses.WherePart | grammar.js:179 | An optional WHERE is read back when the next tokens rank after it |
| Clauses.GroupPart | grammar.js:180 | An optional GROUP BY is read back when the next tokens rank after it |
| Clauses.HavingPart | grammar.js:181 | An optional HAVING is read back when the next tokens rank after it |
| Clauses.OrderPart | grammar.js:182 | An optional ORDER BY is read back when the next tokens rank after it |
| Clauses.LimitPart | grammar.js:183 | An optional LIMIT clause is read back before the end of a statement |
| Clauses.ParseJoinSpecification | grammar.js:327-340 | A join specification read is `ON` and an admitted expression, or `USING` and a non-empty parenthesized identifier list |
| Clauses.NameListComplete | grammar.js:335-337 | A non-empty identifier list in parentheses is read back |
| Clauses.JoinSpecificationComplete | grammar.js:327-340 | A join specification is read back from its printing |
| Clauses.ParseJoinRest | grammar.js:294-325 | What follows the join keywords and table is read as a valid join with that head and table. Valid means: the specification is optional for plain, INNER, CROSS and STRAIGHT_JOIN joins, required for LEFT and RIGHT joins, and absent for NATURAL JOIN |
| Clauses.ParseJoin | grammar.js:294-325 | A join clause read is a valid join printed as the tokens read |
| Clauses.JoinHeadComplete | grammar.js:294-325 | Each combination of join keywords is read back |
| Clauses.JoinComplete | grammar.js:294-325 | A valid join clause is read back from its printing |
| Clauses.NoJoinAtClause | grammar.js:291 | No join begins at WHERE, GROUP BY, HAVING, ORDER BY, LIMIT or the end of a statement |
| Clauses.OuterJoinNeedsSpecification | grammar.js:310-319 | `LEFT`/`RIGHT [OUTER] JOIN t` without ON or USING is not read |
| Clauses.NaturalJoinTakesNone | grammar.js:320-324 | `NATURAL JOIN t` is read without a specification even when ON follows |
| Clauses.InnerJoinSpecificationOptional | grammar.js:295-309 | An inner, cross or straight join is read back with and without a specification |
| Queries.ParseSelect | grammar.js:174-184 | A select read is a valid select whose printing is the tokens read |
| Queries.ParseTableReferences | grammar.js:278-292 | Table references read are a table factor with an optional join, printed as the tokens read |
| Queries.ParseTableFactor | grammar.js:279-290 | A table factor read is a named table with an optional alias, or a parenthesized select with its alias |
| Queries.SelectComplete | grammar.js:174-184 | A valid select is read back before the end of a statement |
| Queries.TableReferencesComplete | grammar.js:278-292 | Valid table references are read back before a clause or the end of a statement |
| Queries.TableFactorComplete | grammar.js:279-290 | A valid table factor is read back before a boundary |
| Queries.SubqueryRead | grammar.js:284-289 | A parenthesized select with its alias is read back once its select is |
| Queries.SelectIff | grammar.js:174-184 | A select is read exactly from the printing of a valid select |
| Queries.SubqueryNeedsAlias | grammar.js:284-289 | A parenthesized select without an alias is neither a table factor nor table references |
| CreateTables.ParseDataType | grammar.js:99-170 | A data type read is a type word with the single integer size or the string value list its alternative allows |
| CreateTables.DataTypeComplete | grammar.js:99-170 | A valid data type is read back from its printing |
| CreateTables.StringListComplete | grammar.js:157-169 | The non-empty value list of ENUM and SET is read back |
| CreateTables.ParseAttributes | grammar.js:71-96 | The optional attributes of a column, in their fixed order, are the printing of what is read |
| CreateTables.ParseAutoIncrement | grammar.js:85 | AUTO_INCREMENT is present exactly when the keyword is next |
| CreateTables.ParseUnique | grammar.js:86-89 | UNIQUE takes a KEY exactly when one follows it |
| CreateTables.AttributesComplete | grammar.js:71-96 | Any valid combination of the column attributes is read back |
| CreateTables.ColumnDefinitionComplete | grammar.js:71-96 | A column definition is read back from its printing |
| CreateTables.UniqueTakesKey | grammar.js:86-92 | `UNIQUE KEY` is always read as UNIQUE with KEY, never as UNIQUE followed by a separate KEY |
| CreateTables.CreateDefinitionComplete | grammar.js:66-69 | A create definition, a name and a column definition, is read back |
| CreateTables.ParseDefinitions | grammar.js:60-63 | The definitions read are a non-empty comma-separated list in parentheses |
| CreateTables.DefinitionsComplete | grammar.js:60-63 | A non-empty list of valid definitions is read back |
| CreateTables.ParseCreateTable | grammar.js:57-64 | A CREATE TABLE read is the printing of a statement with at least one valid definition |
| CreateTables.CreateTableComplete | grammar.js:57-64 | A CREATE TABLE, with or without IF NOT EXISTS, is read back from its printing |
| CreateTables.CreateTableNeedsDefinition | grammar.js:62 | A CREATE TABLE with an empty definition list is not read |
| Statements.ParseFilter | grammar.js:190-192 | The mandatory WHERE, ORDER BY and LIMIT of update and delete are the printing of what is read |
| Statements.FilterComplete | grammar.js:190-192 | The three mandatory clauses are read back |
| Statements.FilterNeedsOrderAndLimit | grammar.js:190-192 | A WHERE clause alone is not accepted |
| Statements.FilterNeedsLimit | grammar.js:190-192 | WHERE and ORDER BY without LIMIT are not accepted |
| Statements.ParseUpdate | grammar.js:186-193 | An UPDATE read is `UPDATE`, a table name, `SET` and the three mandatory clauses |
| Statements.UpdateComplete | grammar.js:186-193 | An UPDATE is read back from its printing |
| Statements.UpdateHasNoAssignments | grammar.js:189-190 | After SET, anything other than WHERE makes the UPDATE fail: there is no assignment list |
| Statements.ParseDelete | grammar.js:197-203 | A DELETE read is `DELETE FROM`, a table name and the three mandatory clauses |
| Statements.DeleteComplete | grammar.js:197-203 | A DELETE is read back from its printing |
| Statements.ParseDrop | grammar.js:205-212 | A DROP TABLE read is the printing of its TEMPORARY and IF EXISTS flags and its table |
| Statements.DropComplete | grammar.js:205-212 | A DROP TABLE is read back from its printing |
| Statements.ParseTruncate | grammar.js:214-219 | A TRUNCATE read is the printing of its optional TABLE and its table |
| Statements.TruncateComplete | grammar.js:214-219 | A TRUNCATE is read back from its printing |
| Statements.ParseShow | grammar.js:222-238 | A SHOW TABLES read is the printing of its flags, its optional FROM/IN database and its optional LIKE pattern |
| Statements.ShowComplete | grammar.js:222-238 | A SHOW TABLES is read back from its printing |
| Statements.ParseValueList | grammar.js:258-262 | A value list read is a parenthesized, possibly empty list of admitted expressions |
| Statements.ValueListComplete | grammar.js:258-262 | A value list, empty or not, is read back |
| Statements.ParseColumnList | grammar.js:252-256 | A column list read is a parenthesized, possibly empty list of identifiers |
| Statements.ColumnListComplete | grammar.js:252-256 | A column list, empty or not, is read back |
| Statements.ParseRowList | grammar.js:248 | The rows of an insert are a non-empty comma-separated list of value lists |
| Statements.RowListComplete | grammar.js:248 | A non-empty list of rows is read back |
| Statements.ParseInsert | grammar.js:241-250 | An INSERT read is the printing of its IGNORE flag, table, column list, rows and the duplicate-key clause |
| Statements.InsertComplete | grammar.js:241-250 | An INSERT is read back from its printing |
| Statements.InsertNeedsDuplicateClause | grammar.js:264-266 | An INSERT without `ON DUPLICATE KEY UPDATE` is not read |
| Statements.EmptyListsAccepted | grammar.js:252-262 | `INSERT INTO t () VALUES () ON DUPLICATE KEY UPDATE` is read: both lists may be empty |
| Statements.ParseBody | grammar.js:39-48 | A statement body read is a valid body of one of the eight kinds, printed as the tokens read and beginning with its kind's keyword; without one of the eight keywords first, nothing is read |
| Statements.BodyComplete | grammar.js:39-48 | A valid body of any kind is read back before the end of a statement |
| Statements.BodyIff | grammar.js:39-48 | A body is read exactly from the printing of a valid body |
| Statements.ParseTerminator | grammar.js:49-52 | A terminator read is `;` or `\G` |
| Statements.TerminatorComplete | grammar.js:49-52 | An optional terminator is read back before the next statement |
| Statements.StatementSound | grammar.js:38-53 | A statement read is a valid body with an optional terminator, printed as the tokens read |
| Statements.StatementComplete | grammar.js:38-53 | A statement is read back before the next statement or the end of input |
| Statements.ParseSourceFile | grammar.js:36 | A non-empty input that is read yields at least one statement |
| Statements.SourceFileSound | grammar.js:36 | A source file read is a sequence of valid statements whose printing is the input |
| Statements.SourceFileComplete | grammar.js:36 | Any sequence of valid statements is read back from its printing |
| Statements.SourceFileIff | grammar.js:36 | An input is read as a sequence of statements exactly when it is their printing and they are valid |
| Statements.SourceFileInjective | grammar.js:36 | Two sequences of valid statements with the same printing are equal |

## Left out

- The tree-sitter runtime is not modelled: LR/GLR table construction, conflict resolution, error recovery, incremental reparsing and the concrete syntax tree. The parsers are deterministic recursive-descent readings of the rules, proved against printers.
- Field names such as `field('left', ...)` and `field('alias', ...)` are left out. They label children and do not change what is accepted. The trees have named constructor fields instead.
- The text-to-token lexer is not modelled: longest match, keyword extraction and context-aware lexing. The lexical layer is predicates on single lexemes plus the maximal-munch scan of an identifier (`ScanIdentifier`). The parsers work on a token sequence of the kind that lexer would produce.
- The `extras` are not part of the token stream (grammar.js:30-33): the whitespace class with its Unicode characters, and comments, which are accepted between any two tokens. Comments are modelled only as lexeme predicates.
- Non-ASCII Unicode is left out. Strings are Dafny `seq<char>`, with no normalisation or case folding.
- Keyword case-insensitivity is absent because the grammar does not have it: `keyword()` is the identity (grammar.js:23-25).
- The `column_name` rule (grammar.js:557-569) and the `database_name` rule (grammar.js:580) are left out, because no rule reachable from `source_file` uses them.
- The ASSIGNMENT and LITERAL levels of `PREC` are in the table and in `LevelsStrictlyOrdered`, but no rule resolves an operator with them. `prec(PREC.LITERAL, ...)` on `_literal` changes nothing in what is read.
- The grammar leaves open how `UNIQUE KEY` is read. It could be UNIQUE with its KEY, or UNIQUE followed by the separate `[PRIMARY] KEY` attribute (grammar.js:86-92). The model reads it greedily as one attribute, and `UniqueTakesKey` states that reading. A tree with UNIQUE and no KEY, followed by a KEY without PRIMARY, is therefore not valid.
