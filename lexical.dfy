/** The lexical layer of the MySQL grammar: every token regular expression of
    the grammar as a predicate over a lexeme, with the facts about what each
    one accepts. The patterns are read as tree-sitter compiles them: `\d` is
    an ASCII digit and `.` is any character except the newline `\n`, so a
    carriage return belongs to a line comment. */
module Lexical {
  import opened Wrappers

  predicate IsDigit(c: char) { '0' <= c <= '9' }
  predicate IsLetter(c: char) { 'a' <= c <= 'z' || 'A' <= c <= 'Z' }
  predicate IsHexDigit(c: char) { IsDigit(c) || 'a' <= c <= 'f' || 'A' <= c <= 'F' }
  predicate IsBinaryDigit(c: char) { c == '0' || c == '1' }
  /** The class `[0-9a-zA-Z_]`. */
  predicate IsWordChar(c: char) { IsDigit(c) || IsLetter(c) || c == '_' }

  predicate Digits1(s: string) { |s| >= 1 && forall i | 0 <= i < |s| :: IsDigit(s[i]) }
  predicate HexDigits1(s: string) { |s| >= 1 && forall i | 0 <= i < |s| :: IsHexDigit(s[i]) }
  predicate BinaryDigits1(s: string) { |s| >= 1 && forall i | 0 <= i < |s| :: IsBinaryDigit(s[i]) }
  predicate WordChars(s: string) { forall i | 0 <= i < |s| :: IsWordChar(s[i]) }
  predicate NoSingleQuote(s: string) { forall i | 0 <= i < |s| :: s[i] != '\'' }
  /** The text `.*` matches: no newline, the only character `.` excludes. */
  predicate NoNewline(s: string) { forall i | 0 <= i < |s| :: s[i] != '\n' }

  /** `_identifier`: `[a-zA-Z][0-9a-zA-Z_]*`. */
  predicate IsIdentifierLexeme(s: string) { |s| >= 1 && IsLetter(s[0]) && WordChars(s[1..]) }

  /** A space is no character of `_identifier`. */
  lemma SpaceIsNoWordChar(s: string)
    ensures ' ' in s ==> !IsIdentifierLexeme(s)
  {
    if IsIdentifierLexeme(s) {
      forall i | 1 <= i < |s| ensures s[i] != ' ' {
        assert s[i] == s[1..][i - 1];
      }
    }
  }

  /** `integer`: `-?\d+`. */
  predicate IsIntegerLexeme(s: string) { Digits1(s) || (|s| >= 2 && s[0] == '-' && Digits1(s[1..])) }

  /** `float`: `\d+\.\d+`, digits on both sides of the dot and no exponent. */
  predicate IsFloatLexeme(s: string) {
    exists k | 0 <= k < |s| :: s[k] == '.' && Digits1(s[..k]) && Digits1(s[k + 1..])
  }

  /** `hex`: `0x[0-9a-fA-F]+` or `(x|X)'[0-9a-fA-F]+'`. */
  predicate IsHexLexeme(s: string) {
    || (|s| >= 2 && s[0] == '0' && s[1] == 'x' && HexDigits1(s[2..]))
    || (|s| >= 3 && (s[0] == 'x' || s[0] == 'X') && s[1] == '\'' && s[|s| - 1] == '\''
        && HexDigits1(s[2..|s| - 1]))
  }

  /** `bit`: `0b[01]+` or `(b|B)'[01]+'`. */
  predicate IsBitLexeme(s: string) {
    || (|s| >= 2 && s[0] == '0' && s[1] == 'b' && BinaryDigits1(s[2..]))
    || (|s| >= 3 && (s[0] == 'b' || s[0] == 'B') && s[1] == '\'' && s[|s| - 1] == '\''
        && BinaryDigits1(s[2..|s| - 1]))
  }

  /** `string`: `'[^']*'` or `"[^']*"`. The double-quoted form, as written,
      forbids a single quote in its body and allows a double quote there. */
  predicate IsStringLexeme(s: string) {
    && |s| >= 2
    && ((s[0] == '\'' && s[|s| - 1] == '\'') || (s[0] == '"' && s[|s| - 1] == '"'))
    && NoSingleQuote(s[1..|s| - 1])
  }

  /** The `true`, `false` and `NULL` rules: exact, case-sensitive words. */
  predicate IsBooleanOrNullLexeme(s: string) { s == "true" || s == "false" || s == "NULL" }

  /** The two line forms of `comment`: `--` or `#`, then `.*`. */
  predicate IsLineCommentLexeme(s: string) {
    || (|s| >= 2 && s[0] == '-' && s[1] == '-' && NoNewline(s[2..]))
    || (|s| >= 1 && s[0] == '#' && NoNewline(s[1..]))
  }

  // The states of the automaton for the body pattern [^*]*\*+([^/*][^*]*\*+)*
  // of a block comment: InText while reading one of the runs of non-stars,
  // InStars while reading a run of stars.
  datatype BodyState = InText | InStars

  /** One step of the automaton; None when a `/` follows a run of stars,
      which the pattern does not allow. */
  function Step(st: BodyState, c: char): Option<BodyState> {
    match st
    case InText => if c == '*' then Some(InStars) else Some(InText)
    case InStars => if c == '*' then Some(InStars) else if c == '/' then None else Some(InText)
  }

  function Run(st: BodyState, x: string): Option<BodyState>
    decreases |x|
  {
    if x == [] then Some(st)
    else match Step(st, x[0])
      case None => None
      case Some(st') => Run(st', x[1..])
  }

  // The body pattern of a block comment, [^*]*\*+([^/*][^*]*\*+)*.
  predicate MatchesBlockBody(x: string) { Run(InText, x) == Some(InStars) }

  // The block form of `comment`: slash-star, the body pattern, then a slash.
  predicate IsBlockCommentLexeme(s: string) {
    |s| >= 4 && s[0] == '/' && s[1] == '*' && s[|s| - 1] == '/' && MatchesBlockBody(s[2..|s| - 1])
  }

  predicate IsCommentLexeme(s: string) { IsLineCommentLexeme(s) || IsBlockCommentLexeme(s) }

  /** No `*` in y is directly followed by `/`. */
  predicate NoCloser(y: string) {
    forall i | 0 <= i < |y| - 1 :: !(y[i] == '*' && y[i + 1] == '/')
  }

  lemma NoCloserCons(a: char, y: string)
    ensures NoCloser([a] + y) <==> !(a == '*' && |y| > 0 && y[0] == '/') && NoCloser(y)
  {
    var z := [a] + y;
    if NoCloser(z) {
      if |y| > 0 { assert z[0] == a && z[1] == y[0]; }
      forall i | 0 <= i < |y| - 1 ensures !(y[i] == '*' && y[i + 1] == '/') {
        assert z[i + 1] == y[i] && z[i + 2] == y[i + 1];
      }
    }
    if !(a == '*' && |y| > 0 && y[0] == '/') && NoCloser(y) {
      forall i | 0 <= i < |z| - 1 ensures !(z[i] == '*' && z[i + 1] == '/') {
        if i > 0 { assert z[i] == y[i - 1] && z[i + 1] == y[i]; }
      }
    }
  }

  /** What a run of the automaton from InText computes. */
  lemma {:induction false} RunFromText(x: string)
    ensures Run(InText, x) == if !NoCloser(x) then None
                              else if |x| > 0 && x[|x| - 1] == '*' then Some(InStars)
                              else Some(InText)
    decreases |x|, 0
  {
    if x != [] {
      var c := x[0];
      assert x == [c] + x[1..];
      NoCloserCons(c, x[1..]);
      if c == '*' { RunFromStars(x[1..]); } else { RunFromText(x[1..]); }
    }
  }

  /** What a run of the automaton from InStars computes: the star already
      read counts as the first character. */
  lemma {:induction false} RunFromStars(x: string)
    ensures Run(InStars, x) == if !NoCloser("*" + x) then None
                               else if |x| == 0 || x[|x| - 1] == '*' then Some(InStars)
                               else Some(InText)
    decreases |x|, 1
  {
    NoCloserCons('*', x);
    if x != [] {
      var c := x[0];
      assert x == [c] + x[1..];
      NoCloserCons(c, x[1..]);
      if c == '*' { RunFromStars(x[1..]); } else if c != '/' { RunFromText(x[1..]); }
    }
  }

  // The block comment body pattern accepts exactly the non-empty texts that
  // end with a star and contain no star-slash: the comment ends at the first
  // star-slash and does not nest.
  lemma BlockBodyMeaning(x: string)
    ensures MatchesBlockBody(x) <==> |x| >= 1 && x[|x| - 1] == '*' && NoCloser(x)
  {
    RunFromText(x);
  }

  /** A line comment runs to the end of its line: `.*` takes every further
      character except the newline. */
  lemma LineCommentRunsToNewline(s: string, c: char)
    requires IsLineCommentLexeme(s)
    ensures IsLineCommentLexeme(s + [c]) <==> c != '\n'
  {
    var t := s + [c];
    assert t[0] == s[0] && t[1..] == s[1..] + [c];
    if |s| >= 2 && s[0] == '-' && s[1] == '-' {
      assert t[1] == s[1] && t[2..] == s[2..] + [c];
    }
    if IsLineCommentLexeme(t) {
      assert t[|t| - 1] == c;
    }
  }

  lemma LineCommentExamples()
    ensures IsLineCommentLexeme("--") && IsLineCommentLexeme("# note")
    ensures IsLineCommentLexeme("-- a\r")
    ensures !IsLineCommentLexeme("-- a\nb") && !IsLineCommentLexeme("-a")
    ensures IsCommentLexeme("# x") && IsCommentLexeme("/* x */") && !IsCommentLexeme("x")
  {
    var s, b := "/* x */", " x *";
    assert s[2..|s| - 1] == b;
    BlockBodyMeaning(b);
    var t := "-- a\nb";
    assert t[2..][2] == '\n';
  }

  lemma BlockCommentExamples()
    ensures IsBlockCommentLexeme("/**/")
    ensures IsBlockCommentLexeme("/* a **/")
    ensures !IsBlockCommentLexeme("/* a */ b */")
    ensures !IsBlockCommentLexeme("/* /* */ */")
  {
    var s0, b0 := "/**/", "*";
    assert s0[2..|s0| - 1] == b0;
    BlockBodyMeaning(b0);
    var s1, b1 := "/* a **/", " a **";
    assert s1[2..|s1| - 1] == b1;
    BlockBodyMeaning(b1);
    var s2, b2 := "/* a */ b */", " a */ b *";
    assert s2[2..|s2| - 1] == b2;
    BlockBodyMeaning(b2);
    assert b2[3] == '*' && b2[4] == '/';
    var s3, b3 := "/* /* */ */", " /* */ *";
    assert s3[2..|s3| - 1] == b3;
    BlockBodyMeaning(b3);
    assert b3[4] == '*' && b3[5] == '/';
  }

  /** The number of leading digits of s. */
  function LeadingDigits(s: string): (n: nat)
    ensures n <= |s|
    ensures forall i | 0 <= i < n :: IsDigit(s[i])
    ensures n < |s| ==> !IsDigit(s[n])
  {
    if |s| > 0 && IsDigit(s[0]) then 1 + LeadingDigits(s[1..]) else 0
  }

  /** The number of leading word characters of s. */
  function LeadingWordChars(s: string): (n: nat)
    ensures n <= |s|
    ensures forall i | 0 <= i < n :: IsWordChar(s[i])
    ensures n < |s| ==> !IsWordChar(s[n])
  {
    if |s| > 0 && IsWordChar(s[0]) then 1 + LeadingWordChars(s[1..]) else 0
  }

  /** The length of the longest prefix of s that is an identifier lexeme, or
      0 when no prefix is one; the maximal munch a lexer takes. */
  function ScanIdentifier(s: string): (n: nat)
    ensures n <= |s|
    ensures n > 0 ==> IsIdentifierLexeme(s[..n])
    ensures forall k | n < k <= |s| :: !IsIdentifierLexeme(s[..k])
  {
    if |s| > 0 && IsLetter(s[0]) then
      var m := LeadingWordChars(s[1..]);
      assert s[..m + 1][1..] == s[1..][..m];
      assert forall k | m + 1 < k <= |s| :: s[..k][1..][m] == s[1..][m];
      1 + m
    else 0
  }

  /** A decision procedure for `float` that reads the digits before the dot
      once instead of guessing where the dot is. */
  predicate IsFloatScanned(s: string) {
    var k := LeadingDigits(s);
    1 <= k < |s| && s[k] == '.' && Digits1(s[k + 1..])
  }

  lemma FloatScanAgrees(s: string)
    ensures IsFloatLexeme(s) <==> IsFloatScanned(s)
  {
    var n := LeadingDigits(s);
    if IsFloatLexeme(s) {
      var k :| 0 <= k < |s| && s[k] == '.' && Digits1(s[..k]) && Digits1(s[k + 1..]);
      assert forall i | 0 <= i < k :: IsDigit(s[i]) by {
        forall i | 0 <= i < k ensures IsDigit(s[i]) { assert s[..k][i] == s[i]; }
      }
      assert n == k;
    }
    if IsFloatScanned(s) {
      assert Digits1(s[..n]) by {
        forall i | 0 <= i < n ensures IsDigit(s[..n][i]) { assert s[..n][i] == s[i]; }
      }
    }
  }

  /** A float has a digit at both ends, exactly one dot, and every other
      character is a digit, so there is no exponent form. */
  lemma FloatShape(s: string)
    requires IsFloatLexeme(s)
    ensures IsDigit(s[0]) && IsDigit(s[|s| - 1])
    ensures forall i | 0 <= i < |s| :: IsDigit(s[i]) || s[i] == '.'
    ensures forall i, j | 0 <= i < j < |s| && s[i] == '.' :: s[j] != '.'
  {
    var k :| 0 <= k < |s| && s[k] == '.' && Digits1(s[..k]) && Digits1(s[k + 1..]);
    assert forall i | 0 <= i < k :: s[..k][i] == s[i];
    assert forall i | k < i < |s| :: s[k + 1..][i - k - 1] == s[i];
  }

  /** At most one of the literal classes, and the identifier class, matches a
      lexeme; the lexer never has to choose between two of them. */
  lemma LiteralClassesDisjoint(s: string)
    ensures IsIntegerLexeme(s) ==> !IsFloatLexeme(s) && !IsHexLexeme(s) && !IsBitLexeme(s) && !IsStringLexeme(s)
    ensures IsFloatLexeme(s) ==> !IsHexLexeme(s) && !IsBitLexeme(s) && !IsStringLexeme(s)
    ensures IsHexLexeme(s) ==> !IsBitLexeme(s) && !IsStringLexeme(s)
    ensures IsBitLexeme(s) ==> !IsStringLexeme(s)
    ensures IsIdentifierLexeme(s) ==>
      !IsIntegerLexeme(s) && !IsFloatLexeme(s) && !IsHexLexeme(s) && !IsBitLexeme(s) && !IsStringLexeme(s)
  {
    if IsFloatLexeme(s) {
      FloatShape(s);
      var k :| 0 <= k < |s| && s[k] == '.';
      assert 1 <= k && s[1..][k - 1] == s[k];
    }
    if |s| >= 2 {
      assert s[1..][0] == s[1];
    }
  }

  /** The double-quoted string shape as written: a single quote inside ends
      the match, a double quote inside does not. */
  lemma StringLexemeExamples()
    ensures IsStringLexeme("'it\"s'")
    ensures !IsStringLexeme("\"it's\"")
    ensures IsStringLexeme("\"a\"b\"")
    ensures IsStringLexeme("''")
    ensures !IsStringLexeme("'a\"")
  {
    var s := "\"it's\"";
    assert s[1..|s| - 1][2] == '\'';
  }

  /** Keyword-shaped words are identifier lexemes too: the grammar reserves
      no word, and `` `select` `` is accepted as a name. */
  lemma KeywordsAreIdentifierShaped()
    ensures IsIdentifierLexeme("SELECT") && IsIdentifierLexeme("select")
    ensures IsIdentifierLexeme("true") && IsIdentifierLexeme("NULL")
    ensures !IsIdentifierLexeme("_x") && !IsIdentifierLexeme("1a") && IsIdentifierLexeme("a_1")
    ensures !IsIdentifierLexeme("GROUP BY")
  {
    SpaceIsNoWordChar("GROUP BY");
    assert "GROUP BY"[5] == ' ';
  }

  lemma NumericLexemeExamples()
    ensures IsIntegerLexeme("-12") && !IsIntegerLexeme("-") && !IsIntegerLexeme("+1")
    ensures IsFloatLexeme("1.5") && !IsFloatLexeme("1.") && !IsFloatLexeme(".5") && !IsFloatLexeme("1e5")
    ensures IsHexLexeme("0x1F") && IsHexLexeme("X'1f'") && !IsHexLexeme("0X1F") && !IsHexLexeme("x''")
    ensures IsBitLexeme("0b101") && IsBitLexeme("b'01'") && !IsBitLexeme("0b2") && !IsBitLexeme("0B1")
  {
    assert !IsDigit("-"[0]) && !IsDigit("+1"[0]) && "-+1"[1..] == "+1";
    assert "1.5"[..1] == "1" && "1.5"[2..] == "5";
    FloatScanAgrees("1.");
    FloatScanAgrees(".5");
    FloatScanAgrees("1e5");
    assert "0b2"[2..] == "2" && !IsBinaryDigit("2"[0]);
  }
}
