/**
 * Concrete inputs from tests/test_lexer.py, scanned token by token. Each
 * step lemma below is one turn of the scanning loop at a character class
 * whose winning rule `Rules` pins down.
 */
module Scenarios {
  import opened Wrappers
  import opened Tokens
  import opened Rules
  import opened Scanner

  /** `text` has the characters of `w`. The scenario lemmas take their input
      through this predicate rather than as a literal, which keeps the
      verifier from evaluating the whole scan on a literal text. */
  predicate Spells(text: string, w: string)
  {
    |text| == |w| && forall k | 0 <= k < |w| :: text[k] == w[k]
  }

  /** A run of `n` spaces and tabs is one WHITESPACE token, kept only when
      whitespace is not skipped. */
  lemma BlankStep(text: string, c: Cursor, n: nat, ws: bool, cm: bool)
    requires c.pos + n <= |text| && n >= 1
    requires forall j | c.pos <= j < c.pos + n :: IsBlank(text[j])
    requires c.pos + n == |text| || !IsBlank(text[c.pos + n])
    ensures ScanFrom(RuleTable, text, c, ws, cm) ==
      Prepend(Kept(Token(WHITESPACE, text[c.pos..c.pos + n], c.line, c.column), ws, cm),
        ScanFrom(RuleTable, text, Cursor(c.pos + n, c.line, c.column + n), ws, cm))
    ensures ws ==> (ScanFrom(RuleTable, text, c, ws, cm) ==
      ScanFrom(RuleTable, text, Cursor(c.pos + n, c.line, c.column + n), ws, cm))
  {
    var v := text[c.pos..c.pos + n];
    BlanksWin(text, c.pos);
    RunLengthIs(text, c.pos, IsBlank, n);
    assert Classify(RuleTable[27].kind, v) == WHITESPACE;
    assert Advance(c, WHITESPACE, n) == Cursor(c.pos + n, c.line, c.column + n);
    ScanWinner(RuleTable, text, c, 27, n, ws, cm);
  }

  /** A line feed is one NEWLINE token, and the scan goes on at column 1 of
      the next line. */
  lemma NewlineStep(text: string, c: Cursor, ws: bool, cm: bool)
    requires c.pos < |text| && text[c.pos] == '\n'
    ensures ScanFrom(RuleTable, text, c, ws, cm) ==
      Prepend([Token(NEWLINE, "\n", c.line, c.column)],
        ScanFrom(RuleTable, text, Cursor(c.pos + 1, c.line + 1, 1), ws, cm))
  {
    var next := Cursor(c.pos + 1, c.line + 1, 1);
    var t := Token(NEWLINE, "\n", c.line, c.column);
    assert text[c.pos..c.pos + 1] == "\n";
    NewlineWins(text, c.pos);
    assert Classify(RuleTable[28].kind, "\n") == NEWLINE;
    assert Advance(c, NEWLINE, 1) == next;
    assert Kept(t, ws, cm) == [t];
    ScanWinner(RuleTable, text, c, 28, 1, ws, cm);
  }

  /** The identifier rule takes exactly the word of length `n` at `i`. */
  lemma WordWins(s: string, i: nat, n: nat)
    requires i + n <= |s| && n >= 1 && IsIdentStart(s[i])
    requires forall j | i + 1 <= j < i + n :: IsIdentPart(s[j])
    requires i + n == |s| || !IsIdentPart(s[i + n])
    ensures FirstMatch(s, i) == Some(Winner(26, n)) && RuleTable[26].kind == IDENTIFIER
  {
    RunLengthIs(s, i + 1, IsIdentPart, n - 1);
    IdentifierWins(s, i);
  }

  /** `int` is looked up as the INT keyword; kept apart so that the lookup
      is not redone next to the rule table. */
  lemma IntKeyword(w: string)
    requires w == "int"
    ensures Classify(IDENTIFIER, w) == INT
  {
  }

  /** `int` followed by a blank is one kept INT token; the column moves by three. */
  lemma IntStep(text: string, c: Cursor)
    requires c.pos + 3 < |text| && text[c.pos] == 'i' && text[c.pos + 1] == 'n' && text[c.pos + 2] == 't'
    requires text[c.pos + 3] == ' '
    ensures ScanFrom(RuleTable, text, c, true, true) ==
      Prepend([Token(INT, "int", c.line, c.column)],
        ScanFrom(RuleTable, text, Cursor(c.pos + 3, c.line, c.column + 3), true, true))
  {
    assert text[c.pos..c.pos + 3] == "int";
    IntKeyword(text[c.pos..c.pos + 3]);
    WordStep(text, c, 3, INT, true, true);
  }

  /** A word's looked-up kind is never NEWLINE and is kept whatever the
      flags. */
  lemma WordKept(v: string, kind: TokenKind, ws: bool, cm: bool)
    requires kind == Classify(IDENTIFIER, v)
    ensures kind != NEWLINE && Keep(kind, ws, cm)
  {
    if kind != IDENTIFIER {
      KeywordKinds(v);
    }
  }

  /** A letter or underscore followed by `n - 1` identifier characters is
      one token: an identifier, or the keyword it spells. */
  lemma WordStep(text: string, c: Cursor, n: nat, kind: TokenKind, ws: bool, cm: bool)
    requires c.pos + n <= |text| && n >= 1 && IsIdentStart(text[c.pos])
    requires forall j | c.pos + 1 <= j < c.pos + n :: IsIdentPart(text[j])
    requires c.pos + n == |text| || !IsIdentPart(text[c.pos + n])
    requires kind == Classify(IDENTIFIER, text[c.pos..c.pos + n])
    ensures ScanFrom(RuleTable, text, c, ws, cm) ==
      Prepend([Token(kind, text[c.pos..c.pos + n], c.line, c.column)],
        ScanFrom(RuleTable, text, Cursor(c.pos + n, c.line, c.column + n), ws, cm))
  {
    WordWins(text, c.pos, n);
    WordKept(text[c.pos..c.pos + n], kind, ws, cm);
    assert Advance(c, kind, n) == Cursor(c.pos + n, c.line, c.column + n);
    ScanWinner(RuleTable, text, c, 26, n, ws, cm);
  }

  /** A run of `n` digits followed by neither a digit nor a `.` is one
      integer NUMBER token. */
  lemma IntegerStep(text: string, c: Cursor, n: nat, ws: bool, cm: bool)
    requires c.pos + n <= |text| && n >= 1
    requires forall j | c.pos <= j < c.pos + n :: IsDigit(text[j])
    requires c.pos + n == |text| || (!IsDigit(text[c.pos + n]) && text[c.pos + n] != '.')
    ensures ScanFrom(RuleTable, text, c, ws, cm) ==
      Prepend([Token(NUMBER, text[c.pos..c.pos + n], c.line, c.column)],
        ScanFrom(RuleTable, text, Cursor(c.pos + n, c.line, c.column + n), ws, cm))
  {
    RunLengthIs(text, c.pos, IsDigit, n);
    assert MatchAt(FloatNumber, text, c.pos).None?;
    IntegerWins(text, c.pos);
    assert Classify(RuleTable[5].kind, text[c.pos..c.pos + n]) == NUMBER;
    assert Advance(c, NUMBER, n) == Cursor(c.pos + n, c.line, c.column + n);
    ScanWinner(RuleTable, text, c, 5, n, ws, cm);
  }

  /** A one-character operator or delimiter whose rule wins is one token of
      that rule's kind. */
  lemma SymbolStep(text: string, c: Cursor, k: nat, kind: TokenKind, ws: bool, cm: bool)
    requires c.pos < |text| && FirstMatch(text, c.pos) == Some(Winner(k, 1))
    requires k < |RuleTable| && RuleTable[k].kind == kind
    requires kind != NEWLINE && kind != IDENTIFIER && kind != WHITESPACE && kind != COMMENT
    ensures ScanFrom(RuleTable, text, c, ws, cm) ==
      Prepend([Token(kind, [text[c.pos]], c.line, c.column)],
        ScanFrom(RuleTable, text, Cursor(c.pos + 1, c.line, c.column + 1), ws, cm))
  {
    assert text[c.pos..c.pos + 1] == [text[c.pos]];
    assert Classify(kind, [text[c.pos]]) == kind;
    assert Advance(c, kind, 1) == Cursor(c.pos + 1, c.line, c.column + 1);
    ScanWinner(RuleTable, text, c, k, 1, ws, cm);
  }

  /** At a character no rule can take, the scan stops with the error for
      that character and emits nothing more. */
  lemma StuckStep(text: string, c: Cursor, ws: bool, cm: bool)
    requires c.pos < |text| && !IsScannableStart(text[c.pos])
    ensures ScanFrom(RuleTable, text, c, ws, cm) ==
      Scan([], c, Some(LexError(text[c.pos], c.line, c.column)))
  {
    NoRuleMatchesIff(text, c.pos);
    ScanStuck(RuleTable, text, c, ws, cm);
  }

  /** A text that is a single word scans to that word's token alone. */
  lemma WordScan(w: string, c: Cursor, kind: TokenKind, ws: bool, cm: bool)
    requires |w| >= 1 && IsIdentStart(w[0]) && forall j | 1 <= j < |w| :: IsIdentPart(w[j])
    requires kind == Classify(IDENTIFIER, w)
    requires c.pos == 0 && c.line == 1 && c.column == 1
    ensures ScanFrom(RuleTable, w, c, ws, cm) == Scan([Token(kind, w, 1, 1)], Cursor(|w|, 1, 1 + |w|), None)
  {
    var end := Cursor(|w|, 1, 1 + |w|);
    assert w[c.pos..c.pos + |w|] == w;
    WordStep(w, c, |w|, kind, ws, cm);
    ScanAtEnd(RuleTable, w, end, ws, cm);
    assert [Token(kind, w, 1, 1)] + [] == [Token(kind, w, 1, 1)];
  }

  /** A scan that emits one token and reaches the end tokenizes to that
      token and EOF; kept apart from the rule table to stay cheap. */
  lemma TokenizeOneToken(rules: seq<Rule>, text: string, ws: bool, cm: bool, t: Token, c: Cursor)
    requires ScanFrom(rules, text, Start, ws, cm) == Scan([t], c, None)
    ensures Tokenize(rules, text, ws, cm) == Ok([t, Token(EOF, "", c.line, c.column)])
  {
    TokenizeOfScan(rules, text, ws, cm, [t], c);
    assert [t] + [Token(EOF, "", c.line, c.column)] == [t, Token(EOF, "", c.line, c.column)];
  }

  /** A single word, whatever the flags, is exactly its token followed by
      EOF: the word is taken whole. */
  lemma WordAlone(w: string, kind: TokenKind, ws: bool, cm: bool)
    requires |w| >= 1 && IsIdentStart(w[0]) && forall j | 1 <= j < |w| :: IsIdentPart(w[j])
    requires kind == Classify(IDENTIFIER, w)
    ensures Tokenize(RuleTable, w, ws, cm) == Ok([Token(kind, w, 1, 1), Token(EOF, "", 1, 1 + |w|)])
  {
    WordScan(w, Start, kind, ws, cm);
    TokenizeOneToken(RuleTable, w, ws, cm, Token(kind, w, 1, 1), Cursor(|w|, 1, 1 + |w|));
  }

  /** A keyword on its own, whatever the flags, is exactly its keyword
      token followed by EOF: the lookup turns the whole word into the
      keyword's kind. */
  lemma KeywordAlone(w: string, ws: bool, cm: bool)
    requires w in Keywords
    ensures Tokenize(RuleTable, w, ws, cm) == Ok([Token(Keywords[w], w, 1, 1), Token(EOF, "", 1, 1 + |w|)])
  {
    KeywordsLowercase(w);
    WordAlone(w, Keywords[w], ws, cm);
  }

  /** The two trailing spaces of `"   \t\n  "` are skipped and the scan ends
      at column 3 of line 2. */
  lemma WhitespaceOnlyTail(text: string, c: Cursor)
    requires Spells(text, "   \t\n  ") && c.pos == 5 && c.line == 2 && c.column == 1
    ensures ScanFrom(RuleTable, text, c, true, true) == Scan([], Cursor(7, 2, 3), None)
  {
    BlankStep(text, c, 2, true, true);
    ScanAtEnd(RuleTable, text, Cursor(c.pos + 2, c.line, c.column + 2), true, true);
  }

  /** From the line feed of `"   \t\n  "` on, the scan emits only the
      NEWLINE. */
  lemma WhitespaceOnlyFromNewline(text: string, c: Cursor)
    requires Spells(text, "   \t\n  ") && c.pos == 4 && c.line == 1 && c.column == 5
    ensures ScanFrom(RuleTable, text, c, true, true) ==
      Scan([Token(NEWLINE, "\n", 1, 5)], Cursor(7, 2, 3), None)
  {
    NewlineStep(text, c, true, true);
    WhitespaceOnlyTail(text, Cursor(c.pos + 1, c.line + 1, 1));
  }

  /** Scanning all of `"   \t\n  "` with whitespace skipped emits only the
      NEWLINE, at column 5 of line 1. */
  lemma WhitespaceOnlyScan(text: string, c: Cursor)
    requires Spells(text, "   \t\n  ") && c.pos == 0 && c.line == 1 && c.column == 1
    ensures ScanFrom(RuleTable, text, c, true, true) ==
      Scan([Token(NEWLINE, "\n", 1, 5)], Cursor(7, 2, 3), None)
  {
    BlankStep(text, c, 4, true, true);
    WhitespaceOnlyFromNewline(text, Cursor(c.pos + 4, c.line, c.column + 4));
  }

  /** `"   \t\n  "` tokenized with whitespace and comments skipped: only the
      NEWLINE and the EOF remain, and the EOF stands on line 2 after the two
      trailing spaces. */
  lemma WhitespaceOnly(text: string)
    requires text == "   \t\n  "
    ensures Tokenize(RuleTable, text, true, true) ==
      Ok([Token(NEWLINE, "\n", 1, 5), Token(EOF, "", 2, 3)])
  {
    var newline, eof := Token(NEWLINE, "\n", 1, 5), Token(EOF, "", 2, 3);
    assert [newline] + [eof] == [newline, eof];
    WhitespaceOnlyScan(text, Start);
  }

  // ---------------------------------------------------------------------
  // "int x\n= 10;" with whitespace kept: the token after the line feed
  // starts at column 1 of line 2.

  /** The closing `;` at column 5 of line 2, then the end of the text. */
  lemma LineColumnAt10(text: string, c: Cursor)
    requires Spells(text, "int x\n= 10;") && c.pos == 10 && c.line == 2 && c.column == 5
    ensures ScanFrom(RuleTable, text, c, false, true) ==
      Scan([Token(SEMICOLON, ";", 2, 5)], Cursor(11, 2, 6), None)
  {
    DelimiterWins(text, c.pos);
    SymbolStep(text, c, FirstMatch(text, c.pos).value.rule, SEMICOLON, false, true);
    ScanAtEnd(RuleTable, text, Cursor(c.pos + 1, c.line, c.column + 1), false, true);
  }

  /** The number `10` at column 3 of line 2. */
  lemma LineColumnAt8(text: string, c: Cursor)
    requires Spells(text, "int x\n= 10;") && c.pos == 8 && c.line == 2 && c.column == 3
    ensures ScanFrom(RuleTable, text, c, false, true) ==
      Scan([Token(NUMBER, "10", 2, 3)] + [Token(SEMICOLON, ";", 2, 5)], Cursor(11, 2, 6), None)
  {
    assert text[c.pos..c.pos + 2] == "10";
    IntegerStep(text, c, 2, false, true);
    LineColumnAt10(text, Cursor(c.pos + 2, c.line, c.column + 2));
  }

  /** The blank at column 2 of line 2, kept as a WHITESPACE token. */
  lemma LineColumnAt7(text: string, c: Cursor)
    requires Spells(text, "int x\n= 10;") && c.pos == 7 && c.line == 2 && c.column == 2
    ensures ScanFrom(RuleTable, text, c, false, true) ==
      Scan([Token(WHITESPACE, " ", 2, 2)] + (
        [Token(NUMBER, "10", 2, 3)] + [Token(SEMICOLON, ";", 2, 5)]), Cursor(11, 2, 6), None)
  {
    assert text[c.pos..c.pos + 1] == " ";
    BlankStep(text, c, 1, false, true);
    LineColumnAt8(text, Cursor(c.pos + 1, c.line, c.column + 1));
  }

  /** `=` is the first token of line 2. */
  lemma LineColumnAt6(text: string, c: Cursor)
    requires Spells(text, "int x\n= 10;") && c.pos == 6 && c.line == 2 && c.column == 1
    ensures ScanFrom(RuleTable, text, c, false, true) ==
      Scan([Token(ASSIGN, "=", 2, 1)] + ([Token(WHITESPACE, " ", 2, 2)] + (
        [Token(NUMBER, "10", 2, 3)] + [Token(SEMICOLON, ";", 2, 5)])), Cursor(11, 2, 6), None)
  {
    AssignWins(text, c.pos);
    SymbolStep(text, c, 12, ASSIGN, false, true);
    LineColumnAt7(text, Cursor(c.pos + 1, c.line, c.column + 1));
  }

  /** The line feed ends line 1 at column 6. */
  lemma LineColumnAt5(text: string, c: Cursor)
    requires Spells(text, "int x\n= 10;") && c.pos == 5 && c.line == 1 && c.column == 6
    ensures ScanFrom(RuleTable, text, c, false, true) ==
      Scan([Token(NEWLINE, "\n", 1, 6)] + ([Token(ASSIGN, "=", 2, 1)] + (
        [Token(WHITESPACE, " ", 2, 2)] + (
        [Token(NUMBER, "10", 2, 3)] + [Token(SEMICOLON, ";", 2, 5)]))), Cursor(11, 2, 6), None)
  {
    NewlineStep(text, c, false, true);
    LineColumnAt6(text, Cursor(c.pos + 1, c.line + 1, 1));
  }

  /** The identifier `x` at column 5 of line 1. */
  lemma LineColumnAt4(text: string, c: Cursor)
    requires Spells(text, "int x\n= 10;") && c.pos == 4 && c.line == 1 && c.column == 5
    ensures ScanFrom(RuleTable, text, c, false, true) ==
      Scan([Token(IDENTIFIER, "x", 1, 5)] + ([Token(NEWLINE, "\n", 1, 6)] + (
        [Token(ASSIGN, "=", 2, 1)] + ([Token(WHITESPACE, " ", 2, 2)] + (
        [Token(NUMBER, "10", 2, 3)] + [Token(SEMICOLON, ";", 2, 5)])))), Cursor(11, 2, 6), None)
  {
    assert text[c.pos..c.pos + 1] == "x";
    WordStep(text, c, 1, IDENTIFIER, false, true);
    LineColumnAt5(text, Cursor(c.pos + 1, c.line, c.column + 1));
  }

  /** The blank at column 4 of line 1, kept as a WHITESPACE token. */
  lemma LineColumnAt3(text: string, c: Cursor)
    requires Spells(text, "int x\n= 10;") && c.pos == 3 && c.line == 1 && c.column == 4
    ensures ScanFrom(RuleTable, text, c, false, true) ==
      Scan([Token(WHITESPACE, " ", 1, 4)] + ([Token(IDENTIFIER, "x", 1, 5)] + (
        [Token(NEWLINE, "\n", 1, 6)] + ([Token(ASSIGN, "=", 2, 1)] + (
        [Token(WHITESPACE, " ", 2, 2)] + (
        [Token(NUMBER, "10", 2, 3)] + [Token(SEMICOLON, ";", 2, 5)]))))), Cursor(11, 2, 6), None)
  {
    assert text[c.pos..c.pos + 1] == " ";
    BlankStep(text, c, 1, false, true);
    LineColumnAt4(text, Cursor(c.pos + 1, c.line, c.column + 1));
  }

  /** `int` at line 1, column 1, is the INT keyword. */
  lemma LineColumnScan(text: string, c: Cursor)
    requires Spells(text, "int x\n= 10;") && c.pos == 0 && c.line == 1 && c.column == 1
    ensures ScanFrom(RuleTable, text, c, false, true) ==
      Scan([Token(INT, "int", 1, 1)] + ([Token(WHITESPACE, " ", 1, 4)] + (
        [Token(IDENTIFIER, "x", 1, 5)] + ([Token(NEWLINE, "\n", 1, 6)] + (
        [Token(ASSIGN, "=", 2, 1)] + ([Token(WHITESPACE, " ", 2, 2)] + (
        [Token(NUMBER, "10", 2, 3)] + [Token(SEMICOLON, ";", 2, 5)])))))), Cursor(11, 2, 6), None)
  {
    IntKeyword(text[c.pos..c.pos + 3]);
    WordStep(text, c, 3, INT, false, true);
    LineColumnAt3(text, Cursor(c.pos + 3, c.line, c.column + 3));
  }

  /** `"int x\n= 10;"` tokenized with whitespace kept: `int` is at line 1,
      column 1, and the ASSIGN after the line feed is at line 2, column 1. */
  lemma LineColumn(text: string)
    requires text == "int x\n= 10;"
    ensures Tokenize(RuleTable, text, false, true) ==
      Ok([Token(INT, "int", 1, 1), Token(WHITESPACE, " ", 1, 4), Token(IDENTIFIER, "x", 1, 5),
        Token(NEWLINE, "\n", 1, 6), Token(ASSIGN, "=", 2, 1), Token(WHITESPACE, " ", 2, 2),
        Token(NUMBER, "10", 2, 3), Token(SEMICOLON, ";", 2, 5), Token(EOF, "", 2, 6)])
  {
    var t0, t3, t4, t5 := Token(INT, "int", 1, 1), Token(WHITESPACE, " ", 1, 4),
      Token(IDENTIFIER, "x", 1, 5), Token(NEWLINE, "\n", 1, 6);
    var t6, t7, t8, t10 := Token(ASSIGN, "=", 2, 1), Token(WHITESPACE, " ", 2, 2),
      Token(NUMBER, "10", 2, 3), Token(SEMICOLON, ";", 2, 5);
    var eof := Token(EOF, "", 2, 6);
    assert [t0] + ([t3] + ([t4] + ([t5] + ([t6] + ([t7] + ([t8] + [t10])))))) + [eof] ==
      [t0, t3, t4, t5, t6, t7, t8, t10, eof];
    LineColumnScan(text, Start);
  }

  // ---------------------------------------------------------------------
  // "int x = @;": the scan stops at `@`, column 9 of line 1. The expected
  // token lists are written right-nested, the way each step prepends one
  // token to the rest of the scan.

  /** `@` at column 9 stops the scan. */
  lemma InvalidAt8(text: string, c: Cursor)
    requires Spells(text, "int x = @;") && c.pos == 8 && c.line == 1 && c.column == 9
    ensures ScanFrom(RuleTable, text, c, true, true) ==
      Scan([], Cursor(8, 1, 9), Some(LexError('@', 1, 9)))
  {
    StuckStep(text, c, true, true);
  }

  /** The blank before `@` is skipped. */
  lemma InvalidAt7(text: string, c: Cursor)
    requires Spells(text, "int x = @;") && c.pos == 7 && c.line == 1 && c.column == 8
    ensures ScanFrom(RuleTable, text, c, true, true) ==
      Scan([], Cursor(8, 1, 9), Some(LexError('@', 1, 9)))
  {
    BlankStep(text, c, 1, true, true);
    InvalidAt8(text, Cursor(c.pos + 1, c.line, c.column + 1));
  }

  /** `=` at column 7. */
  lemma InvalidAt6(text: string, c: Cursor)
    requires Spells(text, "int x = @;") && c.pos == 6 && c.line == 1 && c.column == 7
    ensures ScanFrom(RuleTable, text, c, true, true) ==
      Scan([Token(ASSIGN, "=", 1, 7)], Cursor(8, 1, 9), Some(LexError('@', 1, 9)))
  {
    AssignWins(text, c.pos);
    SymbolStep(text, c, 12, ASSIGN, true, true);
    InvalidAt7(text, Cursor(c.pos + 1, c.line, c.column + 1));
  }

  /** The blank before `=` is skipped. */
  lemma InvalidAt5(text: string, c: Cursor)
    requires Spells(text, "int x = @;") && c.pos == 5 && c.line == 1 && c.column == 6
    ensures ScanFrom(RuleTable, text, c, true, true) ==
      Scan([Token(ASSIGN, "=", 1, 7)], Cursor(8, 1, 9), Some(LexError('@', 1, 9)))
  {
    BlankStep(text, c, 1, true, true);
    InvalidAt6(text, Cursor(c.pos + 1, c.line, c.column + 1));
  }

  /** The identifier `x` at column 5. */
  lemma InvalidAt4(text: string, c: Cursor)
    requires Spells(text, "int x = @;") && c.pos == 4 && c.line == 1 && c.column == 5
    ensures ScanFrom(RuleTable, text, c, true, true) ==
      Scan([Token(IDENTIFIER, "x", 1, 5)] + [Token(ASSIGN, "=", 1, 7)],
        Cursor(8, 1, 9), Some(LexError('@', 1, 9)))
  {
    assert text[c.pos..c.pos + 1] == "x";
    WordStep(text, c, 1, IDENTIFIER, true, true);
    InvalidAt5(text, Cursor(c.pos + 1, c.line, c.column + 1));
  }

  /** The blank before `x` is skipped. */
  lemma InvalidAt3(text: string, c: Cursor)
    requires Spells(text, "int x = @;") && c.pos == 3 && c.line == 1 && c.column == 4
    ensures ScanFrom(RuleTable, text, c, true, true) ==
      Scan([Token(IDENTIFIER, "x", 1, 5)] + [Token(ASSIGN, "=", 1, 7)],
        Cursor(8, 1, 9), Some(LexError('@', 1, 9)))
  {
    BlankStep(text, c, 1, true, true);
    InvalidAt4(text, Cursor(c.pos + 1, c.line, c.column + 1));
  }

  /** `int`, `x` and `=` are scanned before the stop at `@`. */
  lemma InvalidScan(text: string, c: Cursor)
    requires Spells(text, "int x = @;") && c.pos == 0 && c.line == 1 && c.column == 1
    ensures ScanFrom(RuleTable, text, c, true, true) ==
      Scan([Token(INT, "int", 1, 1)] + ([Token(IDENTIFIER, "x", 1, 5)] + [Token(ASSIGN, "=", 1, 7)]),
        Cursor(8, 1, 9), Some(LexError('@', 1, 9)))
  {
    IntStep(text, c);
    InvalidAt3(text, Cursor(c.pos + 3, c.line, c.column + 3));
  }

  /** `"int x = @;"` fails with the error for `@` at line 1, column 9. */
  lemma InvalidCharacter(text: string)
    requires text == "int x = @;"
    ensures Tokenize(RuleTable, text, true, true) == Err(LexError('@', 1, 9))
  {
    InvalidScan(text, Start);
  }

  // ---------------------------------------------------------------------
  // "int x = 10 + 5;" with whitespace skipped.

  /** The closing `;` at column 15, then the end of the text. */
  lemma SimpleAt14(text: string, c: Cursor)
    requires Spells(text, "int x = 10 + 5;") && c.pos == 14 && c.line == 1 && c.column == 15
    ensures ScanFrom(RuleTable, text, c, true, true) ==
      Scan([Token(SEMICOLON, ";", 1, 15)], Cursor(15, 1, 16), None)
  {
    DelimiterWins(text, c.pos);
    SymbolStep(text, c, FirstMatch(text, c.pos).value.rule, SEMICOLON, true, true);
    ScanAtEnd(RuleTable, text, Cursor(c.pos + 1, c.line, c.column + 1), true, true);
  }

  /** The number `5` at column 14. */
  lemma SimpleAt13(text: string, c: Cursor)
    requires Spells(text, "int x = 10 + 5;") && c.pos == 13 && c.line == 1 && c.column == 14
    ensures ScanFrom(RuleTable, text, c, true, true) ==
      Scan([Token(NUMBER, "5", 1, 14)] + [Token(SEMICOLON, ";", 1, 15)], Cursor(15, 1, 16), None)
  {
    assert text[c.pos..c.pos + 1] == "5";
    IntegerStep(text, c, 1, true, true);
    SimpleAt14(text, Cursor(c.pos + 1, c.line, c.column + 1));
  }

  /** The blank before `5` is skipped. */
  lemma SimpleAt12(text: string, c: Cursor)
    requires Spells(text, "int x = 10 + 5;") && c.pos == 12 && c.line == 1 && c.column == 13
    ensures ScanFrom(RuleTable, text, c, true, true) ==
      Scan([Token(NUMBER, "5", 1, 14)] + [Token(SEMICOLON, ";", 1, 15)], Cursor(15, 1, 16), None)
  {
    BlankStep(text, c, 1, true, true);
    SimpleAt13(text, Cursor(c.pos + 1, c.line, c.column + 1));
  }

  /** `+` at column 12. */
  lemma SimpleAt11(text: string, c: Cursor)
    requires Spells(text, "int x = 10 + 5;") && c.pos == 11 && c.line == 1 && c.column == 12
    ensures ScanFrom(RuleTable, text, c, true, true) ==
      Scan([Token(PLUS, "+", 1, 12)] + (
        [Token(NUMBER, "5", 1, 14)] + [Token(SEMICOLON, ";", 1, 15)]), Cursor(15, 1, 16), None)
  {
    ArithmeticOperatorWins(text, c.pos);
    SymbolStep(text, c, FirstMatch(text, c.pos).value.rule, PLUS, true, true);
    SimpleAt12(text, Cursor(c.pos + 1, c.line, c.column + 1));
  }

  /** The blank before `+` is skipped. */
  lemma SimpleAt10(text: string, c: Cursor)
    requires Spells(text, "int x = 10 + 5;") && c.pos == 10 && c.line == 1 && c.column == 11
    ensures ScanFrom(RuleTable, text, c, true, true) ==
      Scan([Token(PLUS, "+", 1, 12)] + (
        [Token(NUMBER, "5", 1, 14)] + [Token(SEMICOLON, ";", 1, 15)]), Cursor(15, 1, 16), None)
  {
    BlankStep(text, c, 1, true, true);
    SimpleAt11(text, Cursor(c.pos + 1, c.line, c.column + 1));
  }

  /** The number `10` at column 9. */
  lemma SimpleAt8(text: string, c: Cursor)
    requires Spells(text, "int x = 10 + 5;") && c.pos == 8 && c.line == 1 && c.column == 9
    ensures ScanFrom(RuleTable, text, c, true, true) ==
      Scan([Token(NUMBER, "10", 1, 9)] + ([Token(PLUS, "+", 1, 12)] + (
        [Token(NUMBER, "5", 1, 14)] + [Token(SEMICOLON, ";", 1, 15)])), Cursor(15, 1, 16), None)
  {
    assert text[c.pos..c.pos + 2] == "10";
    IntegerStep(text, c, 2, true, true);
    SimpleAt10(text, Cursor(c.pos + 2, c.line, c.column + 2));
  }

  /** The blank before `10` is skipped. */
  lemma SimpleAt7(text: string, c: Cursor)
    requires Spells(text, "int x = 10 + 5;") && c.pos == 7 && c.line == 1 && c.column == 8
    ensures ScanFrom(RuleTable, text, c, true, true) ==
      Scan([Token(NUMBER, "10", 1, 9)] + ([Token(PLUS, "+", 1, 12)] + (
        [Token(NUMBER, "5", 1, 14)] + [Token(SEMICOLON, ";", 1, 15)])), Cursor(15, 1, 16), None)
  {
    BlankStep(text, c, 1, true, true);
    SimpleAt8(text, Cursor(c.pos + 1, c.line, c.column + 1));
  }

  /** `=` at column 7. */
  lemma SimpleAt6(text: string, c: Cursor)
    requires Spells(text, "int x = 10 + 5;") && c.pos == 6 && c.line == 1 && c.column == 7
    ensures ScanFrom(RuleTable, text, c, true, true) ==
      Scan([Token(ASSIGN, "=", 1, 7)] + ([Token(NUMBER, "10", 1, 9)] + (
        [Token(PLUS, "+", 1, 12)] + ([Token(NUMBER, "5", 1, 14)] + [Token(SEMICOLON, ";", 1, 15)]))),
        Cursor(15, 1, 16), None)
  {
    AssignWins(text, c.pos);
    SymbolStep(text, c, 12, ASSIGN, true, true);
    SimpleAt7(text, Cursor(c.pos + 1, c.line, c.column + 1));
  }

  /** The blank before `=` is skipped. */
  lemma SimpleAt5(text: string, c: Cursor)
    requires Spells(text, "int x = 10 + 5;") && c.pos == 5 && c.line == 1 && c.column == 6
    ensures ScanFrom(RuleTable, text, c, true, true) ==
      Scan([Token(ASSIGN, "=", 1, 7)] + ([Token(NUMBER, "10", 1, 9)] + (
        [Token(PLUS, "+", 1, 12)] + ([Token(NUMBER, "5", 1, 14)] + [Token(SEMICOLON, ";", 1, 15)]))),
        Cursor(15, 1, 16), None)
  {
    BlankStep(text, c, 1, true, true);
    SimpleAt6(text, Cursor(c.pos + 1, c.line, c.column + 1));
  }

  /** The identifier `x` at column 5. */
  lemma SimpleAt4(text: string, c: Cursor)
    requires Spells(text, "int x = 10 + 5;") && c.pos == 4 && c.line == 1 && c.column == 5
    ensures ScanFrom(RuleTable, text, c, true, true) ==
      Scan([Token(IDENTIFIER, "x", 1, 5)] + ([Token(ASSIGN, "=", 1, 7)] + (
        [Token(NUMBER, "10", 1, 9)] + ([Token(PLUS, "+", 1, 12)] + (
        [Token(NUMBER, "5", 1, 14)] + [Token(SEMICOLON, ";", 1, 15)])))), Cursor(15, 1, 16), None)
  {
    assert text[c.pos..c.pos + 1] == "x";
    WordStep(text, c, 1, IDENTIFIER, true, true);
    SimpleAt5(text, Cursor(c.pos + 1, c.line, c.column + 1));
  }

  /** The blank before `x` is skipped. */
  lemma SimpleAt3(text: string, c: Cursor)
    requires Spells(text, "int x = 10 + 5;") && c.pos == 3 && c.line == 1 && c.column == 4
    ensures ScanFrom(RuleTable, text, c, true, true) ==
      Scan([Token(IDENTIFIER, "x", 1, 5)] + ([Token(ASSIGN, "=", 1, 7)] + (
        [Token(NUMBER, "10", 1, 9)] + ([Token(PLUS, "+", 1, 12)] + (
        [Token(NUMBER, "5", 1, 14)] + [Token(SEMICOLON, ";", 1, 15)])))), Cursor(15, 1, 16), None)
  {
    BlankStep(text, c, 1, true, true);
    SimpleAt4(text, Cursor(c.pos + 1, c.line, c.column + 1));
  }

  /** `int` at column 1 is the INT keyword. */
  lemma SimpleScan(text: string, c: Cursor)
    requires Spells(text, "int x = 10 + 5;") && c.pos == 0 && c.line == 1 && c.column == 1
    ensures ScanFrom(RuleTable, text, c, true, true) ==
      Scan([Token(INT, "int", 1, 1)] + ([Token(IDENTIFIER, "x", 1, 5)] + (
        [Token(ASSIGN, "=", 1, 7)] + ([Token(NUMBER, "10", 1, 9)] + ([Token(PLUS, "+", 1, 12)] + (
        [Token(NUMBER, "5", 1, 14)] + [Token(SEMICOLON, ";", 1, 15)]))))), Cursor(15, 1, 16), None)
  {
    IntStep(text, c);
    SimpleAt3(text, Cursor(c.pos + 3, c.line, c.column + 3));
  }

  /** `"int x = 10 + 5;"` with whitespace skipped: INT, IDENTIFIER, ASSIGN,
      NUMBER, PLUS, NUMBER, SEMICOLON and EOF, in that order. */
  lemma SimpleAssignment(text: string)
    requires text == "int x = 10 + 5;"
    ensures Tokenize(RuleTable, text, true, true) ==
      Ok([Token(INT, "int", 1, 1), Token(IDENTIFIER, "x", 1, 5), Token(ASSIGN, "=", 1, 7),
        Token(NUMBER, "10", 1, 9), Token(PLUS, "+", 1, 12), Token(NUMBER, "5", 1, 14),
        Token(SEMICOLON, ";", 1, 15), Token(EOF, "", 1, 16)])
  {
    var t0, t4, t6, t8 := Token(INT, "int", 1, 1), Token(IDENTIFIER, "x", 1, 5),
      Token(ASSIGN, "=", 1, 7), Token(NUMBER, "10", 1, 9);
    var t11, t13, t14 := Token(PLUS, "+", 1, 12), Token(NUMBER, "5", 1, 14),
      Token(SEMICOLON, ";", 1, 15);
    var eof := Token(EOF, "", 1, 16);
    assert [t0] + ([t4] + ([t6] + ([t8] + ([t11] + ([t13] + [t14]))))) + [eof] ==
      [t0, t4, t6, t8, t11, t13, t14, eof];
    SimpleScan(text, Start);
  }
}
