/**
 * The scanning loop of `Lexer.tokenize` (src/lexer.py, lines 169-222) as
 * functions over a cursor: the specification the imperative lexer is proved
 * against. At each position the first rule of the list that matches wins;
 * its token is emitted unless the flags skip its kind; the cursor moves past
 * the match, and line and column follow the NEWLINE tokens. When no rule
 * matches, scanning stops with an error that names the character, line and
 * column; otherwise an EOF token closes the list.
 *
 * The functions take the rule list as a parameter; the lexer runs them on
 * `RuleTable`.
 */
module Scanner {
  import opened Wrappers
  import opened Tokens
  import opened Rules

  /** The lexer's position in the text and the line and column it reports
      for the next token. */
  datatype Cursor = Cursor(pos: nat, line: nat, column: nat)

  /** Where every scan starts: offset 0, line 1, column 1. */
  const Start := Cursor(0, 1, 1)

  /** One token and the cursor after it. */
  datatype Scanned = Scanned(token: Token, next: Cursor)

  /** The cursor after a token of kind `kind` spanning `n` characters: a
      NEWLINE token moves to column 1 of the next line, any other token moves
      the column by its length. */
  function Advance(c: Cursor, kind: TokenKind, n: nat): (r: Cursor)
    ensures r.pos == c.pos + n
    ensures r.line >= c.line && (r.line == c.line <==> kind != NEWLINE)
    ensures kind == NEWLINE ==> r.line == c.line + 1 && r.column == 1
    ensures kind != NEWLINE ==> r.column == c.column + n
    ensures c.column >= 1 ==> r.column >= 1
  {
    if kind == NEWLINE then Cursor(c.pos + n, c.line + 1, 1)
    else Cursor(c.pos + n, c.line, c.column + n)
  }

  /** One step of the outer loop at cursor `c`: the winning rule's match,
      its kind after the keyword lookup, and the cursor moved past it. */
  function Step(rules: seq<Rule>, text: string, c: Cursor): (r: Option<Scanned>)
    requires c.pos < |text|
    ensures r.None? <==> FirstMatchFrom(rules, text, c.pos, 0).None?
    ensures r.Some? ==>
      var w := FirstMatchFrom(rules, text, c.pos, 0).value;
      && r.value.next.pos == c.pos + w.length
      && r.value.token.kind == Classify(rules[w.rule].kind, r.value.token.value)
    ensures r.Some? ==>
      var t, n := r.value.token, r.value.next;
      && c.pos < n.pos <= |text|
      && t.value == text[c.pos..n.pos]
      && t.line == c.line && t.column == c.column
      && (t.kind == NEWLINE ==> n.line == c.line + 1 && n.column == 1)
      && (t.kind != NEWLINE ==> n.line == c.line && n.column == c.column + |t.value|)
  {
    match FirstMatchFrom(rules, text, c.pos, 0)
    case None => None
    case Some(w) =>
      var value := text[c.pos..c.pos + w.length];
      var kind := Classify(rules[w.rule].kind, value);
      Some(Scanned(Token(kind, value, c.line, c.column), Advance(c, kind, w.length)))
  }

  /** A token of this kind is kept in the output under these flags: only
      WHITESPACE and COMMENT tokens are ever dropped, each by its own flag. */
  predicate Keep(kind: TokenKind, skipWhitespace: bool, skipComments: bool): (r: bool)
    ensures kind != WHITESPACE && kind != COMMENT ==> r
    ensures kind == WHITESPACE ==> (r <==> !skipWhitespace)
    ensures kind == COMMENT ==> (r <==> !skipComments)
  {
    !(skipWhitespace && kind == WHITESPACE) && !(skipComments && kind == COMMENT)
  }

  /** `t` if the flags keep it, otherwise nothing. */
  function Kept(t: Token, skipWhitespace: bool, skipComments: bool): seq<Token>
  {
    if Keep(t.kind, skipWhitespace, skipComments) then [t] else []
  }

  /** The tokens the flags keep, in order. */
  function Filter(ts: seq<Token>, skipWhitespace: bool, skipComments: bool): seq<Token>
  {
    if ts == [] then []
    else
      var head := if Keep(ts[0].kind, skipWhitespace, skipComments) then [ts[0]] else [];
      head + Filter(ts[1..], skipWhitespace, skipComments)
  }

  /** Filtering keeps order: it distributes over concatenation. */
  lemma {:induction false} FilterAppend(a: seq<Token>, b: seq<Token>, skipWhitespace: bool, skipComments: bool)
    ensures Filter(a + b, skipWhitespace, skipComments) ==
      Filter(a, skipWhitespace, skipComments) + Filter(b, skipWhitespace, skipComments)
  {
    if a == [] {
      assert a + b == b;
    } else {
      assert (a + b)[0] == a[0];
      assert (a + b)[1..] == a[1..] + b;
      FilterAppend(a[1..], b, skipWhitespace, skipComments);
    }
  }

  /** A token is in the filtered list exactly when it is in the input and
      the flags keep its kind. */
  lemma {:induction false} FilterMembers(ts: seq<Token>, skipWhitespace: bool, skipComments: bool)
    ensures forall t :: t in Filter(ts, skipWhitespace, skipComments) <==>
      t in ts && Keep(t.kind, skipWhitespace, skipComments)
  {
    if ts != [] {
      FilterMembers(ts[1..], skipWhitespace, skipComments);
      assert forall t :: t in ts <==> t == ts[0] || t in ts[1..];
    }
  }

  /** The outcome of scanning to the end or to the first character no rule
      matches: the tokens emitted, the cursor where scanning stopped, and the
      error if it stopped early. */
  datatype Scan = Scan(emitted: seq<Token>, final: Cursor, error: Option<LexError>)

  /** `ts` emitted before the rest of a scan. */
  function Prepend(ts: seq<Token>, r: Scan): Scan
  {
    Scan(ts + r.emitted, r.final, r.error)
  }

  /** Scan from cursor `c` to the end of the text. */
  function ScanFrom(rules: seq<Rule>, text: string, c: Cursor, skipWhitespace: bool, skipComments: bool): (r: Scan)
    requires c.pos <= |text|
    ensures c.pos <= r.final.pos <= |text|
    ensures r.error.None? <==> r.final.pos == |text|
    ensures r.error.Some? ==> r.error.value == LexError(text[r.final.pos], r.final.line, r.final.column)
    ensures forall t | t in r.emitted :: Keep(t.kind, skipWhitespace, skipComments)
    decreases |text| - c.pos
  {
    if c.pos == |text| then Scan([], c, None)
    else match Step(rules, text, c)
      case None => Scan([], c, Some(LexError(text[c.pos], c.line, c.column)))
      case Some(s) =>
        Prepend(Kept(s.token, skipWhitespace, skipComments), ScanFrom(rules, text, s.next, skipWhitespace, skipComments))
  }

  /** The token list `tokenize` returns, closed by an EOF token at the final
      line and column, or the error it raises. */
  function Tokenize(rules: seq<Rule>, text: string, skipWhitespace: bool, skipComments: bool): (r: Result<seq<Token>, LexError>)
    ensures r.Ok? ==> |r.value| >= 1 && r.value[|r.value| - 1].kind == EOF && r.value[|r.value| - 1].value == ""
    ensures r.Err? ==>
      var stop := ScanFrom(rules, text, Start, skipWhitespace, skipComments).final;
      stop.pos < |text| && r.error == LexError(text[stop.pos], stop.line, stop.column)
  {
    var r := ScanFrom(rules, text, Start, skipWhitespace, skipComments);
    match r.error
    case None => Ok(r.emitted + [Token(EOF, "", r.final.line, r.final.column)])
    case Some(e) => Err(e)
  }

  // ---------------------------------------------------------------------
  // One turn of the outer loop, as the imperative lexer takes it.

  /** When the rules before `k` have failed and rule `k` matches with length
      `n`, the step takes rule `k`'s match. */
  lemma StepAtRule(rules: seq<Rule>, text: string, c: Cursor, k: nat, n: nat)
    requires c.pos < |text| && k < |rules|
    requires FirstMatchFrom(rules, text, c.pos, k) == FirstMatchFrom(rules, text, c.pos, 0)
    requires MatchAt(rules[k].pattern, text, c.pos) == Some(n)
    ensures c.pos + n <= |text|
    ensures var value := text[c.pos..c.pos + n];
      var t := Token(Classify(rules[k].kind, value), value, c.line, c.column);
      Step(rules, text, c) == Some(Scanned(t, Advance(c, t.kind, n)))
  {
    assert FirstMatchFrom(rules, text, c.pos, k) == Some(Winner(k, n));
  }

  /** When the rules before `k` have failed and rule `k` matches with length
      `n`, the scan emits rule `k`'s token, if kept, and goes on from the
      cursor moved past it. */
  lemma ScanAtRule(rules: seq<Rule>, text: string, c: Cursor, k: nat, n: nat, skipWhitespace: bool, skipComments: bool)
    requires c.pos < |text| && k < |rules|
    requires FirstMatchFrom(rules, text, c.pos, k) == FirstMatchFrom(rules, text, c.pos, 0)
    requires MatchAt(rules[k].pattern, text, c.pos) == Some(n)
    ensures c.pos + n <= |text|
    ensures var value := text[c.pos..c.pos + n];
      var t := Token(Classify(rules[k].kind, value), value, c.line, c.column);
      ScanFrom(rules, text, c, skipWhitespace, skipComments) ==
        Prepend(Kept(t, skipWhitespace, skipComments), ScanFrom(rules, text, Advance(c, t.kind, n), skipWhitespace, skipComments))
  {
    StepAtRule(rules, text, c, k, n);
  }

  /** `ScanAtRule` with the tokens emitted so far in front. */
  lemma ScanPastRule(rules: seq<Rule>, text: string, c: Cursor, k: nat, n: nat, t: Token, next: Cursor, before: seq<Token>, skipWhitespace: bool, skipComments: bool)
    requires c.pos < |text| && k < |rules| && c.pos + n <= |text|
    requires FirstMatchFrom(rules, text, c.pos, k) == FirstMatchFrom(rules, text, c.pos, 0)
    requires MatchAt(rules[k].pattern, text, c.pos) == Some(n)
    requires t == Token(Classify(rules[k].kind, text[c.pos..c.pos + n]), text[c.pos..c.pos + n], c.line, c.column)
    requires next == Advance(c, t.kind, n)
    ensures Prepend(before, ScanFrom(rules, text, c, skipWhitespace, skipComments)) ==
      Prepend(before + Kept(t, skipWhitespace, skipComments), ScanFrom(rules, text, next, skipWhitespace, skipComments))
  {
    ScanAtRule(rules, text, c, k, n, skipWhitespace, skipComments);
    PrependTwice(before, Kept(t, skipWhitespace, skipComments), ScanFrom(rules, text, next, skipWhitespace, skipComments));
  }

  /** The scan at a cursor where rule `k` wins with length `n`: its
      classified token, if kept, then the scan from past the match. */
  lemma ScanWinner(rules: seq<Rule>, text: string, c: Cursor, k: nat, n: nat, skipWhitespace: bool, skipComments: bool)
    requires c.pos < |text| && FirstMatchFrom(rules, text, c.pos, 0) == Some(Winner(k, n))
    ensures k < |rules| && c.pos + n <= |text|
    ensures var value := text[c.pos..c.pos + n];
      var t := Token(Classify(rules[k].kind, value), value, c.line, c.column);
      ScanFrom(rules, text, c, skipWhitespace, skipComments) ==
        Prepend(Kept(t, skipWhitespace, skipComments), ScanFrom(rules, text, Advance(c, t.kind, n), skipWhitespace, skipComments))
  {
    var value := text[c.pos..c.pos + n];
    var t := Token(Classify(rules[k].kind, value), value, c.line, c.column);
    assert Step(rules, text, c) == Some(Scanned(t, Advance(c, t.kind, n)));
  }

  /** A failed step ends the scan with the error at the cursor. */
  lemma ScanStuck(rules: seq<Rule>, text: string, c: Cursor, skipWhitespace: bool, skipComments: bool)
    requires c.pos < |text| && FirstMatchFrom(rules, text, c.pos, 0).None?
    ensures ScanFrom(rules, text, c, skipWhitespace, skipComments) ==
      Scan([], c, Some(LexError(text[c.pos], c.line, c.column)))
  {
  }

  /** At the end of the text the scan stops without error. */
  lemma ScanAtEnd(rules: seq<Rule>, text: string, c: Cursor, skipWhitespace: bool, skipComments: bool)
    requires c.pos == |text|
    ensures ScanFrom(rules, text, c, skipWhitespace, skipComments) == Scan([], c, None)
  {
  }

  /** A scan that reaches the end of the text tokenizes to its tokens
      closed by EOF at the final line and column. */
  lemma TokenizeOfScan(rules: seq<Rule>, text: string, skipWhitespace: bool, skipComments: bool, ts: seq<Token>, c: Cursor)
    requires ScanFrom(rules, text, Start, skipWhitespace, skipComments) == Scan(ts, c, None)
    ensures Tokenize(rules, text, skipWhitespace, skipComments) == Ok(ts + [Token(EOF, "", c.line, c.column)])
  {
  }

  lemma PrependTwice(a: seq<Token>, b: seq<Token>, r: Scan)
    ensures Prepend(a, Prepend(b, r)) == Prepend(a + b, r)
  {
    assert a + (b + r.emitted) == (a + b) + r.emitted;
  }

  // ---------------------------------------------------------------------
  // Properties of a scan.

  /** Skipped tokens still move the cursor: a scan with flags yields exactly
      the tokens of the scan without flags that the flags keep, with the
      same lines and columns, and stops at the same cursor with the same
      error. */
  lemma {:induction false} FilterCommutes(rules: seq<Rule>, text: string, c: Cursor, skipWhitespace: bool, skipComments: bool)
    requires c.pos <= |text|
    ensures var all := ScanFrom(rules, text, c, false, false);
      ScanFrom(rules, text, c, skipWhitespace, skipComments) ==
      Scan(Filter(all.emitted, skipWhitespace, skipComments), all.final, all.error)
    decreases |text| - c.pos
  {
    if c.pos < |text| && Step(rules, text, c).Some? {
      var s := Step(rules, text, c).value;
      FilterCommutes(rules, text, s.next, skipWhitespace, skipComments);
      var rest := ScanFrom(rules, text, s.next, false, false).emitted;
      assert ([s.token] + rest)[0] == s.token;
      assert ([s.token] + rest)[1..] == rest;
    }
  }

  /** The text of every token. */
  function Concat(ts: seq<Token>): string
  {
    if ts == [] then "" else ts[0].value + Concat(ts[1..])
  }

  lemma {:induction false} ConcatAppend(a: seq<Token>, b: seq<Token>)
    ensures Concat(a + b) == Concat(a) + Concat(b)
  {
    if a != [] {
      assert (a + b)[0] == a[0];
      assert (a + b)[1..] == a[1..] + b;
      ConcatAppend(a[1..], b);
    } else {
      assert a + b == b;
    }
  }

  /** Cutting a slice in two. */
  lemma SliceSplit(s: string, a: nat, b: nat, d: nat)
    requires a <= b <= d <= |s|
    ensures s[a..d] == s[a..b] + s[b..d]
  {
  }

  /** With no token skipped, the tokens' texts spell out exactly the part of
      the input that was scanned. */
  lemma {:induction false} ConcatRoundTrip(rules: seq<Rule>, text: string, c: Cursor)
    requires c.pos <= |text|
    ensures var r := ScanFrom(rules, text, c, false, false);
      Concat(r.emitted) == text[c.pos..r.final.pos]
    decreases |text| - c.pos
  {
    if c.pos < |text| && Step(rules, text, c).Some? {
      var s := Step(rules, text, c).value;
      var rest := ScanFrom(rules, text, s.next, false, false);
      ConcatRoundTrip(rules, text, s.next);
      ConcatAppend([s.token], rest.emitted);
      SliceSplit(text, c.pos, s.next.pos, rest.final.pos);
    }
  }

  /** The number of tokens of kind `k`. */
  function Count(ts: seq<Token>, k: TokenKind): nat
  {
    if ts == [] then 0 else (if ts[0].kind == k then 1 else 0) + Count(ts[1..], k)
  }

  /** The line only moves on NEWLINE tokens, one line each, and those are
      never skipped: the final line is the starting line plus the number of
      NEWLINE tokens emitted, whatever the flags. */
  lemma {:induction false} LinesCountNewlines(rules: seq<Rule>, text: string, c: Cursor, skipWhitespace: bool, skipComments: bool)
    requires c.pos <= |text|
    ensures var r := ScanFrom(rules, text, c, skipWhitespace, skipComments);
      r.final.line == c.line + Count(r.emitted, NEWLINE)
    decreases |text| - c.pos
  {
    if c.pos < |text| && Step(rules, text, c).Some? {
      var s := Step(rules, text, c).value;
      var rest := ScanFrom(rules, text, s.next, skipWhitespace, skipComments);
      LinesCountNewlines(rules, text, s.next, skipWhitespace, skipComments);
      if Keep(s.token.kind, skipWhitespace, skipComments) {
        var ts := [s.token] + rest.emitted;
        assert ts[0] == s.token && ts[1..] == rest.emitted;
        assert Count(ts, NEWLINE) == (if s.token.kind == NEWLINE then 1 else 0) + Count(rest.emitted, NEWLINE);
      } else {
        assert [] + rest.emitted == rest.emitted;
      }
    }
  }

  /** No rule of the list produces EOF. */
  predicate NoEofRule(rules: seq<Rule>)
  {
    forall k | 0 <= k < |rules| :: rules[k].kind != EOF
  }

  /** Scanning never produces an EOF token itself: the keyword lookup only
      yields keyword kinds. */
  lemma {:induction false} NoEofScanned(rules: seq<Rule>, text: string, c: Cursor, skipWhitespace: bool, skipComments: bool)
    requires c.pos <= |text| && NoEofRule(rules)
    ensures forall t | t in ScanFrom(rules, text, c, skipWhitespace, skipComments).emitted :: t.kind != EOF
    decreases |text| - c.pos
  {
    if c.pos < |text| && Step(rules, text, c).Some? {
      var s := Step(rules, text, c).value;
      NoEofScanned(rules, text, s.next, skipWhitespace, skipComments);
      assert s.token.kind != EOF by {
        var w := FirstMatchFrom(rules, text, c.pos, 0).value;
        if s.token.kind != rules[w.rule].kind {
          KeywordKinds(s.token.value);
        }
      }
      var rest := ScanFrom(rules, text, s.next, skipWhitespace, skipComments);
      assert ScanFrom(rules, text, c, skipWhitespace, skipComments).emitted ==
        Kept(s.token, skipWhitespace, skipComments) + rest.emitted;
    }
  }

  /** A successful result ends with exactly one EOF token, at the line and
      column where scanning stopped; every token before it was scanned. */
  lemma TokenizeEndsWithEof(rules: seq<Rule>, text: string, skipWhitespace: bool, skipComments: bool)
    requires NoEofRule(rules)
    ensures var r := ScanFrom(rules, text, Start, skipWhitespace, skipComments);
      match Tokenize(rules, text, skipWhitespace, skipComments)
      case Ok(ts) =>
        && |ts| >= 1
        && ts[|ts| - 1] == Token(EOF, "", r.final.line, r.final.column)
        && ts[..|ts| - 1] == r.emitted
        && forall k | 0 <= k < |ts| - 1 :: ts[k].kind != EOF
      case Err(e) => r.error == Some(e)
  {
    var r := ScanFrom(rules, text, Start, skipWhitespace, skipComments);
    NoEofScanned(rules, text, Start, skipWhitespace, skipComments);
    if r.error.None? {
      var ts := r.emitted + [Token(EOF, "", r.final.line, r.final.column)];
      assert ts[..|ts| - 1] == r.emitted;
      forall k | 0 <= k < |ts| - 1 ensures ts[k].kind != EOF {
        assert ts[k] == r.emitted[k];
        assert ts[k] in r.emitted;
      }
    }
  }

  /** A scan that stops early stops where no rule matches. */
  lemma {:induction false} ScanStopsUnmatched(rules: seq<Rule>, text: string, c: Cursor, skipWhitespace: bool, skipComments: bool)
    requires c.pos <= |text|
    ensures var r := ScanFrom(rules, text, c, skipWhitespace, skipComments);
      r.final.pos < |text| ==> FirstMatchFrom(rules, text, r.final.pos, 0).None?
    decreases |text| - c.pos
  {
    if c.pos < |text| && Step(rules, text, c).Some? {
      ScanStopsUnmatched(rules, text, Step(rules, text, c).value.next, skipWhitespace, skipComments);
    }
  }

  /** Tokenizing fails exactly when the scan stops before the end of the
      text, and the error names the character there, which the table cannot
      scan, with the line and column where it stands. */
  lemma ErrorAtUnscannable(text: string, skipWhitespace: bool, skipComments: bool)
    ensures var r := ScanFrom(RuleTable, text, Start, skipWhitespace, skipComments);
      && (Tokenize(RuleTable, text, skipWhitespace, skipComments).Err? <==> r.final.pos < |text|)
      && (r.final.pos < |text| ==>
        && Unscannable(text, r.final.pos)
        && Tokenize(RuleTable, text, skipWhitespace, skipComments) ==
           Err(LexError(text[r.final.pos], r.final.line, r.final.column)))
  {
    var r := ScanFrom(RuleTable, text, Start, skipWhitespace, skipComments);
    ScanStopsUnmatched(RuleTable, text, Start, skipWhitespace, skipComments);
    if r.final.pos < |text| {
      NoRuleMatchesIff(text, r.final.pos);
    }
  }

  /** The empty text scans to a lone EOF token at line 1, column 1. */
  lemma EmptyText(skipWhitespace: bool, skipComments: bool)
    ensures Tokenize(RuleTable, "", skipWhitespace, skipComments) == Ok([Token(EOF, "", 1, 1)])
  {
    var r := ScanFrom(RuleTable, "", Start, skipWhitespace, skipComments);
    assert r == Scan([], Start, None);
    assert r.emitted + [Token(EOF, "", 1, 1)] == [Token(EOF, "", 1, 1)];
  }

  /** The strings `get_tokens_as_strings` lists: every token but EOF, in
      order, in its display form. */
  function TokenStrings(ts: seq<Token>): (r: seq<string>)
    ensures |r| == |ts| - Count(ts, EOF)
  {
    if ts == [] then []
    else
      var head := if ts[0].kind != EOF then [Display(ts[0])] else [];
      head + TokenStrings(ts[1..])
  }

  /** The shape of a successful result: one EOF token, at the end. */
  predicate ClosedByEof(ts: seq<Token>)
  {
    |ts| >= 1 && ts[|ts| - 1].kind == EOF && forall k | 0 <= k < |ts| - 1 :: ts[k].kind != EOF
  }

  /** On a successful result the strings are the display forms of all the
      tokens but the final EOF, one for one and in order. */
  lemma {:induction false} TokenStringsDropEof(ts: seq<Token>)
    requires ClosedByEof(ts)
    ensures |TokenStrings(ts)| == |ts| - 1
    ensures forall k | 0 <= k < |ts| - 1 :: TokenStrings(ts)[k] == Display(ts[k])
  {
    if |ts| > 1 {
      TokenStringsDropEof(ts[1..]);
      var rest := TokenStrings(ts[1..]);
      assert TokenStrings(ts) == [Display(ts[0])] + rest;
      forall k | 0 <= k < |ts| - 1 ensures TokenStrings(ts)[k] == Display(ts[k]) {
        if k > 0 {
          assert TokenStrings(ts)[k] == rest[k - 1];
          assert ts[1..][k - 1] == ts[k];
        }
      }
    } else {
      assert TokenStrings(ts) == [] + TokenStrings(ts[1..]);
    }
  }
}
