/**
 * The lexer's ordered rule table (src/lexer.py, lines 115-160). Each regular
 * expression is replaced by a hand-written matcher over the input at an
 * offset, and each matcher is proved to return the match that Python's
 * `re.match` returns for that pattern: the longest prefix in the pattern's
 * language for the greedy patterns, the shortest one for the lazy block
 * comment, and no match when no prefix is in the language.
 */
module Rules {
  import opened Wrappers
  import opened Tokens

  // Character classes. Digits are the ASCII digits only.
  predicate IsDigit(c: char) { '0' <= c <= '9' }
  predicate IsLetter(c: char) { 'a' <= c <= 'z' || 'A' <= c <= 'Z' }
  predicate IsIdentStart(c: char) { IsLetter(c) || c == '_' }
  predicate IsIdentPart(c: char) { IsIdentStart(c) || IsDigit(c) }
  predicate IsBlank(c: char) { c == ' ' || c == '\t' }
  /** What `.` matches: any character but a line feed. */
  predicate NotNewline(c: char) { c != '\n' }

  predicate All(t: string, p: char -> bool)
  {
    forall k | 0 <= k < |t| :: p(t[k])
  }

  /** The shapes of the patterns in the table. */
  datatype Pattern =
    | LineComment             // //.*
    | BlockComment            // /\*[\s\S]*?\*/
    | Quoted(quote: char)     // "([^"\\]|\\.)*"  and  '([^'\\]|\\.)*'
    | FloatNumber             // \d+\.\d+
    | IntegerNumber           // \d+
    | Exact(lexeme: string)   // a fixed operator or delimiter
    | Identifier              // [a-zA-Z_][a-zA-Z0-9_]*
    | Blanks                  // [ \t]+

  /** The patterns the table uses: fixed lexemes are non-empty and the quote
      of a string pattern is not the escape character. */
  predicate ValidPattern(p: Pattern)
  {
    match p
    case Exact(x) => |x| >= 1
    case Quoted(q) => q != '\\'
    case _ => true
  }

  /** The body of a quoted string: characters other than the quote and the
      backslash, or a backslash followed by any character but a line feed. */
  ghost predicate QuotedBody(q: char, b: string)
    decreases |b|
  {
    || b == []
    || (b[0] != q && b[0] != '\\' && QuotedBody(q, b[1..]))
    || (|b| >= 2 && b[0] == '\\' && b[1] != '\n' && QuotedBody(q, b[2..]))
  }

  /** `t` is digits, a dot at offset `k`, then digits, with at least one digit
      on each side. */
  ghost predicate FloatSplit(t: string, k: int)
  {
    1 <= k < |t| - 1 && t[k] == '.' && All(t[..k], IsDigit) && All(t[k + 1..], IsDigit)
  }

  /** The language of each pattern, written independently of the matchers. */
  ghost predicate InLanguage(p: Pattern, t: string)
  {
    match p
    case LineComment => |t| >= 2 && t[..2] == "//" && All(t[2..], NotNewline)
    case BlockComment => |t| >= 4 && t[..2] == "/*" && t[|t| - 2..] == "*/"
    case Quoted(q) => |t| >= 2 && t[0] == q && t[|t| - 1] == q && QuotedBody(q, t[1..|t| - 1])
    case FloatNumber => exists k :: FloatSplit(t, k)
    case IntegerNumber => |t| >= 1 && All(t, IsDigit)
    case Exact(x) => t == x
    case Identifier => |t| >= 1 && IsIdentStart(t[0]) && All(t[1..], IsIdentPart)
    case Blanks => |t| >= 1 && All(t, IsBlank)
  }

  /** `r` is what `re.match` gives for `p` at offset `i` of `s`: the length of
      the preferred match (shortest for the lazy block comment, longest for
      every other pattern), or None when no prefix at `i` is in the language. */
  ghost predicate IsReMatch(p: Pattern, s: string, i: nat, r: Option<nat>)
    requires i <= |s|
  {
    match r
    case None => forall j | i <= j <= |s| :: !InLanguage(p, s[i..j])
    case Some(n) =>
      && i + n <= |s|
      && InLanguage(p, s[i..i + n])
      && if p == BlockComment then forall j | i <= j < i + n :: !InLanguage(p, s[i..j])
         else forall j | i + n < j <= |s| :: !InLanguage(p, s[i..j])
  }

  /** Length of the run of characters satisfying `p` that starts at `i`. */
  function RunLength(s: string, i: nat, p: char -> bool): (n: nat)
    requires i <= |s|
    ensures i + n <= |s|
    ensures forall j | i <= j < i + n :: p(s[j])
    ensures i + n == |s| || !p(s[i + n])
    decreases |s| - i
  {
    if i < |s| && p(s[i]) then 1 + RunLength(s, i + 1, p) else 0
  }

  /** Offset of the first "*" "/" pair at or after `j`. */
  function CommentClose(s: string, j: nat): (r: Option<nat>)
    requires j <= |s|
    ensures r.Some? ==> j <= r.value && r.value + 2 <= |s| && s[r.value] == '*' && s[r.value + 1] == '/'
    ensures r.Some? ==> forall m | j <= m < r.value :: !(s[m] == '*' && s[m + 1] == '/')
    ensures r.None? ==> forall m | j <= m && m + 1 < |s| :: !(s[m] == '*' && s[m + 1] == '/')
    decreases |s| - j
  {
    if j + 2 > |s| then None
    else if s[j] == '*' && s[j + 1] == '/' then Some(j)
    else CommentClose(s, j + 1)
  }

  /** Offset of the quote that closes a string body starting at `j`, skipping
      escape pairs; None when the body runs off the input or a backslash is
      followed by a line feed or by nothing. */
  function QuoteClose(q: char, s: string, j: nat): (r: Option<nat>)
    requires j <= |s|
    ensures r.Some? ==> j <= r.value < |s| && s[r.value] == q
    decreases |s| - j
  {
    if j == |s| then None
    else if s[j] == q then Some(j)
    else if s[j] == '\\' then
      if j + 1 < |s| && s[j + 1] != '\n' then QuoteClose(q, s, j + 2) else None
    else QuoteClose(q, s, j + 1)
  }

  /** The anchored match of `p` at offset `i` of `s`, as its length. */
  function MatchAt(p: Pattern, s: string, i: nat): (r: Option<nat>)
    requires i <= |s|
    ensures r.Some? ==> 1 <= r.value && i + r.value <= |s|
  {
    match p
    case LineComment =>
      if i + 2 <= |s| && s[i] == '/' && s[i + 1] == '/' then Some(2 + RunLength(s, i + 2, NotNewline))
      else None
    case BlockComment =>
      if i + 2 <= |s| && s[i] == '/' && s[i + 1] == '*' then
        match CommentClose(s, i + 2)
        case Some(m) => Some(m + 2 - i)
        case None => None
      else None
    case Quoted(q) =>
      if i < |s| && s[i] == q then
        match QuoteClose(q, s, i + 1)
        case Some(e) => Some(e + 1 - i)
        case None => None
      else None
    case FloatNumber =>
      var d := RunLength(s, i, IsDigit);
      if d >= 1 && i + d < |s| && s[i + d] == '.' then
        var f := RunLength(s, i + d + 1, IsDigit);
        if f >= 1 then Some(d + 1 + f) else None
      else None
    case IntegerNumber =>
      var d := RunLength(s, i, IsDigit);
      if d >= 1 then Some(d) else None
    case Exact(x) =>
      if 1 <= |x| && i + |x| <= |s| && s[i..i + |x|] == x then Some(|x|) else None
    case Identifier =>
      if i < |s| && IsIdentStart(s[i]) then Some(1 + RunLength(s, i + 1, IsIdentPart)) else None
    case Blanks =>
      var b := RunLength(s, i, IsBlank);
      if b >= 1 then Some(b) else None
  }

  /** A rule of the table: a pattern and the kind of the token it produces. */
  datatype Rule = Rule(pattern: Pattern, kind: TokenKind)

  /** The rules in their declared order, which encodes precedence. */
  const RuleTable: seq<Rule> := [
    Rule(LineComment, COMMENT),           //  0
    Rule(BlockComment, COMMENT),          //  1
    Rule(Quoted('"'), STRING_LITERAL),    //  2
    Rule(Quoted('\''), STRING_LITERAL),   //  3
    Rule(FloatNumber, NUMBER),            //  4
    Rule(IntegerNumber, NUMBER),          //  5
    Rule(Exact("=="), EQUAL),             //  6
    Rule(Exact("!="), NOT_EQUAL),         //  7
    Rule(Exact("<="), LESS_EQUAL),        //  8
    Rule(Exact(">="), GREATER_EQUAL),     //  9
    Rule(Exact("<"), LESS_THAN),          // 10
    Rule(Exact(">"), GREATER_THAN),       // 11
    Rule(Exact("="), ASSIGN),             // 12
    Rule(Exact("+"), PLUS),               // 13
    Rule(Exact("-"), MINUS),              // 14
    Rule(Exact("*"), MULTIPLY),           // 15
    Rule(Exact("/"), DIVIDE),             // 16
    Rule(Exact("%"), MODULO),             // 17
    Rule(Exact(";"), SEMICOLON),          // 18
    Rule(Exact(","), COMMA),              // 19
    Rule(Exact("("), LEFT_PAREN),         // 20
    Rule(Exact(")"), RIGHT_PAREN),        // 21
    Rule(Exact("{"), LEFT_BRACE),         // 22
    Rule(Exact("}"), RIGHT_BRACE),        // 23
    Rule(Exact("["), LEFT_BRACKET),       // 24
    Rule(Exact("]"), RIGHT_BRACKET),      // 25
    Rule(Identifier, IDENTIFIER),         // 26
    Rule(Blanks, WHITESPACE),             // 27
    Rule(Exact("\n"), NEWLINE)            // 28
  ]

  /** Every rule of the table has a valid pattern and never produces EOF. */
  lemma RuleTableValid()
    ensures forall k | 0 <= k < |RuleTable| ::
      ValidPattern(RuleTable[k].pattern) && RuleTable[k].kind != EOF
  {
  }

  // ---------------------------------------------------------------------
  // Each matcher returns the preferred match of its pattern.

  /** A run of `p`-characters from `i` to `j` lies within the maximal run. */
  lemma {:induction false} RunBound(s: string, i: nat, p: char -> bool, j: nat)
    requires i <= j <= |s| && All(s[i..j], p)
    ensures j <= i + RunLength(s, i, p)
    decreases j - i
  {
    if i < j {
      assert s[i..j][0] == s[i];
      assert s[i + 1..j] == s[i..j][1..];
      RunBound(s, i + 1, p, j);
    }
  }

  /** The run of `p`-characters at `i` has length `n` when the `n`
      characters from `i` satisfy `p` and the next one does not. */
  lemma RunLengthIs(s: string, i: nat, p: char -> bool, n: nat)
    requires i + n <= |s| && (forall j | i <= j < i + n :: p(s[j]))
    requires i + n == |s| || !p(s[i + n])
    ensures RunLength(s, i, p) == n
  {
    assert All(s[i..i + n], p);
    RunBound(s, i, p, i + n);
  }

  lemma SliceOfSlice(s: string, i: nat, j: nat, a: nat, b: nat)
    requires i <= j <= |s| && a <= b <= j - i
    ensures s[i..j][a..b] == s[i + a..i + b]
  {
    var x, y := s[i..j][a..b], s[i + a..i + b];
    forall k | 0 <= k < |x| ensures x[k] == y[k] {
      assert x[k] == s[i..j][a + k];
    }
  }

  lemma LineCommentMatch(s: string, i: nat)
    requires i <= |s|
    ensures IsReMatch(LineComment, s, i, MatchAt(LineComment, s, i))
  {
    if i + 2 <= |s| && s[i] == '/' && s[i + 1] == '/' {
      var m := RunLength(s, i + 2, NotNewline);
      var t := s[i..i + 2 + m];
      assert t[..2] == "//";
      assert t[2..] == s[i + 2..i + 2 + m];
      forall j | i + 2 + m < j <= |s| ensures !InLanguage(LineComment, s[i..j]) {
        var u := s[i..j];
        if InLanguage(LineComment, u) {
          assert u[2..] == s[i + 2..j];
          RunBound(s, i + 2, NotNewline, j);
        }
      }
    } else {
      forall j | i <= j <= |s| ensures !InLanguage(LineComment, s[i..j]) {
        var u := s[i..j];
        if |u| >= 2 {
          assert u[..2][0] == s[i] && u[..2][1] == s[i + 1];
        }
      }
    }
  }

  /** Any block-comment-shaped prefix opens at `i` and closes just before `j`. */
  lemma BlockCommentShape(s: string, i: nat, j: nat)
    requires i <= j <= |s| && InLanguage(BlockComment, s[i..j])
    ensures i + 4 <= j && s[i] == '/' && s[i + 1] == '*' && s[j - 2] == '*' && s[j - 1] == '/'
  {
    var u := s[i..j];
    assert u[..2][0] == s[i] && u[..2][1] == s[i + 1];
    assert u[|u| - 2..][0] == s[j - 2] && u[|u| - 2..][1] == s[j - 1];
  }

  lemma BlockCommentMatch(s: string, i: nat)
    requires i <= |s|
    ensures IsReMatch(BlockComment, s, i, MatchAt(BlockComment, s, i))
  {
    forall j | i <= j <= |s| && InLanguage(BlockComment, s[i..j])
      ensures i + 4 <= j && s[i] == '/' && s[i + 1] == '*' && s[j - 2] == '*' && s[j - 1] == '/'
    {
      BlockCommentShape(s, i, j);
    }
    if i + 2 <= |s| && s[i] == '/' && s[i + 1] == '*' {
      var c := CommentClose(s, i + 2);
      if c.Some? {
        var t := s[i..c.value + 2];
        assert t[..2] == "/*";
        assert t[|t| - 2..] == "*/";
      }
    }
  }

  /** The closing quote found by QuoteClose is the only one that ends a
      well-formed string body starting at `j`. */
  lemma {:induction false} QuoteCloseCorrect(q: char, s: string, j: nat)
    requires q != '\\' && j <= |s|
    ensures QuoteClose(q, s, j).Some? ==> QuotedBody(q, s[j..QuoteClose(q, s, j).value])
    ensures forall e | j <= e < |s| && s[e] == q && QuotedBody(q, s[j..e]) :: QuoteClose(q, s, j) == Some(e)
    decreases |s| - j
  {
    if j == |s| {
    } else if s[j] == q {
      assert s[j..j] == [];
      forall e | j < e < |s| && s[e] == q ensures !QuotedBody(q, s[j..e]) {
        assert s[j..e][0] == q;
      }
    } else if s[j] == '\\' {
      if j + 1 < |s| && s[j + 1] != '\n' {
        QuoteCloseCorrect(q, s, j + 2);
        if QuoteClose(q, s, j + 2).Some? {
          var e := QuoteClose(q, s, j + 2).value;
          assert s[j..e][2..] == s[j + 2..e];
        }
        forall e | j <= e < |s| && s[e] == q && QuotedBody(q, s[j..e]) ensures QuoteClose(q, s, j) == Some(e) {
          assert s[j..e][0] == '\\';
          assert s[j..e][2..] == s[j + 2..e];
        }
      } else {
        forall e | j <= e < |s| && s[e] == q ensures !QuotedBody(q, s[j..e]) {
          var b := s[j..e];
          assert e > j ==> b[0] == '\\';
          if |b| >= 2 {
            assert b[1] == s[j + 1];
          }
        }
      }
    } else {
      QuoteCloseCorrect(q, s, j + 1);
      if QuoteClose(q, s, j + 1).Some? {
        var e := QuoteClose(q, s, j + 1).value;
        assert s[j..e][1..] == s[j + 1..e];
      }
      forall e | j <= e < |s| && s[e] == q && QuotedBody(q, s[j..e]) ensures QuoteClose(q, s, j) == Some(e) {
        assert s[j..e][0] == s[j];
        assert s[j..e][1..] == s[j + 1..e];
      }
    }
  }

  /** Any string-shaped prefix opens at `i` and closes just before `j`. */
  lemma QuotedShape(q: char, s: string, i: nat, j: nat)
    requires i <= j <= |s| && InLanguage(Quoted(q), s[i..j])
    ensures i + 2 <= j && s[i] == q && s[j - 1] == q && QuotedBody(q, s[i + 1..j - 1])
  {
    var u := s[i..j];
    assert u[0] == s[i] && u[|u| - 1] == s[j - 1];
    SliceOfSlice(s, i, j, 1, |u| - 1);
  }

  lemma QuotedMatch(q: char, s: string, i: nat)
    requires q != '\\' && i <= |s|
    ensures IsReMatch(Quoted(q), s, i, MatchAt(Quoted(q), s, i))
  {
    forall j | i <= j <= |s| && InLanguage(Quoted(q), s[i..j])
      ensures i + 2 <= j && s[i] == q && s[j - 1] == q && QuotedBody(q, s[i + 1..j - 1])
    {
      QuotedShape(q, s, i, j);
    }
    if i < |s| && s[i] == q {
      QuoteCloseCorrect(q, s, i + 1);
      if QuoteClose(q, s, i + 1).Some? {
        var e := QuoteClose(q, s, i + 1).value;
        assert MatchAt(Quoted(q), s, i) == Some(e + 1 - i);
        SliceOfSlice(s, i, e + 1, 1, e - i);
      } else {
        assert MatchAt(Quoted(q), s, i) == None;
      }
    } else {
      assert MatchAt(Quoted(q), s, i) == None;
    }
  }

  /** Any float-shaped prefix has its dot right after the maximal digit run
      and its fraction within the digit run that follows. */
  lemma FloatShape(s: string, i: nat, j: nat)
    requires i <= j <= |s| && InLanguage(FloatNumber, s[i..j])
    ensures var d := RunLength(s, i, IsDigit);
      && d >= 1 && i + d + 2 <= j && s[i + d] == '.'
      && j <= i + d + 1 + RunLength(s, i + d + 1, IsDigit)
  {
    var u := s[i..j];
    var k :| FloatSplit(u, k);
    assert u[..k] == u[0..k];
    SliceOfSlice(s, i, j, 0, k);
    SliceOfSlice(s, i, j, k + 1, |u|);
    RunBound(s, i, IsDigit, i + k);
    assert s[i + k] == '.';
    assert RunLength(s, i, IsDigit) == k;
    RunBound(s, i + k + 1, IsDigit, j);
  }

  /** Two digit runs around a dot make a float-shaped prefix. */
  lemma FloatFromRuns(s: string, i: nat, d: nat, f: nat)
    requires 1 <= d && 1 <= f && i + d + 1 + f <= |s| && s[i + d] == '.'
    requires forall m | i <= m < i + d :: IsDigit(s[m])
    requires forall m | i + d + 1 <= m < i + d + 1 + f :: IsDigit(s[m])
    ensures InLanguage(FloatNumber, s[i..i + d + 1 + f])
  {
    var t := s[i..i + d + 1 + f];
    assert t[..d] == t[0..d];
    SliceOfSlice(s, i, i + d + 1 + f, 0, d);
    SliceOfSlice(s, i, i + d + 1 + f, d + 1, |t|);
    assert FloatSplit(t, d);
  }

  lemma FloatMatch(s: string, i: nat)
    requires i <= |s|
    ensures IsReMatch(FloatNumber, s, i, MatchAt(FloatNumber, s, i))
  {
    var d := RunLength(s, i, IsDigit);
    forall j | i <= j <= |s| && InLanguage(FloatNumber, s[i..j])
      ensures d >= 1 && i + d + 2 <= j && s[i + d] == '.' && j <= i + d + 1 + RunLength(s, i + d + 1, IsDigit)
    {
      FloatShape(s, i, j);
    }
    if d >= 1 && i + d < |s| && s[i + d] == '.' && RunLength(s, i + d + 1, IsDigit) >= 1 {
      var f := RunLength(s, i + d + 1, IsDigit);
      assert MatchAt(FloatNumber, s, i) == Some(d + 1 + f);
      FloatFromRuns(s, i, d, f);
    } else {
      assert MatchAt(FloatNumber, s, i) == None;
    }
  }

  lemma IntegerMatch(s: string, i: nat)
    requires i <= |s|
    ensures IsReMatch(IntegerNumber, s, i, MatchAt(IntegerNumber, s, i))
  {
    forall j | i <= j <= |s| && InLanguage(IntegerNumber, s[i..j])
      ensures j <= i + RunLength(s, i, IsDigit)
    {
      RunBound(s, i, IsDigit, j);
    }
  }

  lemma BlanksMatch(s: string, i: nat)
    requires i <= |s|
    ensures IsReMatch(Blanks, s, i, MatchAt(Blanks, s, i))
  {
    forall j | i <= j <= |s| && InLanguage(Blanks, s[i..j])
      ensures j <= i + RunLength(s, i, IsBlank)
    {
      RunBound(s, i, IsBlank, j);
    }
  }

  lemma IdentifierMatch(s: string, i: nat)
    requires i <= |s|
    ensures IsReMatch(Identifier, s, i, MatchAt(Identifier, s, i))
  {
    if i < |s| && IsIdentStart(s[i]) {
      var r := RunLength(s, i + 1, IsIdentPart);
      assert s[i..i + 1 + r][1..] == s[i + 1..i + 1 + r];
      forall j | i < j <= |s| && InLanguage(Identifier, s[i..j])
        ensures j <= i + 1 + r
      {
        assert s[i..j][1..] == s[i + 1..j];
        RunBound(s, i + 1, IsIdentPart, j);
      }
    } else {
      forall j | i <= j <= |s| ensures !InLanguage(Identifier, s[i..j]) {
        if j > i {
          assert s[i..j][0] == s[i];
        }
      }
    }
  }

  lemma ExactMatch(x: string, s: string, i: nat)
    requires |x| >= 1 && i <= |s|
    ensures IsReMatch(Exact(x), s, i, MatchAt(Exact(x), s, i))
  {
  }

  /** Every matcher returns what `re.match` returns for its pattern. */
  lemma MatchAtIsReMatch(p: Pattern, s: string, i: nat)
    requires ValidPattern(p) && i <= |s|
    ensures IsReMatch(p, s, i, MatchAt(p, s, i))
  {
    match p
    case LineComment => LineCommentMatch(s, i);
    case BlockComment => BlockCommentMatch(s, i);
    case Quoted(q) => QuotedMatch(q, s, i);
    case FloatNumber => FloatMatch(s, i);
    case IntegerNumber => IntegerMatch(s, i);
    case Exact(x) => ExactMatch(x, s, i);
    case Identifier => IdentifierMatch(s, i);
    case Blanks => BlanksMatch(s, i);
  }

  // ---------------------------------------------------------------------
  // The first rule in table order that matches wins.

  /** The winning rule's index in the table and the length of its match. */
  datatype Winner = Winner(rule: nat, length: nat)

  /** The first rule of `rules`, at index `k` or later, whose pattern matches
      at offset `i` of `s`. */
  function FirstMatchFrom(rules: seq<Rule>, s: string, i: nat, k: nat): (r: Option<Winner>)
    requires i <= |s| && k <= |rules|
    ensures r.Some? ==> k <= r.value.rule < |rules| && 1 <= r.value.length && i + r.value.length <= |s|
    decreases |rules| - k
  {
    if k == |rules| then None
    else match MatchAt(rules[k].pattern, s, i)
      case Some(n) => Some(Winner(k, n))
      case None => FirstMatchFrom(rules, s, i, k + 1)
  }

  /** The winner's rule matches with the winner's length and every rule
      tried before it fails; when nothing wins, every rule fails. */
  lemma {:induction false} FirstMatchFromSpec(rules: seq<Rule>, s: string, i: nat, k: nat)
    requires i <= |s| && k <= |rules|
    ensures var r := FirstMatchFrom(rules, s, i, k);
      && (r.Some? ==> MatchAt(rules[r.value.rule].pattern, s, i) == Some(r.value.length))
      && (r.Some? ==> forall k' | k <= k' < r.value.rule :: MatchAt(rules[k'].pattern, s, i).None?)
      && (r.None? ==> forall k' | k <= k' < |rules| :: MatchAt(rules[k'].pattern, s, i).None?)
    decreases |rules| - k
  {
    if k < |rules| && MatchAt(rules[k].pattern, s, i).None? {
      FirstMatchFromSpec(rules, s, i, k + 1);
    }
  }

  /** The rule of the table that wins at offset `i`. */
  function FirstMatch(s: string, i: nat): Option<Winner>
    requires i <= |s|
  {
    FirstMatchFrom(RuleTable, s, i, 0)
  }

  /** Rule `k` wins with a match of length `n` exactly when it matches with
      that length and no earlier rule matches, even if a later rule would
      match more; nothing wins exactly when no rule matches. */
  lemma FirstRuleWins(rules: seq<Rule>, s: string, i: nat, k: nat, n: nat)
    requires i <= |s|
    ensures FirstMatchFrom(rules, s, i, 0) == Some(Winner(k, n)) <==>
      && k < |rules|
      && MatchAt(rules[k].pattern, s, i) == Some(n)
      && forall k' | 0 <= k' < k :: MatchAt(rules[k'].pattern, s, i).None?
    ensures FirstMatchFrom(rules, s, i, 0).None? <==>
      forall k' | 0 <= k' < |rules| :: MatchAt(rules[k'].pattern, s, i).None?
  {
    var w := FirstMatchFrom(rules, s, i, 0);
    FirstMatchFromSpec(rules, s, i, 0);
    if && w.Some? && k < |rules| && MatchAt(rules[k].pattern, s, i) == Some(n)
       && forall k' | 0 <= k' < k :: MatchAt(rules[k'].pattern, s, i).None?
    {
      assert w.value.rule <= k;
      assert w.value.rule >= k;
    }
  }

  /** The first character a match of each pattern can start with. */
  predicate CanStart(p: Pattern, c: char)
  {
    match p
    case LineComment => c == '/'
    case BlockComment => c == '/'
    case Quoted(q) => c == q
    case FloatNumber => IsDigit(c)
    case IntegerNumber => IsDigit(c)
    case Exact(x) => |x| >= 1 && c == x[0]
    case Identifier => IsIdentStart(c)
    case Blanks => IsBlank(c)
  }

  lemma MatchNeedsStart(p: Pattern, s: string, i: nat)
    requires i <= |s|
    ensures MatchAt(p, s, i).Some? ==> i < |s| && CanStart(p, s[i])
  {
    if p.Exact? && MatchAt(p, s, i).Some? {
      assert s[i..i + |p.lexeme|][0] == s[i];
    }
  }

  /** No rule of `rules` from index `a` up to `b` can start with `c`. */
  predicate NoneCanStart(rules: seq<Rule>, a: nat, b: nat, c: char)
    requires a <= b <= |rules|
  {
    forall k | a <= k < b :: !CanStart(rules[k].pattern, c)
  }

  /** Scanning `rules` from `a`, rule `k` wins when it matches and no rule
      between them can start with the character at the cursor. */
  lemma WinsFrom(rules: seq<Rule>, s: string, i: nat, a: nat, k: nat, n: nat)
    requires i < |s| && a <= k < |rules| && MatchAt(rules[k].pattern, s, i) == Some(n)
    requires NoneCanStart(rules, a, k, s[i])
    ensures FirstMatchFrom(rules, s, i, a) == Some(Winner(k, n))
  {
    forall k' | a <= k' < k ensures MatchAt(rules[k'].pattern, s, i).None? {
      MatchNeedsStart(rules[k'].pattern, s, i);
    }
    var w := FirstMatchFrom(rules, s, i, a);
    FirstMatchFromSpec(rules, s, i, a);
    assert w.Some?;
    assert w.value.rule <= k;
    assert w.value.rule >= k;
  }

  /** The rules declared before each two-character comparison cannot start
      with its first character. */
  lemma ComparisonStarters()
    ensures NoneCanStart(RuleTable, 0, 6, '=') && NoneCanStart(RuleTable, 0, 7, '!')
    ensures NoneCanStart(RuleTable, 0, 8, '<') && NoneCanStart(RuleTable, 0, 9, '>')
  {
  }

  /** The two-character comparisons are never split: "==", "!=", "<=" and
      ">=" win over "=", "<" and ">" because they are declared first. */
  lemma ComparisonsNotSplit(s: string, i: nat)
    requires i + 2 <= |s| && (s[i] == '=' || s[i] == '!' || s[i] == '<' || s[i] == '>') && s[i + 1] == '='
    ensures FirstMatch(s, i).Some?
    ensures FirstMatch(s, i).value.length == 2
    ensures RuleTable[FirstMatch(s, i).value.rule].kind ==
      match s[i] case '=' => EQUAL case '!' => NOT_EQUAL case '<' => LESS_EQUAL case _ => GREATER_EQUAL
  {
    assert s[i..i + 2] == [s[i], s[i + 1]];
    ComparisonStarters();
    if s[i] == '=' {
      WinsFrom(RuleTable, s, i, 0, 6, 2);
    } else if s[i] == '!' {
      WinsFrom(RuleTable, s, i, 0, 7, 2);
    } else if s[i] == '<' {
      WinsFrom(RuleTable, s, i, 0, 8, 2);
    } else {
      WinsFrom(RuleTable, s, i, 0, 9, 2);
    }
  }

  /** Only the comment rules are declared before the string, number and
      identifier rules, and those start with '/'. */
  lemma DigitStarters(c: char)
    requires IsDigit(c)
    ensures NoneCanStart(RuleTable, 0, 4, c)
  {
  }

  lemma IdentifierStarters(c: char)
    requires IsIdentStart(c)
    ensures NoneCanStart(RuleTable, 0, 26, c)
  {
  }

  /** "45.67" is one number: the float rule is declared before the integer
      rule, so a digits-dot-digits prefix is never split. */
  lemma FloatNotSplit(s: string, i: nat)
    requires i <= |s| && MatchAt(FloatNumber, s, i).Some?
    ensures FirstMatch(s, i) == Some(Winner(4, MatchAt(FloatNumber, s, i).value))
    ensures RuleTable[4].kind == NUMBER
  {
    MatchNeedsStart(FloatNumber, s, i);
    DigitStarters(s[i]);
    WinsFrom(RuleTable, s, i, 0, 4, MatchAt(FloatNumber, s, i).value);
  }

  lemma IdentifierRuleMatches(s: string, i: nat)
    requires i < |s| && IsIdentStart(s[i])
    ensures MatchAt(RuleTable[26].pattern, s, i) == Some(1 + RunLength(s, i + 1, IsIdentPart))
  {
  }

  /** A letter or underscore starts an identifier-shaped match spanning the
      whole run of identifier characters; keywords are not separate rules. */
  lemma IdentifierWins(s: string, i: nat)
    requires i < |s| && IsIdentStart(s[i])
    ensures FirstMatch(s, i) == Some(Winner(26, 1 + RunLength(s, i + 1, IsIdentPart)))
    ensures RuleTable[26].kind == IDENTIFIER
  {
    var n := 1 + RunLength(s, i + 1, IsIdentPart);
    IdentifierRuleMatches(s, i);
    IdentifierStarters(s[i]);
    WinsFrom(RuleTable, s, i, 0, 26, n);
  }

  /** Between the comment rules and DIVIDE no rule starts with '/'. */
  lemma SlashStarters()
    ensures NoneCanStart(RuleTable, 2, 16, '/')
  {
  }

  /** An opened block comment that is never closed is not a comment: its
      slash scans as DIVIDE. */
  lemma UnclosedBlockCommentIsDivide(s: string, i: nat)
    requires i + 2 <= |s| && s[i] == '/' && s[i + 1] == '*'
    requires forall j | i + 2 <= j && j + 1 < |s| :: !(s[j] == '*' && s[j + 1] == '/')
    ensures FirstMatch(s, i) == Some(Winner(16, 1))
    ensures RuleTable[16].kind == DIVIDE
  {
    assert MatchAt(RuleTable[0].pattern, s, i).None?;
    assert MatchAt(RuleTable[1].pattern, s, i).None?;
    assert s[i..i + 1] == "/";
    SlashStarters();
    WinsFrom(RuleTable, s, i, 2, 16, 1);
  }

  /** `//` always starts a COMMENT token that runs up to, not including,
      the next line feed or the end of the text. */
  lemma LineCommentWins(s: string, i: nat)
    requires i + 2 <= |s| && s[i] == '/' && s[i + 1] == '/'
    ensures FirstMatch(s, i) == Some(Winner(0, 2 + RunLength(s, i + 2, NotNewline)))
    ensures RuleTable[0].kind == COMMENT
  {
    assert RuleTable[0] == Rule(LineComment, COMMENT);
    assert MatchAt(RuleTable[0].pattern, s, i) == Some(2 + RunLength(s, i + 2, NotNewline));
  }

  /** An opened block comment that a later star-slash pair closes is one
      COMMENT token, ending at the first such pair. */
  lemma BlockCommentWins(s: string, i: nat)
    requires i + 2 <= |s| && s[i] == '/' && s[i + 1] == '*'
    requires exists j | i + 2 <= j && j + 1 < |s| :: s[j] == '*' && s[j + 1] == '/'
    ensures CommentClose(s, i + 2).Some?
    ensures FirstMatch(s, i) == Some(Winner(1, CommentClose(s, i + 2).value + 2 - i))
    ensures RuleTable[1].kind == COMMENT
  {
    assert RuleTable[0].pattern == LineComment && RuleTable[1] == Rule(BlockComment, COMMENT);
    assert MatchAt(RuleTable[0].pattern, s, i).None?;
    var e := CommentClose(s, i + 2).value;
    assert MatchAt(RuleTable[1].pattern, s, i) == Some(e + 2 - i);
    assert FirstMatchFrom(RuleTable, s, i, 0) == FirstMatchFrom(RuleTable, s, i, 1);
  }

  /** Only the two comment rules come before the string rules, and both
      start with '/'. */
  lemma QuoteStarters()
    ensures NoneCanStart(RuleTable, 0, 2, '"') && NoneCanStart(RuleTable, 0, 3, '\'')
  {
  }

  /** A quote that opens a closed literal is one STRING_LITERAL token
      spanning the whole literal, for either quote character. */
  lemma StringWins(s: string, i: nat)
    requires i < |s| && (s[i] == '"' || s[i] == '\'') && MatchAt(Quoted(s[i]), s, i).Some?
    ensures FirstMatch(s, i) == Some(Winner(if s[i] == '"' then 2 else 3, MatchAt(Quoted(s[i]), s, i).value))
    ensures RuleTable[2].kind == STRING_LITERAL && RuleTable[3].kind == STRING_LITERAL
  {
    var n := MatchAt(Quoted(s[i]), s, i).value;
    assert RuleTable[2] == Rule(Quoted('"'), STRING_LITERAL) && RuleTable[3] == Rule(Quoted('\''), STRING_LITERAL);
    QuoteStarters();
    if s[i] == '"' {
      WinsFrom(RuleTable, s, i, 0, 2, n);
    } else {
      WinsFrom(RuleTable, s, i, 0, 3, n);
    }
  }

  /** Rules that fail at the cursor are passed over: the search from `a`
      gives what the search from `b` gives. */
  lemma {:induction false} SkipFailing(rules: seq<Rule>, s: string, i: nat, a: nat, b: nat)
    requires i <= |s| && a <= b <= |rules|
    requires forall k | a <= k < b :: MatchAt(rules[k].pattern, s, i).None?
    ensures FirstMatchFrom(rules, s, i, a) == FirstMatchFrom(rules, s, i, b)
    decreases b - a
  {
    if a < b {
      SkipFailing(rules, s, i, a + 1, b);
    }
  }

  /** Rules that cannot start with the character at the cursor are passed
      over. */
  lemma SkipUnstartable(rules: seq<Rule>, s: string, i: nat, a: nat, b: nat)
    requires i < |s| && a <= b <= |rules| && NoneCanStart(rules, a, b, s[i])
    ensures FirstMatchFrom(rules, s, i, a) == FirstMatchFrom(rules, s, i, b)
  {
    forall k | a <= k < b ensures MatchAt(rules[k].pattern, s, i).None? {
      MatchNeedsStart(rules[k].pattern, s, i);
    }
    SkipFailing(rules, s, i, a, b);
  }

  /** The rules before each one-character operator that cannot start with
      its character. */
  lemma ArithmeticStarters()
    ensures NoneCanStart(RuleTable, 0, 13, '+') && NoneCanStart(RuleTable, 0, 14, '-')
    ensures NoneCanStart(RuleTable, 0, 15, '*') && NoneCanStart(RuleTable, 0, 17, '%')
  {
    AdditiveStarters();
    MultiplicativeStarters();
  }

  lemma AdditiveStarters()
    ensures NoneCanStart(RuleTable, 0, 13, '+') && NoneCanStart(RuleTable, 0, 14, '-')
  {
  }

  lemma MultiplicativeStarters()
    ensures NoneCanStart(RuleTable, 0, 15, '*') && NoneCanStart(RuleTable, 0, 17, '%')
  {
  }

  /** A one-character rule wins when no rule between `a` and it can start
      with the character at the cursor. */
  lemma OneCharWins(rules: seq<Rule>, s: string, i: nat, a: nat, k: nat)
    requires i < |s| && a <= k < |rules| && rules[k].pattern == Exact([s[i]])
    requires NoneCanStart(rules, a, k, s[i])
    ensures FirstMatchFrom(rules, s, i, a) == Some(Winner(k, 1))
  {
    assert s[i..i + 1] == [s[i]];
    WinsFrom(rules, s, i, a, k, 1);
  }

  /** A two-character rule fails where its second character is missing. */
  lemma PairFails(rules: seq<Rule>, s: string, i: nat, k: nat)
    requires i < |s| && k < |rules| && rules[k].pattern == Exact([s[i], '='])
    requires i + 1 == |s| || s[i + 1] != '='
    ensures FirstMatchFrom(rules, s, i, k) == FirstMatchFrom(rules, s, i, k + 1)
  {
    assert i + 2 <= |s| ==> s[i..i + 2][1] == s[i + 1];
  }

  /** A lone `<`, one not followed by `=`, is LESS_THAN: the `<=` rule
      declared before it fails. */
  lemma LessThanWins(s: string, i: nat)
    requires i < |s| && s[i] == '<' && (i + 1 == |s| || s[i + 1] != '=')
    ensures FirstMatch(s, i) == Some(Winner(10, 1))
    ensures RuleTable[10].kind == LESS_THAN
  {
    assert RuleTable[10] == Rule(Exact("<"), LESS_THAN);
    LessThanWinsSkip(s, i);
    assert NoneCanStart(RuleTable, 9, 10, '<');
    OneCharWins(RuleTable, s, i, 9, 10);
  }

  lemma LessThanWinsSkip(s: string, i: nat)
    requires i < |s| && s[i] == '<' && (i + 1 == |s| || s[i + 1] != '=')
    ensures FirstMatch(s, i) == FirstMatchFrom(RuleTable, s, i, 9)
  {
    assert RuleTable[8].pattern == Exact("<=");
    ComparisonStarters();
    SkipUnstartable(RuleTable, s, i, 0, 8);
    PairFails(RuleTable, s, i, 8);
  }

  /** A lone `>`, one not followed by `=`, is GREATER_THAN. */
  lemma GreaterThanWins(s: string, i: nat)
    requires i < |s| && s[i] == '>' && (i + 1 == |s| || s[i + 1] != '=')
    ensures FirstMatch(s, i) == Some(Winner(11, 1))
    ensures RuleTable[11].kind == GREATER_THAN
  {
    assert RuleTable[11] == Rule(Exact(">"), GREATER_THAN);
    GreaterThanWinsSkip(s, i);
    assert NoneCanStart(RuleTable, 10, 11, '>');
    OneCharWins(RuleTable, s, i, 10, 11);
  }

  lemma GreaterThanWinsSkip(s: string, i: nat)
    requires i < |s| && s[i] == '>' && (i + 1 == |s| || s[i + 1] != '=')
    ensures FirstMatch(s, i) == FirstMatchFrom(RuleTable, s, i, 10)
  {
    assert RuleTable[9].pattern == Exact(">=");
    ComparisonStarters();
    SkipUnstartable(RuleTable, s, i, 0, 9);
    PairFails(RuleTable, s, i, 9);
  }

  /** Between `==` and `=` no rule starts with `=`. */
  lemma AssignStarters()
    ensures NoneCanStart(RuleTable, 7, 12, '=')
  {
  }

  /** A lone `=`, one not followed by `=`, is ASSIGN. */
  lemma AssignWins(s: string, i: nat)
    requires i < |s| && s[i] == '=' && (i + 1 == |s| || s[i + 1] != '=')
    ensures FirstMatch(s, i) == Some(Winner(12, 1))
    ensures RuleTable[12].kind == ASSIGN
  {
    assert RuleTable[12] == Rule(Exact("="), ASSIGN);
    AssignWinsSkip(s, i);
    AssignStarters();
    OneCharWins(RuleTable, s, i, 7, 12);
  }

  lemma AssignWinsSkip(s: string, i: nat)
    requires i < |s| && s[i] == '=' && (i + 1 == |s| || s[i + 1] != '=')
    ensures FirstMatch(s, i) == FirstMatchFrom(RuleTable, s, i, 7)
  {
    assert RuleTable[6].pattern == Exact("==");
    ComparisonStarters();
    SkipUnstartable(RuleTable, s, i, 0, 6);
    PairFails(RuleTable, s, i, 6);
  }

  /** `+`, `-`, `*` and `%` are always PLUS, MINUS, MULTIPLY and MODULO. */
  lemma ArithmeticOperatorWins(s: string, i: nat)
    requires i < |s| && (s[i] == '+' || s[i] == '-' || s[i] == '*' || s[i] == '%')
    ensures FirstMatch(s, i).Some? && FirstMatch(s, i).value.length == 1
    ensures RuleTable[FirstMatch(s, i).value.rule].kind ==
      match s[i] case '+' => PLUS case '-' => MINUS case '*' => MULTIPLY case _ => MODULO
  {
    assert s[i..i + 1] == [s[i]];
    ArithmeticStarters();
    if s[i] == '+' {
      WinsFrom(RuleTable, s, i, 0, 13, 1);
    } else if s[i] == '-' {
      WinsFrom(RuleTable, s, i, 0, 14, 1);
    } else if s[i] == '*' {
      WinsFrom(RuleTable, s, i, 0, 15, 1);
    } else {
      WinsFrom(RuleTable, s, i, 0, 17, 1);
    }
  }

  /** A `/` that opens no comment is DIVIDE. */
  lemma SlashWins(s: string, i: nat)
    requires i < |s| && s[i] == '/'
    requires i + 1 == |s| || (s[i + 1] != '/' && s[i + 1] != '*')
    ensures FirstMatch(s, i) == Some(Winner(16, 1))
    ensures RuleTable[16].kind == DIVIDE
  {
    assert s[i..i + 1] == "/";
    assert i + 2 <= |s| ==> s[i..i + 2][1] == s[i + 1];
    assert MatchAt(RuleTable[0].pattern, s, i).None?;
    assert MatchAt(RuleTable[1].pattern, s, i).None?;
    SlashStarters();
    WinsFrom(RuleTable, s, i, 2, 16, 1);
  }

  /** No rule before the delimiters can start with a delimiter, and none
      of the first four delimiter rules starts with one of the last four. */
  lemma DelimiterStarters(c: char)
    requires IsDelimiterChar(c)
    ensures NoneCanStart(RuleTable, 0, 18, c)
  {
    DelimiterStartersBefore(c);
    DelimiterStartersAfter(c);
    NoneCanStartJoin(RuleTable, 0, 6, 18, c);
  }

  lemma DelimiterStartersBefore(c: char)
    requires IsDelimiterChar(c)
    ensures NoneCanStart(RuleTable, 0, 6, c)
  {
  }

  lemma DelimiterStartersAfter(c: char)
    requires IsDelimiterChar(c)
    ensures NoneCanStart(RuleTable, 6, 18, c)
  {
  }

  /** Two adjacent stretches of rules that cannot start with `c` make one. */
  lemma NoneCanStartJoin(rules: seq<Rule>, a: nat, b: nat, d: nat, c: char)
    requires a <= b <= d <= |rules|
    requires NoneCanStart(rules, a, b, c) && NoneCanStart(rules, b, d, c)
    ensures NoneCanStart(rules, a, d, c)
  {
  }

  /** Braces and brackets cannot start the first four delimiter rules. */
  lemma BracketStarters(c: char)
    requires c == '{' || c == '}' || c == '[' || c == ']'
    ensures NoneCanStart(RuleTable, 18, 22, c)
  {
  }

  /** The kind each delimiter stands for. */
  function DelimiterKind(c: char): TokenKind
  {
    match c
    case ';' => SEMICOLON case ',' => COMMA case '(' => LEFT_PAREN case ')' => RIGHT_PAREN
    case '{' => LEFT_BRACE case '}' => RIGHT_BRACE case '[' => LEFT_BRACKET case _ => RIGHT_BRACKET
  }

  /** A delimiter is always the one-character token of its own rule:
      SEMICOLON, COMMA, or the left or right parenthesis, brace or
      bracket. */
  lemma DelimiterWins(s: string, i: nat)
    requires i < |s| && IsDelimiterChar(s[i])
    ensures FirstMatch(s, i).Some? && FirstMatch(s, i).value.length == 1
    ensures RuleTable[FirstMatch(s, i).value.rule].kind == DelimiterKind(s[i])
  {
    var c := s[i];
    DelimiterStarters(c);
    SkipUnstartable(RuleTable, s, i, 0, 18);
    if c == ';' || c == ',' || c == '(' || c == ')' {
      FirstDelimitersWin(s, i);
    } else {
      LastDelimitersWin(s, i);
    }
  }

  lemma FirstDelimitersWin(s: string, i: nat)
    requires i < |s| && (s[i] == ';' || s[i] == ',' || s[i] == '(' || s[i] == ')')
    ensures var w := FirstMatchFrom(RuleTable, s, i, 18);
      w.Some? && w.value.length == 1 && RuleTable[w.value.rule].kind == DelimiterKind(s[i])
  {
    var c := s[i];
    if c == ';' {
      OneCharWins(RuleTable, s, i, 18, 18);
    } else if c == ',' {
      OneCharWins(RuleTable, s, i, 18, 19);
    } else if c == '(' {
      OneCharWins(RuleTable, s, i, 18, 20);
    } else {
      OneCharWins(RuleTable, s, i, 18, 21);
    }
  }

  lemma LastDelimitersWin(s: string, i: nat)
    requires i < |s| && (s[i] == '{' || s[i] == '}' || s[i] == '[' || s[i] == ']')
    ensures var w := FirstMatchFrom(RuleTable, s, i, 18);
      w.Some? && w.value.length == 1 && RuleTable[w.value.rule].kind == DelimiterKind(s[i])
  {
    BracketStarters(s[i]);
    SkipUnstartable(RuleTable, s, i, 18, 22);
    BracketsWin(s, i);
  }

  lemma BracketsWin(s: string, i: nat)
    requires i < |s| && (s[i] == '{' || s[i] == '}' || s[i] == '[' || s[i] == ']')
    ensures var w := FirstMatchFrom(RuleTable, s, i, 22);
      w.Some? && w.value.length == 1 && RuleTable[w.value.rule].kind == DelimiterKind(s[i])
  {
    if s[i] == '{' || s[i] == '}' {
      BracesWin(s, i);
    } else {
      SquareBracketsWin(s, i);
    }
  }

  lemma BracesWin(s: string, i: nat)
    requires i < |s| && (s[i] == '{' || s[i] == '}')
    ensures var w := FirstMatchFrom(RuleTable, s, i, 22);
      w.Some? && w.value.length == 1 && RuleTable[w.value.rule].kind == DelimiterKind(s[i])
  {
    var c := s[i];
    if c == '{' {
      assert RuleTable[22] == Rule(Exact("{"), LEFT_BRACE) && DelimiterKind(c) == LEFT_BRACE;
      OneCharWins(RuleTable, s, i, 22, 22);
    } else {
      assert RuleTable[23] == Rule(Exact("}"), RIGHT_BRACE) && DelimiterKind(c) == RIGHT_BRACE;
      OneCharWins(RuleTable, s, i, 22, 23);
    }
  }

  lemma SquareBracketsWin(s: string, i: nat)
    requires i < |s| && (s[i] == '[' || s[i] == ']')
    ensures var w := FirstMatchFrom(RuleTable, s, i, 22);
      w.Some? && w.value.length == 1 && RuleTable[w.value.rule].kind == DelimiterKind(s[i])
  {
    var c := s[i];
    if c == '[' {
      assert RuleTable[24] == Rule(Exact("["), LEFT_BRACKET) && DelimiterKind(c) == LEFT_BRACKET;
      OneCharWins(RuleTable, s, i, 22, 24);
    } else {
      assert RuleTable[25] == Rule(Exact("]"), RIGHT_BRACKET) && DelimiterKind(c) == RIGHT_BRACKET;
      OneCharWins(RuleTable, s, i, 22, 25);
    }
  }

  /** A run of digits that the decimal rule does not match is one NUMBER
      token spanning the whole run. */
  lemma IntegerWins(s: string, i: nat)
    requires i < |s| && IsDigit(s[i]) && MatchAt(FloatNumber, s, i).None?
    ensures FirstMatch(s, i) == Some(Winner(5, RunLength(s, i, IsDigit)))
    ensures RuleTable[5].kind == NUMBER
  {
    assert RuleTable[4].pattern == FloatNumber && RuleTable[5] == Rule(IntegerNumber, NUMBER);
    DigitStarters(s[i]);
    SkipUnstartable(RuleTable, s, i, 0, 4);
    assert FirstMatchFrom(RuleTable, s, i, 4) == FirstMatchFrom(RuleTable, s, i, 5);
  }

  /** Only the whitespace rule starts with a space or a tab. */
  lemma BlankStarters(c: char)
    requires IsBlank(c)
    ensures NoneCanStart(RuleTable, 0, 27, c)
  {
  }

  /** A run of spaces and tabs is one WHITESPACE token spanning the whole
      run. */
  lemma BlanksWin(s: string, i: nat)
    requires i < |s| && IsBlank(s[i])
    ensures FirstMatch(s, i) == Some(Winner(27, RunLength(s, i, IsBlank)))
    ensures RuleTable[27].kind == WHITESPACE
  {
    BlankStarters(s[i]);
    WinsFrom(RuleTable, s, i, 0, 27, RunLength(s, i, IsBlank));
  }

  /** A line feed is one NEWLINE token. */
  lemma NewlineWins(s: string, i: nat)
    requires i < |s| && s[i] == '\n'
    ensures FirstMatch(s, i) == Some(Winner(28, 1))
    ensures RuleTable[28].kind == NEWLINE
  {
    assert s[i..i + 1] == "\n";
    assert NoneCanStart(RuleTable, 0, 28, '\n');
    WinsFrom(RuleTable, s, i, 0, 28, 1);
  }

  /** The characters some rule can start with. */
  predicate IsScannableStart(c: char)
  {
    || IsDigit(c) || IsIdentStart(c) || IsBlank(c) || IsOperatorChar(c) || IsDelimiterChar(c)
    || c == '"' || c == '\'' || c == '!' || c == '\n'
  }

  /** The first characters of the one-character operators. */
  predicate IsOperatorChar(c: char)
  {
    c == '<' || c == '>' || c == '=' || c == '+' || c == '-' || c == '*' || c == '/' || c == '%'
  }

  /** The delimiters. */
  predicate IsDelimiterChar(c: char)
  {
    c == ';' || c == ',' || c == '(' || c == ')' || c == '{' || c == '}' || c == '[' || c == ']'
  }

  /** No prefix at `i` is a string literal quoted with `q`. */
  ghost predicate NoStringLiteralAt(q: char, s: string, i: nat)
    requires i <= |s|
  {
    forall j | i <= j <= |s| :: !InLanguage(Quoted(q), s[i..j])
  }

  /** No rule matches at `i` exactly when the character there can start no
      token, or it opens a string that no closing quote completes, or it is a
      '!' not followed by '='. */
  ghost predicate Unscannable(s: string, i: nat)
    requires i < |s|
  {
    var c := s[i];
    !IsScannableStart(c)
    || ((c == '"' || c == '\'') && NoStringLiteralAt(c, s, i))
    || (c == '!' && (i + 1 == |s| || s[i + 1] != '='))
  }

  /** An unscannable character can start no rule of the table. */
  lemma NoRuleStartsWith(c: char)
    requires !IsScannableStart(c)
    ensures forall k | 0 <= k < |RuleTable| :: !CanStart(RuleTable[k].pattern, c)
  {
  }

  /** A quote can start only its own string rule. */
  lemma OnlyStringStartsWithQuote(c: char)
    requires c == '"' || c == '\''
    ensures forall k | 0 <= k < |RuleTable| && CanStart(RuleTable[k].pattern, c) :: RuleTable[k].pattern == Quoted(c)
  {
  }

  /** A '!' can start only the "!=" rule. */
  lemma OnlyNotEqualStartsWithBang()
    ensures forall k | 0 <= k < |RuleTable| && CanStart(RuleTable[k].pattern, '!') :: RuleTable[k].pattern == Exact("!=")
  {
  }

  /** No rule matches when every rule either cannot start with the character
      at the cursor or fails there. */
  lemma AllRulesFail(rules: seq<Rule>, s: string, i: nat)
    requires i < |s|
    requires forall k | 0 <= k < |rules| ::
      !CanStart(rules[k].pattern, s[i]) || MatchAt(rules[k].pattern, s, i).None?
    ensures FirstMatchFrom(rules, s, i, 0).None?
  {
    forall k | 0 <= k < |rules| ensures MatchAt(rules[k].pattern, s, i).None? {
      MatchNeedsStart(rules[k].pattern, s, i);
    }
    FirstRuleWins(rules, s, i, 0, 0);
  }

  /** When the character at the cursor is unscannable, no rule matches. */
  lemma UnscannableMatchesNothing(s: string, i: nat)
    requires i < |s| && Unscannable(s, i)
    ensures FirstMatch(s, i).None?
  {
    var c := s[i];
    if c == '"' || c == '\'' {
      QuotedMatch(c, s, i);
      OnlyStringStartsWithQuote(c);
    } else if c == '!' {
      assert MatchAt(Exact("!="), s, i).None? by {
        if i + 2 <= |s| { assert s[i..i + 2][1] == s[i + 1]; }
      }
      OnlyNotEqualStartsWithBang();
    } else {
      NoRuleStartsWith(c);
    }
    AllRulesFail(RuleTable, s, i);
  }

  /** Some rule wins when rule `k` matches. */
  lemma SomeRuleMatches(rules: seq<Rule>, s: string, i: nat, k: nat)
    requires i <= |s| && k < |rules| && MatchAt(rules[k].pattern, s, i).Some?
    ensures FirstMatchFrom(rules, s, i, 0).Some?
  {
    FirstRuleWins(rules, s, i, 0, 0);
  }

  /** Each single-character operator has a rule of its own. */
  lemma OperatorRule(c: char) returns (k: nat)
    requires IsOperatorChar(c)
    ensures k < |RuleTable| && RuleTable[k].pattern == Exact([c])
  {
    if c == '<' { k := 10; }
    else if c == '>' { k := 11; }
    else if c == '=' { k := 12; }
    else if c == '+' { k := 13; }
    else if c == '-' { k := 14; }
    else if c == '*' { k := 15; }
    else if c == '/' { k := 16; }
    else { k := 17; }
  }

  /** Each delimiter has a rule of its own. */
  lemma DelimiterRule(c: char) returns (k: nat)
    requires IsDelimiterChar(c)
    ensures k < |RuleTable| && RuleTable[k].pattern == Exact([c])
  {
    if c == ';' { k := 18; }
    else if c == ',' { k := 19; }
    else if c == '(' { k := 20; }
    else if c == ')' { k := 21; }
    else if c == '{' { k := 22; }
    else if c == '}' { k := 23; }
    else if c == '[' { k := 24; }
    else { k := 25; }
  }

  /** A single-character operator, a delimiter or a line feed always scans. */
  lemma SingleCharScans(s: string, i: nat)
    requires i < |s| && (IsOperatorChar(s[i]) || IsDelimiterChar(s[i]) || s[i] == '\n')
    ensures FirstMatch(s, i).Some?
  {
    var c := s[i];
    assert s[i..i + 1] == [c];
    var k: nat;
    if IsOperatorChar(c) {
      k := OperatorRule(c);
    } else if IsDelimiterChar(c) {
      k := DelimiterRule(c);
    } else {
      k := 28;
      assert RuleTable[k].pattern == Exact([c]);
    }
    assert MatchAt(RuleTable[k].pattern, s, i).Some?;
    SomeRuleMatches(RuleTable, s, i, k);
  }

  /** A string pattern matches when some prefix is a string literal. */
  lemma QuotedScans(q: char, s: string, i: nat)
    requires q != '\\' && i <= |s|
    requires !NoStringLiteralAt(q, s, i)
    ensures MatchAt(Quoted(q), s, i).Some?
  {
    QuotedMatch(q, s, i);
  }

  /** A digit, a letter, an underscore or a blank always scans. */
  lemma ClassCharScans(s: string, i: nat)
    requires i < |s| && (IsDigit(s[i]) || IsIdentStart(s[i]) || IsBlank(s[i]))
    ensures FirstMatch(s, i).Some?
  {
    if IsDigit(s[i]) {
      SomeRuleMatches(RuleTable, s, i, 5);
    } else if IsIdentStart(s[i]) {
      SomeRuleMatches(RuleTable, s, i, 26);
    } else {
      SomeRuleMatches(RuleTable, s, i, 27);
    }
  }

  /** A quote scans when some prefix is a string literal. */
  lemma StringRuleScans(s: string, i: nat, k: nat)
    requires i < |s| && s[i] != '\\' && k < |RuleTable| && RuleTable[k].pattern == Quoted(s[i])
    requires !NoStringLiteralAt(s[i], s, i)
    ensures FirstMatch(s, i).Some?
  {
    QuotedScans(s[i], s, i);
    SomeRuleMatches(RuleTable, s, i, k);
  }

  /** When the character at the cursor is scannable, some rule matches. */
  lemma ScannableMatchesSomething(s: string, i: nat)
    requires i < |s| && !Unscannable(s, i)
    ensures FirstMatch(s, i).Some?
  {
    var c := s[i];
    if c == '"' {
      StringRuleScans(s, i, 2);
    } else if c == '\'' {
      StringRuleScans(s, i, 3);
    } else if c == '!' {
      assert s[i..i + 2] == "!=";
      SomeRuleMatches(RuleTable, s, i, 7);
    } else if IsDigit(c) || IsIdentStart(c) || IsBlank(c) {
      ClassCharScans(s, i);
    } else {
      SingleCharScans(s, i);
    }
  }

  /** No rule matches exactly when the character at the cursor is unscannable. */
  lemma NoRuleMatchesIff(s: string, i: nat)
    requires i < |s|
    ensures FirstMatch(s, i).None? <==> Unscannable(s, i)
  {
    if Unscannable(s, i) {
      UnscannableMatchesNothing(s, i);
    } else {
      ScannableMatchesSomething(s, i);
    }
  }
}
