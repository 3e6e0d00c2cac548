/**
 * Token kinds, tokens, their display form, the lexical error and the keyword
 * table of the lexer (src/lexer.py, lines 7-112).
 */
module Tokens {
  import opened Wrappers

  /** The closed set of token categories; constructor names are the kind names
      the lexer surfaces verbatim. */
  datatype TokenKind =
    // type keywords
    | INT | FLOAT | STRING | BOOL
    // identifiers and literals
    | IDENTIFIER | NUMBER | STRING_LITERAL | BOOLEAN_LITERAL
    // arithmetic operators
    | PLUS | MINUS | MULTIPLY | DIVIDE | MODULO
    // comparison operators
    | EQUAL | NOT_EQUAL | LESS_THAN | GREATER_THAN | LESS_EQUAL | GREATER_EQUAL
    // assignment
    | ASSIGN
    // logical keywords
    | AND | OR | NOT
    // control keywords
    | IF | ELSE | WHILE | FOR | FUNCTION | RETURN
    // delimiters
    | SEMICOLON | COMMA | LEFT_PAREN | RIGHT_PAREN
    | LEFT_BRACE | RIGHT_BRACE | LEFT_BRACKET | RIGHT_BRACKET
    // special kinds
    | NEWLINE | EOF | WHITESPACE | COMMENT

  /** The enumeration value of a kind, i.e. its name. */
  function Name(k: TokenKind): string
  {
    match k
    case INT => "INT"
    case FLOAT => "FLOAT"
    case STRING => "STRING"
    case BOOL => "BOOL"
    case IDENTIFIER => "IDENTIFIER"
    case NUMBER => "NUMBER"
    case STRING_LITERAL => "STRING_LITERAL"
    case BOOLEAN_LITERAL => "BOOLEAN_LITERAL"
    case PLUS => "PLUS"
    case MINUS => "MINUS"
    case MULTIPLY => "MULTIPLY"
    case DIVIDE => "DIVIDE"
    case MODULO => "MODULO"
    case EQUAL => "EQUAL"
    case NOT_EQUAL => "NOT_EQUAL"
    case LESS_THAN => "LESS_THAN"
    case GREATER_THAN => "GREATER_THAN"
    case LESS_EQUAL => "LESS_EQUAL"
    case GREATER_EQUAL => "GREATER_EQUAL"
    case ASSIGN => "ASSIGN"
    case AND => "AND"
    case OR => "OR"
    case NOT => "NOT"
    case IF => "IF"
    case ELSE => "ELSE"
    case WHILE => "WHILE"
    case FOR => "FOR"
    case FUNCTION => "FUNCTION"
    case RETURN => "RETURN"
    case SEMICOLON => "SEMICOLON"
    case COMMA => "COMMA"
    case LEFT_PAREN => "LEFT_PAREN"
    case RIGHT_PAREN => "RIGHT_PAREN"
    case LEFT_BRACE => "LEFT_BRACE"
    case RIGHT_BRACE => "RIGHT_BRACE"
    case LEFT_BRACKET => "LEFT_BRACKET"
    case RIGHT_BRACKET => "RIGHT_BRACKET"
    case NEWLINE => "NEWLINE"
    case EOF => "EOF"
    case WHITESPACE => "WHITESPACE"
    case COMMENT => "COMMENT"
  }

  /** A scanned token: its kind, the matched text, and the 1-based line and
      column of its first character. */
  datatype Token = Token(kind: TokenKind, value: string, line: nat, column: nat)

  /** The lexical error: the character no rule matches, with its line and column. */
  datatype LexError = LexError(character: char, line: nat, column: nat)

  /** Kinds whose display form carries the token's text. */
  predicate ShowsValue(k: TokenKind)
  {
    k == IDENTIFIER || k == NUMBER || k == STRING_LITERAL || k == BOOLEAN_LITERAL
  }

  /** The display form of a token: `KIND(value)` for a non-empty value of a
      literal-like kind, `KIND` otherwise. */
  function Display(t: Token): (r: string)
    ensures |Name(t.kind)| <= |r| && r[..|Name(t.kind)|] == Name(t.kind)
    ensures t.value != "" && ShowsValue(t.kind) ==> |r| == |Name(t.kind)| + |t.value| + 2
  {
    if t.value != "" && ShowsValue(t.kind) then Name(t.kind) + "(" + t.value + ")"
    else Name(t.kind)
  }

  /** Reads back the text a display form of a `k` token carries: empty for
      the bare name, the text between the parentheses for `KIND(text)`. */
  function ValueOfDisplay(k: TokenKind, d: string): Option<string>
  {
    var name := Name(k);
    if d == name then Some("")
    else if |d| >= |name| + 2 && d[..|name| + 1] == name + "(" && d[|d| - 1] == ')'
    then Some(d[|name| + 1..|d| - 1])
    else None
  }

  /** The display form gives back the token's text exactly when its kind shows
      it and the text is non-empty; otherwise it is the bare kind name. */
  lemma DisplayRoundTrip(t: Token)
    ensures ValueOfDisplay(t.kind, Display(t)) ==
      Some(if t.value != "" && ShowsValue(t.kind) then t.value else "")
    ensures Display(t) == Name(t.kind) <==> !(t.value != "" && ShowsValue(t.kind))
  {
    var name := Name(t.kind);
    if t.value != "" && ShowsValue(t.kind) {
      var d := Display(t);
      assert d == name + "(" + t.value + ")";
      assert |d| > |name|;
      assert d[..|name| + 1] == name + "(";
      assert d[|name| + 1..|d| - 1] == t.value;
    }
  }

  /** The keyword table: exact, case-sensitive spellings and their kinds. */
  const Keywords: map<string, TokenKind> := map[
    "int" := INT,
    "float" := FLOAT,
    "string" := STRING,
    "bool" := BOOL,
    "true" := BOOLEAN_LITERAL,
    "false" := BOOLEAN_LITERAL,
    "if" := IF,
    "else" := ELSE,
    "while" := WHILE,
    "for" := FOR,
    "function" := FUNCTION,
    "return" := RETURN,
    "and" := AND,
    "or" := OR,
    "not" := NOT
  ]

  /** Kinds the keyword table can produce: never an identifier and never a
      structural kind. */
  predicate IsKeywordKind(k: TokenKind)
  {
    k in {INT, FLOAT, STRING, BOOL, BOOLEAN_LITERAL, IF, ELSE, WHILE, FOR, FUNCTION, RETURN, AND, OR, NOT}
  }

  lemma KeywordKinds(w: string)
    requires w in Keywords
    ensures IsKeywordKind(Keywords[w])
  {
  }

  /** The kind of a token whose pattern kind is `kind` and whose text is
      `value`: an identifier spelled exactly as a keyword takes the keyword's
      kind, and nothing else is ever reclassified. */
  function Classify(kind: TokenKind, value: string): (r: TokenKind)
    ensures r != kind ==> kind == IDENTIFIER && value in Keywords && r == Keywords[value]
    ensures kind == IDENTIFIER && value in Keywords ==> IsKeywordKind(r)
    ensures r == IDENTIFIER <==> kind == IDENTIFIER && value !in Keywords
  {
    if kind == IDENTIFIER && value in Keywords then Keywords[value] else kind
  }

  /** Every keyword is at least two characters long and spelled in
      lower-case ASCII letters only. */
  lemma KeywordsLowercase(w: string)
    requires w in Keywords
    ensures |w| >= 2
    ensures forall k | 0 <= k < |w| :: 'a' <= w[k] <= 'z'
  {
  }

  /** The lookup is case-sensitive: a spelling with an upper-case letter
      anywhere, such as `True` or `INT`, stays an identifier. */
  lemma UpperStaysIdentifier(w: string, k: nat)
    requires k < |w| && 'A' <= w[k] <= 'Z'
    ensures w !in Keywords
    ensures Classify(IDENTIFIER, w) == IDENTIFIER
  {
    if w in Keywords {
      KeywordsLowercase(w);
    }
  }
}
