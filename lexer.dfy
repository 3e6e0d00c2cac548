/**
 * The `Lexer` class of src/lexer.py (lines 92-226) and the `analyze_code`
 * helper (lines 229-238). `Tokenize` is the imperative loop of the source:
 * it resets the cursor fields, tries the rules in order at the current
 * position, and for the first one that matches builds the token, appends it
 * unless the flags skip it, and moves position, line and column. It is
 * proved to compute `Scanner.Tokenize` and to leave the fields where the
 * scan stopped.
 */
module Lexing {
  import opened Wrappers
  import opened Tokens
  import opened Rules
  import opened Scanner

  class Lexer {
    /** The ordered (pattern, kind) table the lexer scans with. */
    const patterns: seq<Rule>
    const text: string
    var position: nat
    var line: nat
    var column: nat
    /** The tokens of the last call to Tokenize; on an error, those emitted
        before it. */
    var tokens: seq<Token>

    /** The cursor the fields describe. */
    function Here(): Cursor
      reads this
    {
      Cursor(position, line, column)
    }

    constructor (text: string)
      ensures this.text == text && patterns == RuleTable
      ensures position == 0 && line == 1 && column == 1 && tokens == []
    {
      this.text := text;
      patterns := RuleTable;
      position := 0;
      line := 1;
      column := 1;
      tokens := [];
    }

    /** Scans the whole text. The result does not depend on the state a
        previous call left behind: calling it twice gives the same tokens. */
    method Tokenize(skipWhitespace: bool, skipComments: bool) returns (r: Result<seq<Token>, LexError>)
      modifies this
      ensures r == Scanner.Tokenize(patterns, text, skipWhitespace, skipComments)
      ensures Here() == ScanFrom(patterns, text, Start, skipWhitespace, skipComments).final
      ensures r.Ok? ==> tokens == r.value
      ensures r.Err? ==> tokens == ScanFrom(patterns, text, Start, skipWhitespace, skipComments).emitted
    {
      tokens := [];
      position := 0;
      line := 1;
      column := 1;

      while position < |text|
        invariant position <= |text|
        invariant ScanFrom(patterns, text, Start, skipWhitespace, skipComments) ==
          Prepend(tokens, ScanFrom(patterns, text, Here(), skipWhitespace, skipComments))
        decreases |text| - position
      {
        var matchFound := TryRules(skipWhitespace, skipComments);
        if !matchFound {
          r := Err(LexError(text[position], line, column));
          return;
        }
      }

      ScanAtEnd(patterns, text, Here(), skipWhitespace, skipComments);
      assert tokens + [] == tokens;
      tokens := tokens + [Token(EOF, "", line, column)];
      r := Ok(tokens);
    }

    /** One pass of the outer loop: the rules are tried in order at the
        current position and the first that matches is taken. When none
        matches, nothing changes and the scan stops here with the error for
        the current character. */
    method TryRules(skipWhitespace: bool, skipComments: bool) returns (matchFound: bool)
      requires position < |text|
      modifies this
      ensures matchFound ==> old(position) < position <= |text|
      ensures matchFound ==>
        Prepend(old(tokens), ScanFrom(patterns, text, old(Here()), skipWhitespace, skipComments)) ==
        Prepend(tokens, ScanFrom(patterns, text, Here(), skipWhitespace, skipComments))
      ensures matchFound ==> Step(patterns, text, old(Here())).Some?
      ensures matchFound ==>
        var st := Step(patterns, text, old(Here())).value;
        Here() == st.next && tokens == old(tokens) + Kept(st.token, skipWhitespace, skipComments)
      ensures !matchFound ==> Here() == old(Here()) && tokens == old(tokens)
      ensures !matchFound ==>
        ScanFrom(patterns, text, Here(), skipWhitespace, skipComments) ==
        Scan([], Here(), Some(LexError(text[position], line, column)))
    {
      ghost var here := Here();
      ghost var before := tokens;
      matchFound := false;
      for k := 0 to |patterns|
        invariant !matchFound && Here() == here && tokens == before
        invariant FirstMatchFrom(patterns, text, position, k) == FirstMatchFrom(patterns, text, position, 0)
      {
        var m := MatchAt(patterns[k].pattern, text, position);
        if m.Some? {
          var token := Emit(patterns[k].kind, m.value, skipWhitespace, skipComments);
          ScanPastRule(patterns, text, here, k, m.value, token, Here(), before, skipWhitespace, skipComments);
          StepAtRule(patterns, text, here, k, m.value);
          matchFound := true;
          break;
        }
      }
      if !matchFound {
        ScanStuck(patterns, text, here, skipWhitespace, skipComments);
      }
    }

    /** The body of the rule loop once a rule of kind `ruleKind` has matched
        `length` characters: the keyword lookup, the token at the current
        line and column, appended unless the flags skip its kind, and the
        cursor moved past the match. */
    method Emit(ruleKind: TokenKind, length: nat, skipWhitespace: bool, skipComments: bool) returns (token: Token)
      requires position + length <= |text|
      modifies this
      ensures var value := text[old(position)..old(position) + length];
        token == Token(Classify(ruleKind, value), value, old(line), old(column))
      ensures tokens == old(tokens) + Kept(token, skipWhitespace, skipComments)
      ensures Here() == Advance(old(Here()), token.kind, length)
    {
      var value := text[position..position + length];
      var kind := Classify(ruleKind, value);
      token := Token(kind, value, line, column);
      if Keep(kind, skipWhitespace, skipComments) {
        tokens := tokens + [token];
      }
      position := position + length;
      if kind == NEWLINE {
        line := line + 1;
        column := 1;
      } else {
        column := column + |value|;
      }
    }

    /** `get_tokens_as_strings`: the display form of every token of the last
        call but EOF. After a successful `Tokenize` that is one string per
        token before the closing EOF, in order. */
    function TokensAsStrings(): (r: seq<string>)
      reads this
      ensures |r| <= |tokens|
      ensures ClosedByEof(tokens) ==>
        && |r| == |tokens| - 1
        && forall k | 0 <= k < |tokens| - 1 :: r[k] == Display(tokens[k])
    {
      if ClosedByEof(tokens) then
        TokenStringsDropEof(tokens);
        TokenStrings(tokens)
      else
        TokenStrings(tokens)
    }
  }

  /** A lexer can be asked to tokenize again: every call starts from the
      beginning of the text, so a second call gives the same result. */
  method TokenizeTwice(lexer: Lexer, skipWhitespace: bool, skipComments: bool)
    returns (first: Result<seq<Token>, LexError>, second: Result<seq<Token>, LexError>)
    modifies lexer
    ensures first == second
    ensures second.Ok? ==> lexer.tokens == second.value
  {
    first := lexer.Tokenize(skipWhitespace, skipComments);
    second := lexer.Tokenize(skipWhitespace, skipComments);
  }

  /** `analyze_code`: a fresh lexer over `code`, keeping whitespace and
      comments exactly when `verbose` is set. A successful result ends with
      its only EOF token, and unless `verbose` holds no whitespace or
      comment token. */
  method AnalyzeCode(code: string, verbose: bool) returns (r: Result<seq<Token>, LexError>)
    ensures r == Scanner.Tokenize(RuleTable, code, !verbose, !verbose)
    ensures r.Ok? ==> ClosedByEof(r.value)
    ensures r.Ok? && !verbose ==>
      forall k | 0 <= k < |r.value| :: r.value[k].kind != WHITESPACE && r.value[k].kind != COMMENT
  {
    var lexer := new Lexer(code);
    r := lexer.Tokenize(!verbose, !verbose);
    RuleTableValid();
    TokenizeEndsWithEof(RuleTable, code, !verbose, !verbose);
    if r.Ok? {
      var scan := ScanFrom(RuleTable, code, Start, !verbose, !verbose);
      forall k | 0 <= k < |r.value| - 1
        ensures Keep(r.value[k].kind, !verbose, !verbose)
      {
        assert r.value[k] == scan.emitted[k];
      }
    }
  }
}
