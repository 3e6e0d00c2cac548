# Lexer model

A Dafny model of the lexical analyser in `src/lexer.py`. The lexer turns source text of a small C-like language into tokens. At each position it tries an ordered table of 29 patterns and takes the first one that matches. An identifier that spells a keyword becomes that keyword's token. Whitespace and comment tokens are dropped on request, but they still move the cursor. A NEWLINE token starts a new line at column 1; any other token moves the column by its length. A character that no pattern matches raises an error naming the character, line and column. A successful scan ends with one EOF token.

The model has six modules:

- `Wrappers`: `Option` and `Result`.
- `Tokens`: token kinds, `Token`, the display form (`__str__`), the lexical error and the keyword table with its lookup (`Classify`).
- `Rules`: the pattern table. Each regular expression becomes a hand-written matcher. Each matcher is proved to return the match `re.match` gives: the longest match for the greedy patterns and the shortest for the lazy block comment. The first-match search over the table is proved to pick the first rule in table order that matches.
- `Scanner`: the specification of `tokenize` as functions over a cursor (`Step`, `ScanFrom`, `Tokenize`), with the properties of a scan proved about them.
- `Lexing`: the `Lexer` class. It has mutable `position`, `line`, `column` and `tokens` fields. `Tokenize` is the source's while loop around the rule loop. It is proved to compute `Scanner.Tokenize` and to leave the fields where the scan stopped. The module also has `get_tokens_as_strings` and `analyze_code`.
- `Scenarios`: inputs from `tests/test_lexer.py` scanned token by token. Each step lemma is one turn of the scanning loop at a character class whose winning rule `Rules` pins down. The whole token list or error is proved for four of the test inputs, and for every keyword or identifier-shaped word standing alone.

Lines are counted from NEWLINE tokens only, as the source does. A line feed inside a block comment or a string literal does not advance `line`, and the column goes on counting across it (`Scanner.LinesCountNewlines` states this).

## Model

| member | source | states |
|---|---|---|
| Tokens.DisplayRoundTrip | src/lexer.py:77-80 | The display form is `KIND(value)` exactly when the value is non-empty and the kind is IDENTIFIER, NUMBER, STRING_LITERAL or BOOLEAN_LITERAL; otherwise it is the bare kind name. The value is recovered from the display form. |
| Tokens.Display | src/lexer.py:77-80 | The display form starts with the kind's name. When the value is non-empty and the kind is IDENTIFIER, NUMBER, STRING_LITERAL or BOOLEAN_LITERAL it is two characters longer than name and value together. |
| Tokens.KeywordKinds | src/lexer.py:96-112 | Every keyword maps to a keyword kind (a type keyword, a control keyword, a logical operator or BOOLEAN_LITERAL), never to IDENTIFIER or EOF. |
| Tokens.Classify | src/lexer.py:193-194 | The kind changes only for an IDENTIFIER whose text is a keyword, and then it becomes that keyword's kind. The result is IDENTIFIER exactly when the rule kind is IDENTIFIER and the text is not a keyword. |
| Tokens.KeywordsLowercase | src/lexer.py:96-112 | Every keyword is spelled in lower-case ASCII letters only. |
| Tokens.UpperStaysIdentifier | src/lexer.py:96-112 | The lookup is case-sensitive: any spelling with an upper-case letter anywhere, such as `True` or `INT`, is not a keyword and stays IDENTIFIER. |
| Rules.RuleTableValid | src/lexer.py:115-160 | Every pattern of the table is well formed and no rule yields EOF. |
| Rules.LineCommentMatch | src/lexer.py:117 | `//.*` matches from `//` up to, but not including, the next line feed or the end of the text, and nowhere else. |
| Rules.BlockCommentMatch | src/lexer.py:118 | The lazy `/\*[\s\S]*?\*/` matches up to the first `*/` after the opening `/*`, and does not match when no `*/` follows. |
| Rules.QuotedMatch | src/lexer.py:121-122 | A string literal runs to the first unescaped closing quote. A backslash escapes any character but a line feed. A raw line feed may appear inside. No match when the literal is unclosed. |
| Rules.LineCommentWins | src/lexer.py:117 | At `//` the line-comment rule, the first of the table, wins and takes the text up to, but not including, the next line feed or the end: one COMMENT token. |
| Rules.BlockCommentWins | src/lexer.py:118 | At a `/*` that some later star-slash pair closes, the block-comment rule wins and takes the text up to and including the first such pair: one COMMENT token. |
| Rules.StringWins | src/lexer.py:121-122 | At a quote that starts a complete literal, the string rule for that quote wins with the literal's whole length: one STRING_LITERAL token. |
| Rules.FloatMatch | src/lexer.py:125 | `\d+\.\d+` takes the longest digits-dot-digits prefix and needs a digit after the dot. |
| Rules.IntegerMatch | src/lexer.py:126 | `\d+` takes the whole run of digits. |
| Rules.IdentifierMatch | src/lexer.py:155 | An identifier is a letter or underscore followed by the longest run of letters, digits and underscores. |
| Rules.BlanksMatch | src/lexer.py:158 | `[ \t]+` takes the whole run of spaces and tabs. |
| Rules.ExactMatch | src/lexer.py:129-152 | A fixed operator or delimiter matches exactly when the text at the offset starts with it. |
| Rules.MatchAt | src/lexer.py:115-160 | A match is never empty and never runs past the end of the text. |
| Rules.MatchAtIsReMatch | src/lexer.py:186-187 | For every pattern of the table, the matcher's result is the match `re.match` returns at that offset: the preferred prefix in the pattern's language, or none when no prefix is in it. |
| Rules.FirstMatchFrom | src/lexer.py:185-214 | A winner is a rule at or after the starting index, inside the table, with a non-empty match that stays within the text. |
| Rules.FirstMatchFromSpec | src/lexer.py:185-213 | The search over the rules returns the first rule, in table order, whose pattern matches, with its match length. When it returns nothing, no rule matches. |
| Rules.FirstRuleWins | src/lexer.py:185-213 | Both directions: rule k wins with length n if and only if rule k matches with length n and every earlier rule fails. Nothing wins if and only if every rule fails. |
| Rules.ComparisonsNotSplit | src/lexer.py:128-137 | `==`, `!=`, `<=` and `>=` are taken as one two-character token (EQUAL, NOT_EQUAL, LESS_EQUAL, GREATER_EQUAL), never as `=`/`<`/`>` followed by `=`. |
| Rules.FloatNotSplit | src/lexer.py:124-126 | Where a decimal number such as `45.67` matches, the decimal rule wins with its whole length: it is one NUMBER token, not `45`, `.`, `67`. |
| Rules.IdentifierWins | src/lexer.py:154-155 | At a letter or underscore the identifier rule wins and takes the whole identifier, so `int123` is one identifier and keywords are found only by the lookup afterwards. |
| Rules.UnclosedBlockCommentIsDivide | src/lexer.py:117-118 | A `/*` with no closing `*/` is not a comment: the first rule to match is DIVIDE, with length 1. |
| Rules.LessThanWins | src/lexer.py:131-133 | A `<` not followed by `=` is LESS_THAN, one character long: the `<=` rule declared before it fails. |
| Rules.GreaterThanWins | src/lexer.py:132-134 | A `>` not followed by `=` is GREATER_THAN, one character long. |
| Rules.AssignWins | src/lexer.py:129-137 | An `=` not followed by `=` is ASSIGN, one character long. |
| Rules.ArithmeticOperatorWins | src/lexer.py:136-142 | `+`, `-`, `*` and `%` are always one-character PLUS, MINUS, MULTIPLY and MODULO tokens. |
| Rules.SlashWins | src/lexer.py:117-141 | A `/` that is followed by neither `/` nor `*` is a one-character DIVIDE. |
| Rules.DelimiterWins | src/lexer.py:144-152 | Each delimiter character is always a one-character token of its own kind: SEMICOLON, COMMA, or the left or right parenthesis, brace or bracket. |
| Rules.IntegerWins | src/lexer.py:124-126 | A run of digits that the decimal rule does not match is one NUMBER token spanning the whole run. |
| Rules.BlanksWin | src/lexer.py:157-158 | A run of spaces and tabs is one WHITESPACE token spanning the whole run. |
| Rules.NewlineWins | src/lexer.py:159 | A line feed is a one-character NEWLINE token. |
| Rules.NoRuleMatchesIff | src/lexer.py:214-218 | No rule matches at an offset if and only if the character there is outside every pattern's first characters, or is a quote that starts no complete literal, or is a `!` not followed by `=`. |
| Scanner.Step | src/lexer.py:185-211 | One turn of the outer loop. It fails exactly when no rule matches. Otherwise the token's text is the winner's match and its kind is the rule's kind after the keyword lookup. The token carries the current line and column, and the cursor strictly advances. A NEWLINE moves to column 1 of the next line; any other token moves the column by its length. |
| Scanner.Advance | src/lexer.py:204-211 | The position moves by the match length. A NEWLINE moves to column 1 of the next line; any other kind keeps the line and moves the column by the length. |
| Scanner.Keep | src/lexer.py:199-201 | Every kind but WHITESPACE and COMMENT is kept. WHITESPACE is kept exactly when whitespace is not skipped, and COMMENT exactly when comments are not skipped. |
| Scanner.FilterMembers | src/lexer.py:199-201 | A token is kept if and only if it was in the input and its kind is neither a skipped WHITESPACE nor a skipped COMMENT. |
| Scanner.FilterAppend | src/lexer.py:199-201 | Skipping keeps the order: filtering a concatenation is the concatenation of the filtered parts. |
| Scanner.ScanFrom | src/lexer.py:182-218 | The scan ends at the end of the text exactly when there is no error. An error names the character at the stopping point with its line and column. Every emitted token has a kind the flags keep. |
| Scanner.ScanAtRule | src/lexer.py:185-211 | When rule k is the first to match, the scan emits its classified token if the flags keep it, and continues from the cursor past the match. |
| Scanner.ScanWinner | src/lexer.py:185-211 | When rule k wins with length n, the scan is the classified token of the matched text at the current line and column, if the flags keep it, followed by the scan from the advanced cursor. |
| Scanner.ScanStopsUnmatched | src/lexer.py:214-218 | A scan that stops before the end stops at a position where no rule matches. |
| Scanner.FilterCommutes | src/lexer.py:199-211 | Skipping changes only which tokens are listed. A scan with flags gives exactly the tokens of the scan without flags that the flags keep, with the same lines and columns, and ends at the same cursor with the same error. |
| Scanner.ConcatRoundTrip | src/lexer.py:189-204 | With nothing skipped, the emitted tokens' texts concatenate to exactly the part of the input that was scanned. |
| Scanner.LinesCountNewlines | src/lexer.py:207-211 | The final line is the starting line plus the number of NEWLINE tokens, whatever the flags. |
| Scanner.NoEofScanned | src/lexer.py:189-201 | The scanning loop never emits an EOF token. |
| Scanner.Tokenize | src/lexer.py:169-222 | A success ends with an EOF token whose value is empty. A failure names the character where the scan stopped, before the end of the text, with its line and column. |
| Scanner.TokenizeEndsWithEof | src/lexer.py:220-222 | A successful result is the scanned tokens followed by exactly one EOF token, at the line and column where scanning stopped. A failure is the scan's error. |
| Scanner.TokenStrings | src/lexer.py:224-226 | One string for each token that is not EOF. |
| Scanner.ErrorAtUnscannable | src/lexer.py:214-218 | Tokenizing fails exactly when the scan stops early. The error then names the character at that point, which is unscannable, with its line and column. |
| Scanner.EmptyText | src/lexer.py:182-222 | The empty text gives a lone EOF token at line 1, column 1. |
| Scanner.TokenStringsDropEof | src/lexer.py:224-226 | For a list closed by its only EOF token, the strings are the display forms of every token but the EOF, one for one and in order. |
| Scenarios.BlankStep | src/lexer.py:185-211 | A run of spaces and tabs is one WHITESPACE token at the current line and column, kept only when whitespace is not skipped. The column moves by the run's length. |
| Scenarios.NewlineStep | src/lexer.py:185-211 | A line feed is a NEWLINE token that is always kept, and the scan goes on at column 1 of the next line. |
| Scenarios.WordWins | src/lexer.py:154-155 | The identifier rule wins and takes exactly the word at the cursor. |
| Scenarios.WordStep | src/lexer.py:185-211 | A word is one kept token: an identifier, or the keyword it spells. The column moves by the word's length. |
| Scenarios.IntegerStep | src/lexer.py:185-211 | A run of digits followed by neither a digit nor `.` is one kept NUMBER token. |
| Scenarios.SymbolStep | src/lexer.py:185-211 | A one-character operator or delimiter whose rule wins is one kept token of that rule's kind. |
| Scenarios.StuckStep | src/lexer.py:214-218 | At a character no rule can take, the scan stops with the error for that character at the current line and column. |
| Scenarios.WordScan | src/lexer.py:182-211 | A text that is one identifier-shaped word scans to exactly one token of its classified kind at line 1, column 1, and the cursor ends past the word with no error. |
| Scenarios.WordAlone | tests/test_lexer.py:52-63 | Any identifier-shaped word alone tokenizes to its classified token at line 1, column 1 followed by EOF, whatever the flags. |
| Scenarios.KeywordAlone | tests/test_lexer.py:65-79 | Every keyword alone tokenizes to one token of that keyword's kind followed by EOF: the keyword is not split and not left as an identifier. |
| Scenarios.SimpleAssignment | tests/test_lexer.py:18-37 | `int x = 10 + 5;` gives INT, IDENTIFIER, ASSIGN, NUMBER, PLUS, NUMBER, SEMICOLON and EOF, with their texts, lines and columns. |
| Scenarios.LineColumn | tests/test_lexer.py:153-166 | `"int x\n= 10;"` with whitespace kept gives nine tokens. `int` is at line 1, column 1, and the ASSIGN after the line feed is at line 2, column 1. |
| Scenarios.InvalidCharacter | tests/test_lexer.py:195-203 | `int x = @;` fails with the error for `@` at line 1, column 9. |
| Scenarios.WhitespaceOnly | tests/test_lexer.py:214-223 | `"   \t\n  "` with whitespace skipped gives exactly a NEWLINE at line 1, column 5 and an EOF at line 2, column 3. |
| Lexing.Lexer.constructor | src/lexer.py:162-167 | A new lexer holds the text, starts at position 0, line 1, column 1, with no tokens, and scans with the rule table. |
| Lexing.Lexer.Tokenize | src/lexer.py:169-222 | The imperative loop computes the scan specification, whatever state a previous call left. The fields end at the cursor where scanning stopped. On success the token field is the returned list; on error it holds the tokens emitted before the error. |
| Lexing.Lexer.TryRules | src/lexer.py:183-218 | One pass of the rule loop. On a match, some rule wins at the old cursor, the cursor becomes the one past that winner, and the token list becomes the old list plus the classified token exactly when the flags keep it; the tokens plus the rest of the scan from the new cursor equal the old tokens plus the rest from the old cursor. Without a match nothing changes, and the scan from here is the error for the current character. |
| Lexing.Lexer.Emit | src/lexer.py:189-211 | The token is the classified match at the old line and column. It is appended exactly when the flags keep it. The cursor moves as a NEWLINE or another token moves it. |
| Lexing.Lexer.TokensAsStrings | src/lexer.py:224-226 | After a successful tokenize, one display string per token before the EOF, in order. |
| Lexing.TokenizeTwice | src/lexer.py:169-180 | Tokenizing twice with the same flags gives the same result, because each call resets the cursor and the tokens. |
| Lexing.AnalyzeCode | src/lexer.py:229-238 | A fresh lexer with whitespace and comments kept exactly when `verbose` is set. A success ends with its only EOF token and, unless verbose, holds no whitespace or comment token. |

## Left out

- `src/main.py` and the demonstration under `if __name__ == "__main__"` are not part of this model. They are I/O around the lexer.
- The regular expression engine and `re.compile` are not modelled. Each pattern of the table is replaced by a matcher proved equal to the pattern's `re.match` result.
- `\d` is read as the ASCII digits. Python's `\d` on `str` also accepts other Unicode decimal digits.
- `LexerError` keeps the character, line and column. Its human-readable message text is left out.
- The exception becomes the `Err` case of a `Result`.
- The default arguments of `tokenize` and `analyze_code` are not modelled; every caller passes both flags.
- Lexing.Lexer.TokensAsStrings: states the one-string-per-token correspondence only for a token list closed by its only EOF, as after a successful `tokenize`. For other lists it states only that no more strings than tokens come out.
- Rules.MatchAt: its own contract gives only the bounds of a match. That it returns the `re.match` result is stated by `Rules.MatchAtIsReMatch`.
- Rules.FirstMatchFrom: its own contract gives only the bounds of a winner. That the winner is the first matching rule is stated by `Rules.FirstMatchFromSpec` and `Rules.FirstRuleWins`.
- Scanner.TokenStrings: its own contract gives only the number of strings. Their content and order are stated by `Scanner.TokenStringsDropEof`.
- Tokens.Display: its own contract gives only the kind-name prefix and the length. The exact form is stated by `Tokens.DisplayRoundTrip`.
- Scanner.Tokenize: its own contract gives only the closing EOF and the error position. The full token list is stated by `Scanner.TokenizeEndsWithEof`.
- `tokenize` returns the lexer's own `tokens` list (src/lexer.py:222), so the caller's list and the field are one object. Sequences in the model are values, so this aliasing is not modelled.
- Only four multi-token inputs of `tests/test_lexer.py` are scanned as whole texts: `Scenarios.SimpleAssignment`, `Scenarios.LineColumn`, `Scenarios.InvalidCharacter` and `Scenarios.WhitespaceOnly`. The other tests (numbers, identifiers, keywords, operators, delimiters, strings, booleans, comments, the complex expression and the display forms) are not scanned input by input. Every keyword and every identifier-shaped word alone is tokenized whole by `Scenarios.KeywordAlone` and `Scenarios.WordAlone`. What each other test checks about a single token is proved for every input instead, by `Rules.FloatNotSplit`, `Rules.IntegerWins`, `Rules.IdentifierWins`, `Tokens.Classify`, `Rules.ComparisonsNotSplit`, the `Rules` lemmas for each operator and delimiter, `Rules.StringWins`, `Rules.LineCommentWins`, `Rules.BlockCommentWins` (which rest on the matchers `Rules.QuotedMatch`, `Rules.LineCommentMatch` and `Rules.BlockCommentMatch`), `Scanner.FilterCommutes` and `Tokens.DisplayRoundTrip`. `Scanner.EmptyText` covers the empty input.
