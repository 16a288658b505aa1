# Rat24F syntax analyzer, modelled in Dafny

`syntax_analyzer.py` is a small front end for a subset of the Rat24F
language. It has two parts:

- **The lexer** (`Lexer`) walks the input text with a cursor. It appends
  `(kind, lexeme)` tokens to a list and writes one `Token: ...` line per
  token to the output file.
- **The parser** (`Parser`) is a one-token-lookahead recursive-descent
  parser for a single function declaration. It fetches tokens from the
  lexer with `get_next_token`. It writes a line for each rule it applies.
  On the first syntax error it writes a `Syntax Error:` line and raises.

The model keeps that imperative form:

- `Lexing.Lexer` is a class with the same fields (`input`, `tokens`, `pos`)
  and the same `tokenize` loop.
- `Parsing.Parser` is a class whose `current` token is changed by `Advance`,
  over the lexer's remaining `tokens`.
- Both write `Output.Entry` values to a shared `Output.Sink` that stands for
  the output file. `Output.Render` gives the text of each line.

Each method is proved against a pure reference definition:

- `Lexing.LexFrom` for the tokenize loop.
- One function of module `Grammar` per parse method. Each function maps the
  stream the parser sees (`[current] + tokens`) to a `Run`: an outcome, the
  stream left over, and the lines written.

The properties are lemmas about those definitions:

- `LexingProperties`: the lexemes rebuild the input, and every token is
  well-formed, located and maximal.
- `GrammarProperties`: how much each production consumes, when it fails,
  and which tokens it never examines.
- `GrammarInvariants`: every production only consumes a prefix of its
  stream, and it writes at most one error line, as its last line.

A Python exception is modelled as the outcome `Raised(fault)`:

- `SyntaxFault(complaint)` is the exception `syntax_error` raises.
- `NoToken` is the `TypeError` raised by unpacking `current_token` when it
  is `None`.

The source's quirks are reproduced, not repaired:

- The first token and the tokens in the `(`, `)` and `}` positions are
  skipped unchecked.
- Parameters and body are optional.
- The expression chain matches at most three identifiers.
- Line 129 skips one token after the expression. As a result, `x = a ;` is
  rejected with the `}` reported as the token found instead of `;`, while
  `x = a + ;` is accepted.

## Model

| member | source | states |
|---|---|---|
| Output.Sink.constructor | syntax_analyzer.py:160 | the freshly opened output file has no lines |
| Output.Sink.Write | syntax_analyzer.py:72-73 | write_output appends exactly one line and keeps the earlier ones |
| Lexing.AlnumRunEnd | syntax_analyzer.py:26-27 | the inner loop of the word branch stops at the end of the maximal run of letters and digits: every character before it is alphanumeric, the one at it is not or the input ends |
| Lexing.DigitRunEnd | syntax_analyzer.py:36-37 | the inner loop of the number branch stops at the end of the maximal run of digits |
| Lexing.Scan | syntax_analyzer.py:24-57 | one pass of the dispatch on a non-blank character consumes at least one character, its lexeme is exactly the consumed text, the token is well-formed for its kind and a word or number cannot be extended |
| Lexing.LexFrom | syntax_analyzer.py:17-57 | the loop emits at most one token per remaining character |
| Lexing.Lexer.constructor | syntax_analyzer.py:2-7 | constructing the lexer tokenizes the whole input: the cursor is at the end, the token list is Lex(input) and one token line per token was written |
| Lexing.Lexer.Tokenize | syntax_analyzer.py:12-57 | the loop terminates with the cursor at the end of the input, having appended exactly LexFrom(input, start) to the token list and written one line per appended token |
| Lexing.Lexer.ScanToken | syntax_analyzer.py:24-57 | one non-whitespace iteration of the loop produces the token Scan defines and leaves the cursor just after its lexeme |
| Lexing.Lexer.GetNextToken | syntax_analyzer.py:59-62 | pops exactly the front token and keeps the rest in order; on an empty list returns None and changes nothing |
| LexingProperties.LexemesRebuildInput | syntax_analyzer.py:17-57 | the lexemes emitted from a cursor position, concatenated, are exactly the rest of the input with every blank, tab and newline removed |
| LexingProperties.LexRebuildsInput | syntax_analyzer.py:17-57 | the lexemes of the whole token list rebuild the input without its whitespace, so no other character is skipped or duplicated |
| LexingProperties.LexTokensWellFormed | syntax_analyzer.py:24-57 | every emitted token has the shape of its kind: keyword and identifier lexemes are non-empty alphanumeric words starting with a letter, a keyword exactly when it is in the keyword set; numbers are non-empty digit runs; operators, separators and mismatches are one character from their class |
| LexingProperties.LexTokensLocated | syntax_analyzer.py:24-41 | every token is the input text at its start position, words and numbers are maximal there, and tokens occupy disjoint, increasing stretches of the input |
| LexingProperties.NumbersHaveNoFraction | syntax_analyzer.py:34-41 | there are no real numbers: `3.14` lexes as NUMBER 3, MISMATCH ., NUMBER 14 |
| LexingProperties.OperatorsAreSingleCharacters | syntax_analyzer.py:43-47 | there are no two-character operators: `<=` lexes as two OPERATOR tokens |
| LexingProperties.UnderscoreIsMismatch | syntax_analyzer.py:55-57 | an underscore is not part of a word: `x_y` lexes as IDENTIFIER x, MISMATCH _, IDENTIFIER y |
| Grammar.NamedDeclaration | syntax_analyzer.py:90-102 | once the second token is an identifier, the declaration writes its rule and the name line and then parses the parameters and body after the skipped '(' position |
| Parsing.Parser.constructor | syntax_analyzer.py:66-70 | the parser starts with the first token current and the stream equal to the lexer's token list |
| Parsing.Parser.Advance | syntax_analyzer.py:75-76 | advance makes the next token current, so the stream loses exactly its front token, or stays empty with None current |
| Parsing.Parser.SyntaxError | syntax_analyzer.py:78-80 | syntax_error writes one error line carrying its message and raises a syntax fault with that message |
| Parsing.Parser.ParseIdentifier | syntax_analyzer.py:82-88 | the method leaves the stream, the output and the outcome exactly as Grammar.ParseIdentifier defines |
| Parsing.Parser.ParseFunctionDeclaration | syntax_analyzer.py:90-102 | the method leaves the stream, the output and the outcome exactly as Grammar.ParseFunctionDeclaration defines |
| Parsing.Parser.ParseSignature | syntax_analyzer.py:100-102 | the end of parse_function_declaration behaves as Grammar.ParseSignature defines |
| Parsing.Parser.ParseParameters | syntax_analyzer.py:104-109 | the method behaves exactly as Grammar.ParseParameters defines |
| Parsing.Parser.ParseBody | syntax_analyzer.py:111-117 | the method behaves exactly as Grammar.ParseBody defines |
| Parsing.Parser.ParseStatement | syntax_analyzer.py:119-123 | the method behaves exactly as Grammar.ParseStatement defines |
| Parsing.Parser.ParseAssign | syntax_analyzer.py:124-135 | the part of parse_statement after its identifier behaves exactly as Grammar.ParseAssign defines |
| Parsing.Parser.ExpectSemicolon | syntax_analyzer.py:129-135 | skipping one token and then matching ';' behaves exactly as Grammar.ExpectSemicolon defines |
| Parsing.Parser.ParseExpression | syntax_analyzer.py:137-142 | the method behaves exactly as Grammar.ParseExpression defines |
| Parsing.Parser.ParseTerm | syntax_analyzer.py:144-149 | the method behaves exactly as Grammar.ParseTerm defines |
| Parsing.Parser.ParseFactor | syntax_analyzer.py:151-155 | the method behaves exactly as Grammar.ParseFactor defines |
| Parsing.Analyze | syntax_analyzer.py:163-167 | analysing one input writes the token lines of Lex(input) followed by the lines of the declaration parse over that token list, and ends with that parse's outcome |
| GrammarProperties.IdentifierConsumesOne | syntax_analyzer.py:82-88 | parse_identifier succeeds exactly on an IDENTIFIER, consuming it and writing its line; on any other token it writes one error line naming that token and consumes nothing; on no token it fails |
| GrammarProperties.ExpressionConsumesIdentifiers | syntax_analyzer.py:137-155 | the expression chain consumes min(3, n) tokens, n being the number of leading identifiers, and writes that many production lines in order; it raises, and then only for the missing token, exactly when the stream ends within those fewer than three identifiers |
| GrammarProperties.StatementNeedsIdentifier | syntax_analyzer.py:119-121 | on a non-identifier, parse_statement consumes and writes nothing |
| GrammarProperties.StatementWithoutAssignment | syntax_analyzer.py:119-125 | an identifier followed by a token other than '=' is the whole statement: one token consumed, one line written; an identifier followed by nothing fails on the missing token after writing the statement line |
| GrammarProperties.AssignmentEndsAfterSkippedToken | syntax_analyzer.py:124-135 | with k = 3 + min(3, identifiers after '='), an assignment succeeds exactly when the token at k is ';', fails for the missing token exactly when the stream is shorter than k + 1, and otherwise fails naming the token at k, which it leaves unconsumed |
| GrammarProperties.AssignmentAccepted | syntax_analyzer.py:119-135 | an assignment whose ';' is at k consumes k + 1 tokens and writes the statement, assignment, chain and ';' lines |
| GrammarProperties.AssignmentDecidedByPrefix | syntax_analyzer.py:124-135 | whether a stream ends an assignment at k depends only on its first k + 1 tokens |
| GrammarProperties.AssignmentLooksNoFurther | syntax_analyzer.py:124-135 | an assignment ending at k never examines the token after the ';': whatever it is, the statement is accepted with the same lines |
| GrammarProperties.ParametersAreOptional | syntax_analyzer.py:104-109 | without the 'integer' keyword parse_parameters consumes and writes nothing; with it, it writes the parameter line and parses one identifier |
| GrammarProperties.BodyIsOptional | syntax_analyzer.py:111-113 | without '{' parse_body consumes and writes nothing |
| GrammarProperties.BodyClosingIgnored | syntax_analyzer.py:111-117 | after an assignment ending with ';', the token in the '}' position is never examined: replacing it does not change the body's run |
| GrammarProperties.DeclarationNeedsName | syntax_analyzer.py:94-96 | when the second token is not an identifier, the declaration fails at once with exactly its rule line and one error line naming that token |
| GrammarProperties.DeclarationIgnoresFirstToken | syntax_analyzer.py:91-92 | the token in the 'function' position is never examined |
| GrammarProperties.DeclarationIgnoresOpeningParenthesis | syntax_analyzer.py:98-99 | the token in the '(' position is never examined |
| GrammarProperties.DeclarationIgnoresClosingParenthesis | syntax_analyzer.py:100-102 | without parameters, the token in the ')' position is examined only as a possible 'integer' keyword |
| GrammarProperties.DeclarationIgnoresSkippedClosingParenthesis | syntax_analyzer.py:100-101 | after `integer` and a parameter name, the token in the ')' position is skipped unchecked: any token there gives the same run |
| GrammarProperties.OperatorFillsSkippedPosition | syntax_analyzer.py:128-133 | the token list of `function f ( integer x ) { x = a + ; }`, written out token by token, is accepted, because the '+' falls in the skipped position |
| GrammarProperties.SemicolonInSkippedPosition | syntax_analyzer.py:128-135 | the token list of `function f ( integer x ) { x = a ; }`, written out token by token, fails with "Expected ';'" naming the '}', because the ';' falls in the skipped position |
| GrammarInvariants.IdentifierBehaves | syntax_analyzer.py:82-88 | parse_identifier consumes a prefix of its stream and writes an error line only as its last line, exactly when it raises a syntax fault |
| GrammarInvariants.ExpressionBehaves | syntax_analyzer.py:137-155 | the expression chain consumes a prefix of its stream and never writes an error line |
| GrammarInvariants.ExpectSemicolonBehaves | syntax_analyzer.py:129-135 | the ';' check consumes a prefix and writes an error line only last, exactly on a syntax fault |
| GrammarInvariants.AssignBehaves | syntax_analyzer.py:124-135 | the same for the assignment part of a statement |
| GrammarInvariants.StatementBehaves | syntax_analyzer.py:119-135 | the same for parse_statement |
| GrammarInvariants.BodyBehaves | syntax_analyzer.py:111-117 | the same for parse_body |
| GrammarInvariants.ParametersBehave | syntax_analyzer.py:104-109 | the same for parse_parameters |
| GrammarInvariants.SignatureBehaves | syntax_analyzer.py:100-102 | the same for the parameters-and-body part of the declaration |
| GrammarInvariants.DeclarationBehaves | syntax_analyzer.py:78-102 | the whole parse consumes a prefix of the token list and, since syntax_error writes one line and raises, writes at most one error line, as its last line, exactly when it stops with a syntax fault: the first error wins |

## Left out

- `process_files` and the module-level driver (syntax_analyzer.py:158-175)
  open, read and write files. `Parsing.Analyze` models the part for one
  input (lines 163-167) on a string. It returns the lines instead of writing
  a file. Two lines are not modelled: the "Processing file" header (line
  161) and the "Parsing Error" line the driver writes when it catches an
  exception (line 169). Both depend only on the file name and the outcome.
- Output lines are `Output.Entry` values, not text. `Output.Render` gives
  the text of each line, and `Output.Message` gives the message each syntax
  error carries. The trailing newline of `write_output` is not modelled.
- `NoToken` stands for the `TypeError` Python raises when it unpacks a
  `None` current token. The text of that exception is not modelled.
- `str.isalpha`, `str.isdigit` and `str.isalnum` are Unicode-aware in Python.
  The model restricts them to ASCII letters and digits.
- `lexer.py` is not part of this model. It holds only constant
  declarations, a plain token record and an unfinished class with no
  methods.
- `Parsing.Parser.ParseSignature`, `Parsing.Parser.ParseAssign` and
  `Parsing.Parser.ExpectSemicolon` do not exist in the source. They are
  consecutive parts of `parse_function_declaration` (lines 100-102) and
  `parse_statement` (lines 124-135). Each was split out as a method of its
  own so that its proof stays small. Called in sequence, they do what
  `parse_function_declaration` and `parse_statement` do.
- Rat24F as a language has more than this analyzer implements. Among
  others: real numbers, two-character operators such as `<=`, identifiers
  containing `_`, more keywords and an end-of-input token. The code of
  `syntax_analyzer.py` has none of these, and the model follows the code.
