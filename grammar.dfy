/** Reference definitions of the parser's productions (syntax_analyzer.py,
    class Parser). Each takes the remaining token stream — the current
    token followed by what the lexer still holds — and returns how the
    production ends, the stream it leaves and the lines it writes. */
module Grammar {
  import opened Tokens
  import opened Output

  /** Why a parse stopped: syntax_error's exception, or the exception from
      unpacking a current token that is None. */
  datatype Fault = SyntaxFault(complaint: Complaint) | NoToken

  datatype Outcome = Ok | Raised(fault: Fault)

  datatype Run = Run(outcome: Outcome, rest: seq<Token>, trace: seq<Entry>)

  const IntegerKeyword := Token(Keyword, "integer")
  const LeftBrace := Token(Separator, "{")
  const Assignment := Token(Operator, "=")
  const Semicolon := Token(Separator, ";")

  /** The stream after advance: the front token goes, an empty stream stays empty. */
  function Skip(s: seq<Token>): seq<Token>
  {
    if s == [] then [] else s[1..]
  }

  /** Runs r after the lines already written. */
  function After(lines: seq<Entry>, r: Run): Run
  {
    Run(r.outcome, r.rest, lines + r.trace)
  }

  function SyntaxError(s: seq<Token>, complaint: Complaint): Run
  {
    Run(Raised(SyntaxFault(complaint)), s, [ErrorLine(complaint)])
  }

  /** Unpacking the current token when the stream is empty. */
  function Unpacked(s: seq<Token>): Run
  {
    Run(Raised(NoToken), s, [])
  }

  /** Number of identifier tokens at the front of s. */
  function IdentifierRun(s: seq<Token>): (n: nat)
    ensures n <= |s|
  {
    if s != [] && s[0].kind == Identifier then 1 + IdentifierRun(s[1..]) else 0
  }

  function Min(a: nat, b: nat): nat
  {
    if a <= b then a else b
  }

  function ParseIdentifier(s: seq<Token>): Run
  {
    if s == [] then Unpacked(s)
    else if s[0].kind == Identifier then Run(Ok, s[1..], [IdentifierMatched(s[0].lexeme)])
    else SyntaxError(s, NotIdentifier(s[0]))
  }

  function ParseFactor(s: seq<Token>): Run
  {
    if s == [] then Unpacked(s)
    else if s[0].kind == Identifier then Run(Ok, s[1..], [Production(FactorRule)])
    else Run(Ok, s, [])
  }

  function ParseTerm(s: seq<Token>): Run
  {
    if s == [] then Unpacked(s)
    else if s[0].kind == Identifier then After([Production(TermRule)], ParseFactor(s[1..]))
    else Run(Ok, s, [])
  }

  function ParseExpression(s: seq<Token>): Run
  {
    if s == [] then Unpacked(s)
    else if s[0].kind == Identifier then After([Production(ExpressionRule)], ParseTerm(s[1..]))
    else Run(Ok, s, [])
  }

  /** parse_statement after its expression: one token is skipped unchecked
      and the next one must be ';'. */
  function ExpectSemicolon(s: seq<Token>): Run
  {
    var s2 := Skip(s);
    if s2 == [] then Unpacked(s2)
    else if s2[0] == Semicolon then Run(Ok, s2[1..], [Emitted(s2[0])])
    else SyntaxError(s2, NotSemicolon(s2[0]))
  }

  /** parse_statement after its identifier: '=' makes the statement an
      assignment; anything else ends it there. */
  function ParseAssign(s: seq<Token>): Run
  {
    if s == [] then Unpacked(s)
    else if s[0] != Assignment then Run(Ok, s, [])
    else
      var e := ParseExpression(s[1..]);
      var lines := [Production(AssignRule)];
      if e.outcome.Raised? then After(lines, e)
      else
        var tail := ExpectSemicolon(e.rest);
        After(lines + e.trace, tail)
  }

  function ParseStatement(s: seq<Token>): Run
  {
    if s == [] then Unpacked(s)
    else if s[0].kind != Identifier then Run(Ok, s, [])
    else
      var a := ParseAssign(s[1..]);
      After([Production(StatementRule)], a)
  }

  function ParseBody(s: seq<Token>): Run
  {
    if s == [] then Unpacked(s)
    else if s[0] == LeftBrace then
      var st := ParseStatement(s[1..]);
      var lines := [Production(BodyRule)];
      if st.outcome.Raised? then After(lines, st)
      else
        Run(Ok, Skip(st.rest), lines + st.trace)
    else Run(Ok, s, [])
  }

  function ParseParameters(s: seq<Token>): Run
  {
    if s == [] then Unpacked(s)
    else if s[0] == IntegerKeyword then
      var id := ParseIdentifier(s[1..]);
      After([ParameterMatched(s[0].lexeme)], id)
    else Run(Ok, s, [])
  }

  /** parse_function_declaration after the function name: the token in the
      '(' position has been skipped; the parameters, the token in the ')'
      position, skipped unchecked, and the body follow. */
  function ParseSignature(s: seq<Token>): Run
  {
    var params := ParseParameters(s);
    if params.outcome.Raised? then params
    else
      var s1 := Skip(params.rest);
      var body := ParseBody(s1);
      After(params.trace, body)
  }

  /** The entry production. The first token and the token in the '('
      position are skipped unchecked. Once the name is known to be an
      identifier, parse_identifier cannot fail, so its outcome is not consulted. */
  function ParseFunctionDeclaration(s: seq<Token>): Run
  {
    var head := [Production(FunctionDeclarationRule)];
    var s1 := Skip(s);
    if s1 == [] then After(head, Unpacked(s1))
    else if s1[0].kind != Identifier then After(head, SyntaxError(s1, NotFunctionName(s1[0])))
    else
      var name := ParseIdentifier(s1);
      var lines := head + name.trace;
      var s2 := Skip(name.rest);
      var sig := ParseSignature(s2);
      After(lines, sig)
  }

  /** The declaration whose name is an identifier: two lines, then the
      signature on what follows the token skipped after the name. */
  lemma NamedDeclaration(s: seq<Token>, name: Token)
    requires Skip(s) != [] && Skip(s)[0] == name && name.kind == Identifier
    ensures ParseFunctionDeclaration(s)
         == After([Production(FunctionDeclarationRule), IdentifierMatched(name.lexeme)], ParseSignature(Skip(Skip(s)[1..])))
  {
    var s1 := Skip(s);
    assert ParseIdentifier(s1) == Run(Ok, s1[1..], [IdentifierMatched(name.lexeme)]);
    assert [Production(FunctionDeclarationRule)] + [IdentifierMatched(name.lexeme)]
        == [Production(FunctionDeclarationRule), IdentifierMatched(name.lexeme)];
  }
}
