/** The Parser class of syntax_analyzer.py. Its state is the current token
    and the lexer's remaining token list; every parse method is proved to
    do exactly what the Grammar definition of its production says to the
    stream they form, to the output and to the outcome. */
module Parsing {
  import opened Tokens
  import opened Output
  import opened Lexing
  import opened Grammar

  class Parser {
    const lexer: Lexer
    const output: Sink
    var current: Option<Token>

    /** Once the current token is None the lexer has nothing left. */
    ghost predicate Valid()
      reads this, lexer
    {
      current.None? ==> lexer.tokens == []
    }

    /** The current token followed by the tokens not yet fetched. */
    ghost function Stream(): seq<Token>
      reads this, lexer
    {
      (if current.Some? then [current.value] else []) + lexer.tokens
    }

    constructor (lexer: Lexer, output: Sink)
      modifies lexer`tokens
      ensures this.lexer == lexer && this.output == output
      ensures Valid() && Stream() == old(lexer.tokens)
    {
      this.lexer := lexer;
      this.output := output;
      current := None;
      new;
      Advance();
    }

    /** The next token becomes current; the stream loses its front token. */
    method Advance()
      modifies this`current, lexer`tokens
      ensures Valid()
      ensures Stream() == old(lexer.tokens)
      ensures old(Valid()) ==> Stream() == Skip(old(Stream()))
    {
      current := lexer.GetNextToken();
    }

    /** Writes the error line; the outcome stands for the raised exception. */
    method SyntaxError(complaint: Complaint) returns (outcome: Outcome)
      modifies output
      ensures outcome == Raised(SyntaxFault(complaint))
      ensures output.lines == old(output.lines) + [ErrorLine(complaint)]
    {
      output.Write(ErrorLine(complaint));
      outcome := Raised(SyntaxFault(complaint));
    }

    method ParseIdentifier() returns (outcome: Outcome)
      requires Valid()
      modifies this`current, lexer`tokens, output
      ensures Valid()
      ensures outcome == Grammar.ParseIdentifier(old(Stream())).outcome
      ensures Stream() == Grammar.ParseIdentifier(old(Stream())).rest
      ensures output.lines == old(output.lines) + Grammar.ParseIdentifier(old(Stream())).trace
    {
      if current == None {
        return Raised(NoToken);
      }
      var t := current.value;
      if t.kind == Identifier {
        output.Write(IdentifierMatched(t.lexeme));
        Advance();
        outcome := Ok;
      } else {
        outcome := SyntaxError(NotIdentifier(t));
      }
    }

    method ParseFunctionDeclaration() returns (outcome: Outcome)
      requires Valid()
      modifies this`current, lexer`tokens, output
      ensures Valid()
      ensures outcome == Grammar.ParseFunctionDeclaration(old(Stream())).outcome
      ensures Stream() == Grammar.ParseFunctionDeclaration(old(Stream())).rest
      ensures output.lines == old(output.lines) + Grammar.ParseFunctionDeclaration(old(Stream())).trace
    {
      ghost var s0, out0 := Stream(), output.lines;
      output.Write(Production(FunctionDeclarationRule));
      Advance();  // the 'function' position is not checked
      if current == None {
        return Raised(NoToken);
      }
      var t := current.value;
      if t.kind != Identifier {
        outcome := SyntaxError(NotFunctionName(t));
        return;
      }
      ghost var s1 := Stream();
      var named := ParseIdentifier();
      assert Grammar.ParseIdentifier(s1) == Run(Ok, s1[1..], [IdentifierMatched(t.lexeme)]);
      ghost var lines := [Production(FunctionDeclarationRule), IdentifierMatched(t.lexeme)];
      AppendAssociates(out0, [Production(FunctionDeclarationRule)], [IdentifierMatched(t.lexeme)]);
      assert output.lines == out0 + lines;
      Advance();  // the '(' position is not checked
      ghost var s2 := Stream();
      assert s2 == Skip(s1[1..]);
      ghost var sig := Grammar.ParseSignature(s2);
      outcome := ParseSignature();
      NamedDeclaration(s0, t);
      AppendAssociates(out0, lines, sig.trace);
    }

    /** The rest of parse_function_declaration, from its parameters on. */
    method ParseSignature() returns (outcome: Outcome)
      requires Valid()
      modifies this`current, lexer`tokens, output
      ensures Valid()
      ensures outcome == Grammar.ParseSignature(old(Stream())).outcome
      ensures Stream() == Grammar.ParseSignature(old(Stream())).rest
      ensures output.lines == old(output.lines) + Grammar.ParseSignature(old(Stream())).trace
    {
      ghost var out0 := output.lines;
      ghost var params := Grammar.ParseParameters(Stream());
      outcome := ParseParameters();
      if outcome.Raised? {
        return;
      }
      Advance();  // the ')' position is not checked
      ghost var body := Grammar.ParseBody(Stream());
      outcome := ParseBody();
      AppendAssociates(out0, params.trace, body.trace);
    }

    method ParseParameters() returns (outcome: Outcome)
      requires Valid()
      modifies this`current, lexer`tokens, output
      ensures Valid()
      ensures outcome == Grammar.ParseParameters(old(Stream())).outcome
      ensures Stream() == Grammar.ParseParameters(old(Stream())).rest
      ensures output.lines == old(output.lines) + Grammar.ParseParameters(old(Stream())).trace
    {
      if current == None {
        return Raised(NoToken);
      }
      var t := current.value;
      if t == IntegerKeyword {
        ghost var out0 := output.lines;
        output.Write(ParameterMatched(t.lexeme));
        Advance();
        ghost var id := Grammar.ParseIdentifier(Stream());
        outcome := ParseIdentifier();
        AppendAssociates(out0, [ParameterMatched(t.lexeme)], id.trace);
      } else {
        outcome := Ok;
      }
    }

    method ParseBody() returns (outcome: Outcome)
      requires Valid()
      modifies this`current, lexer`tokens, output
      ensures Valid()
      ensures outcome == Grammar.ParseBody(old(Stream())).outcome
      ensures Stream() == Grammar.ParseBody(old(Stream())).rest
      ensures output.lines == old(output.lines) + Grammar.ParseBody(old(Stream())).trace
    {
      if current == None {
        return Raised(NoToken);
      }
      if current.value == LeftBrace {
        ghost var out0 := output.lines;
        output.Write(Production(BodyRule));
        Advance();
        ghost var st := Grammar.ParseStatement(Stream());
        outcome := ParseStatement();
        AppendAssociates(out0, [Production(BodyRule)], st.trace);
        if outcome.Raised? {
          return;
        }
        Advance();  // the '}' position is not checked
      } else {
        outcome := Ok;
      }
    }

    method ParseStatement() returns (outcome: Outcome)
      requires Valid()
      modifies this`current, lexer`tokens, output
      ensures Valid()
      ensures outcome == Grammar.ParseStatement(old(Stream())).outcome
      ensures Stream() == Grammar.ParseStatement(old(Stream())).rest
      ensures output.lines == old(output.lines) + Grammar.ParseStatement(old(Stream())).trace
    {
      if current == None {
        return Raised(NoToken);
      }
      if current.value.kind != Identifier {
        return Ok;
      }
      ghost var out0 := output.lines;
      output.Write(Production(StatementRule));
      Advance();
      ghost var a := Grammar.ParseAssign(Stream());
      outcome := ParseAssign();
      AppendAssociates(out0, [Production(StatementRule)], a.trace);
    }

    /** The part of parse_statement after its identifier. */
    method ParseAssign() returns (outcome: Outcome)
      requires Valid()
      modifies this`current, lexer`tokens, output
      ensures Valid()
      ensures outcome == Grammar.ParseAssign(old(Stream())).outcome
      ensures Stream() == Grammar.ParseAssign(old(Stream())).rest
      ensures output.lines == old(output.lines) + Grammar.ParseAssign(old(Stream())).trace
    {
      if current == None {
        return Raised(NoToken);
      }
      if current.value != Assignment {
        return Ok;
      }
      ghost var out0 := output.lines;
      output.Write(Production(AssignRule));
      Advance();
      ghost var e := Grammar.ParseExpression(Stream());
      outcome := ParseExpression();
      AppendAssociates(out0, [Production(AssignRule)], e.trace);
      if outcome.Raised? {
        return;
      }
      ghost var tail := Grammar.ExpectSemicolon(Stream());
      outcome := ExpectSemicolon();
      AppendAssociates(out0, [Production(AssignRule)] + e.trace, tail.trace);
    }

    /** The end of parse_statement: one token is skipped unchecked and the
        next one must be ';'. */
    method ExpectSemicolon() returns (outcome: Outcome)
      requires Valid()
      modifies this`current, lexer`tokens, output
      ensures Valid()
      ensures outcome == Grammar.ExpectSemicolon(old(Stream())).outcome
      ensures Stream() == Grammar.ExpectSemicolon(old(Stream())).rest
      ensures output.lines == old(output.lines) + Grammar.ExpectSemicolon(old(Stream())).trace
    {
      Advance();  // one token after the expression is not checked
      if current == None {
        return Raised(NoToken);
      }
      var t := current.value;
      if t == Semicolon {
        output.Write(Emitted(t));
        Advance();
        outcome := Ok;
      } else {
        outcome := SyntaxError(NotSemicolon(t));
      }
    }

    method ParseExpression() returns (outcome: Outcome)
      requires Valid()
      modifies this`current, lexer`tokens, output
      ensures Valid()
      ensures outcome == Grammar.ParseExpression(old(Stream())).outcome
      ensures Stream() == Grammar.ParseExpression(old(Stream())).rest
      ensures output.lines == old(output.lines) + Grammar.ParseExpression(old(Stream())).trace
    {
      if current == None {
        return Raised(NoToken);
      }
      if current.value.kind == Identifier {
        output.Write(Production(ExpressionRule));
        Advance();
        outcome := ParseTerm();
      } else {
        outcome := Ok;
      }
    }

    method ParseTerm() returns (outcome: Outcome)
      requires Valid()
      modifies this`current, lexer`tokens, output
      ensures Valid()
      ensures outcome == Grammar.ParseTerm(old(Stream())).outcome
      ensures Stream() == Grammar.ParseTerm(old(Stream())).rest
      ensures output.lines == old(output.lines) + Grammar.ParseTerm(old(Stream())).trace
    {
      if current == None {
        return Raised(NoToken);
      }
      if current.value.kind == Identifier {
        output.Write(Production(TermRule));
        Advance();
        outcome := ParseFactor();
      } else {
        outcome := Ok;
      }
    }

    method ParseFactor() returns (outcome: Outcome)
      requires Valid()
      modifies this`current, lexer`tokens, output
      ensures Valid()
      ensures outcome == Grammar.ParseFactor(old(Stream())).outcome
      ensures Stream() == Grammar.ParseFactor(old(Stream())).rest
      ensures output.lines == old(output.lines) + Grammar.ParseFactor(old(Stream())).trace
    {
      if current == None {
        return Raised(NoToken);
      }
      if current.value.kind == Identifier {
        output.Write(Production(FactorRule));
        Advance();
      }
      outcome := Ok;
    }
  }

  /** One input as the driver processes it, without the files: the lexer
      writes its token lines, then the parse of a function declaration
      writes its lines and ends with the outcome the driver catches. */
  method Analyze(input: string) returns (outcome: Outcome, lines: seq<Entry>)
    ensures outcome == Grammar.ParseFunctionDeclaration(Lex(input)).outcome
    ensures lines == Echo(Lex(input)) + Grammar.ParseFunctionDeclaration(Lex(input)).trace
  {
    var output := new Sink();
    var lexer := new Lexer(input, output);
    assert output.lines == Echo(Lex(input));
    var parser := new Parser(lexer, output);
    assert parser.Stream() == Lex(input) && output.lines == Echo(Lex(input));
    outcome := parser.ParseFunctionDeclaration();
    lines := output.lines;
  }
}
