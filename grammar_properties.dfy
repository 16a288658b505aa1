/** What the productions of Grammar do to a token stream: how much each
    consumes, when each fails, and which tokens are never looked at. */
module GrammarProperties {
  import opened Tokens
  import opened Output
  import opened Grammar

  /** The lines the expression chain writes, in order. */
  const Chain := [Production(ExpressionRule), Production(TermRule), Production(FactorRule)]

  /** parse_identifier consumes exactly one IDENTIFIER token and fails on
      anything else without consuming it. */
  lemma IdentifierConsumesOne(s: seq<Token>)
    ensures ParseIdentifier(s).outcome == Ok <==> s != [] && s[0].kind == Identifier
    ensures s != [] && s[0].kind == Identifier ==>
      ParseIdentifier(s) == Run(Ok, s[1..], [IdentifierMatched(s[0].lexeme)])
    ensures s != [] && s[0].kind != Identifier ==>
      ParseIdentifier(s) == Run(Raised(SyntaxFault(NotIdentifier(s[0]))), s, [ErrorLine(NotIdentifier(s[0]))])
    ensures s == [] ==> ParseIdentifier(s).outcome == Raised(NoToken)
  {
  }

  /** The expression chain consumes the leading identifiers, at most three,
      writing one production line for each; it raises exactly when the
      stream runs out before a non-identifier or a third identifier. */
  lemma {:induction false} ExpressionConsumesIdentifiers(s: seq<Token>)
    ensures ParseExpression(s).rest == s[Min(3, IdentifierRun(s))..]
    ensures ParseExpression(s).trace == Chain[..Min(3, IdentifierRun(s))]
    ensures ParseExpression(s).outcome == Ok <==> !(IdentifierRun(s) < 3 && IdentifierRun(s) == |s|)
    ensures ParseExpression(s).outcome.Raised? ==> ParseExpression(s).outcome == Raised(NoToken)
  {
    var n := IdentifierRun(s);
    if s == [] || s[0].kind != Identifier {
      ExpressionOnNoIdentifier(s);
      assert n == 0 && s[0..] == s && Chain[..0] == [];
    } else {
      assert n == 1 + IdentifierRun(s[1..]);
      if |s| == 1 || s[1].kind != Identifier {
        assert n == 1 by {
          assert s[1..] == [] || s[1..][0].kind != Identifier;
        }
        ExpressionOnOneIdentifier(s);
        assert Chain[..1] == [Production(ExpressionRule)];
      } else {
        var s2 := s[1..][1..];
        assert IdentifierRun(s[1..]) == 1 + IdentifierRun(s2);
        if |s| == 2 || s[2].kind != Identifier {
          assert IdentifierRun(s2) == 0 by {
            assert s2 == [] || s2[0] == s[2];
          }
          ExpressionOnTwoIdentifiers(s);
          assert Chain[..2] == [Production(ExpressionRule), Production(TermRule)];
        } else {
          assert IdentifierRun(s2) >= 1 by {
            assert s2[0] == s[2];
          }
          ExpressionOnThreeIdentifiers(s);
          assert Chain[..3] == Chain;
        }
      }
    }
  }

  lemma ExpressionOnNoIdentifier(s: seq<Token>)
    requires s == [] || s[0].kind != Identifier
    ensures ParseExpression(s) == Run(if s == [] then Raised(NoToken) else Ok, s, [])
  {
  }

  lemma ExpressionOnOneIdentifier(s: seq<Token>)
    requires |s| >= 1 && s[0].kind == Identifier && (|s| == 1 || s[1].kind != Identifier)
    ensures ParseExpression(s) == Run(if |s| == 1 then Raised(NoToken) else Ok, s[1..], [Production(ExpressionRule)])
  {
  }

  lemma ExpressionOnTwoIdentifiers(s: seq<Token>)
    requires |s| >= 2 && s[0].kind == Identifier && s[1].kind == Identifier
    requires |s| == 2 || s[2].kind != Identifier
    ensures ParseExpression(s)
         == Run(if |s| == 2 then Raised(NoToken) else Ok, s[2..], [Production(ExpressionRule), Production(TermRule)])
  {
    assert s[1..][1..] == s[2..];
  }

  lemma ExpressionOnThreeIdentifiers(s: seq<Token>)
    requires |s| >= 3 && s[0].kind == Identifier && s[1].kind == Identifier && s[2].kind == Identifier
    ensures ParseExpression(s) == Run(Ok, s[3..], Chain)
  {
    assert s[1..][1..] == s[2..];
    assert s[2..][1..] == s[3..];
  }

  /** parse_statement on a non-identifier consumes and writes nothing. */
  lemma StatementNeedsIdentifier(s: seq<Token>)
    requires s != [] && s[0].kind != Identifier
    ensures ParseStatement(s) == Run(Ok, s, [])
  {
  }

  /** An identifier followed by a token other than '=' is the whole
      statement; an identifier followed by nothing fails on the missing
      token after its statement line. */
  lemma StatementWithoutAssignment(s: seq<Token>)
    requires s != [] && s[0].kind == Identifier && (|s| >= 2 ==> s[1] != Assignment)
    ensures |s| == 1 ==> ParseStatement(s) == Run(Raised(NoToken), [], [Production(StatementRule)])
    ensures |s| >= 2 ==> ParseStatement(s) == Run(Ok, s[1..], [Production(StatementRule)])
  {
  }

  /** An assignment `x = e` is followed by one token that is skipped
      unchecked; the token at k, after it, must be ';'. The statement raises
      a syntax fault naming the token at k when it is something else, and
      fails on the missing token when the stream is too short. */
  lemma AssignmentEndsAfterSkippedToken(s: seq<Token>)
    requires |s| >= 2 && s[0].kind == Identifier && s[1] == Assignment
    ensures var k := 3 + Min(3, IdentifierRun(s[2..]));
      && (ParseStatement(s).outcome == Ok <==> k < |s| && s[k] == Semicolon)
      && (ParseStatement(s).outcome == Raised(NoToken) <==> |s| <= k)
      && (k < |s| && s[k] == Semicolon ==> ParseStatement(s).rest == s[k + 1..])
      && (k < |s| && s[k] != Semicolon ==>
            ParseStatement(s).outcome == Raised(SyntaxFault(NotSemicolon(s[k]))) && ParseStatement(s).rest == s[k..])
  {
    var e := ParseExpression(s[2..]);
    ExpressionConsumesIdentifiers(s[2..]);
    var m := 2 + Min(3, IdentifierRun(s[2..]));
    assert s[1..][1..] == s[2..];
    assert e.outcome == Ok ==> m <= |s| && e.rest == s[m..];
    if e.outcome == Ok && m < |s| {
      assert Skip(e.rest) == s[m + 1..];
    }
  }

  /** parse_parameters is optional: without the 'integer' keyword it
      consumes nothing; with it, one identifier must follow. */
  lemma ParametersAreOptional(s: seq<Token>)
    requires s != []
    ensures s[0] != IntegerKeyword ==> ParseParameters(s) == Run(Ok, s, [])
    ensures s[0] == IntegerKeyword ==>
      && ParseParameters(s).outcome == ParseIdentifier(s[1..]).outcome
      && ParseParameters(s).rest == ParseIdentifier(s[1..]).rest
      && ParseParameters(s).trace == [ParameterMatched("integer")] + ParseIdentifier(s[1..]).trace
  {
  }

  /** parse_body is optional: without '{' it consumes nothing. */
  lemma BodyIsOptional(s: seq<Token>)
    requires s != [] && s[0] != LeftBrace
    ensures ParseBody(s) == Run(Ok, s, [])
  {
  }

  /** s starts with an assignment statement `x = e` whose ';' is at k,
      where AssignmentEndsAfterSkippedToken places it. */
  predicate AssignmentEndsAt(s: seq<Token>, k: nat)
  {
    && |s| >= 2 && s[0].kind == Identifier && s[1] == Assignment
    && k == 3 + Min(3, IdentifierRun(s[2..])) && k < |s| && s[k] == Semicolon
  }

  /** After an assignment statement whose ';' is at position k + 1 of the
      body, the body skips the next token, the one in the '}' position,
      without looking at it. */
  lemma BodyClosingIgnored(s: seq<Token>, u: Token, k: nat)
    requires s != [] && s[0] == LeftBrace && AssignmentEndsAt(s[1..], k) && k + 2 < |s|
    ensures ParseBody(s[..k + 2] + [u] + s[k + 3..]) == ParseBody(s)
  {
    var t := s[..k + 2] + [u] + s[k + 3..];
    SpliceAfterFirst(s, k + 2, u);
    AssignmentLooksNoFurther(s[1..], u, k);
    AssignmentAccepted(s[1..], k);
    assert Skip(s[1..][k + 1..]) == s[1..][k + 2..];
    BodiesAgree(s, t, [u] + s[1..][k + 2..]);
  }

  /** Replacing the token at n, seen from position 1 on. */
  lemma SpliceAfterFirst(s: seq<Token>, n: nat, u: Token)
    requires 1 <= n < |s|
    ensures var t := s[..n] + [u] + s[n + 1..];
      t != [] && t[0] == s[0] && t[1..] == s[1..][..n - 1] + [u] + s[1..][n..]
  {
    var t := s[..n] + [u] + s[n + 1..];
    assert t[1..] == s[1..n] + [u] + s[n + 1..];
  }

  /** Two bodies whose statements complete with the same lines, leaving
      streams that agree after the skipped token, are parsed alike. */
  lemma BodiesAgree(s: seq<Token>, t: seq<Token>, rest: seq<Token>)
    requires s != [] && t != [] && s[0] == LeftBrace && t[0] == LeftBrace
    requires ParseStatement(s[1..]).outcome == Ok
    requires ParseStatement(t[1..]) == Run(Ok, rest, ParseStatement(s[1..]).trace)
    requires Skip(rest) == Skip(ParseStatement(s[1..]).rest)
    ensures ParseBody(t) == ParseBody(s)
  {
  }

  /** An assignment statement whose ';' is at k reads nothing after it:
      whatever token u stands at k + 1, the statement is accepted with the
      lines AssignmentAccepted gives and leaves u in front. */
  lemma AssignmentLooksNoFurther(s: seq<Token>, u: Token, k: nat)
    requires AssignmentEndsAt(s, k) && k + 1 < |s|
    ensures ParseStatement(s[..k + 1] + [u] + s[k + 2..])
         == Run(Ok, [u] + s[k + 2..], [Production(StatementRule)] + ([Production(AssignRule)] + Chain[..k - 3] + [Emitted(Semicolon)]))
  {
    var t := s[..k + 1] + [u] + s[k + 2..];
    SplicePrefix(s, k + 1, u);
    AssignmentDecidedByPrefix(s, t, k);
    AssignmentAccepted(t, k);
    assert t[k + 1..] == [u] + s[k + 2..];
  }

  /** Replacing the token at n keeps what comes before it. */
  lemma SplicePrefix(s: seq<Token>, n: nat, u: Token)
    requires n < |s|
    ensures var t := s[..n] + [u] + s[n + 1..];
      |t| == |s| && t[..n] == s[..n] && t[n..] == [u] + s[n + 1..]
  {
  }

  /** Whether a stream starts with an assignment whose ';' is at k
      depends on its first k + 1 tokens only. */
  lemma AssignmentDecidedByPrefix(s: seq<Token>, s2: seq<Token>, k: nat)
    requires AssignmentEndsAt(s, k)
    requires k < |s2| && s2[..k + 1] == s[..k + 1]
    ensures AssignmentEndsAt(s2, k)
  {
    assert s2[0] == s[..k + 1][0] && s2[1] == s[..k + 1][1] && s2[k] == s[..k + 1][k];
    assert s2[2..][..k - 1] == s[2..][..k - 1] by {
      assert s2[2..][..k - 1] == s2[..k + 1][2..];
      assert s[2..][..k - 1] == s[..k + 1][2..];
    }
    IdentifierRunPrefix(s[2..], s2[2..], k - 1, 3);
  }

  /** Two streams that agree on their first n tokens, where n goes past the
      identifier run of the first capped at c, have the same capped run. */
  lemma {:induction false} IdentifierRunPrefix(s: seq<Token>, s2: seq<Token>, n: nat, c: nat)
    requires Min(c, IdentifierRun(s)) < n <= |s| && n <= |s2| && s[..n] == s2[..n]
    ensures Min(c, IdentifierRun(s2)) == Min(c, IdentifierRun(s))
    decreases c
  {
    assert s[0] == s[..n][0] == s2[..n][0] == s2[0];
    if c > 0 && s[0].kind == Identifier {
      assert IdentifierRun(s) == 1 + IdentifierRun(s[1..]);
      assert IdentifierRun(s2) == 1 + IdentifierRun(s2[1..]);
      assert s[1..][..n - 1] == s[..n][1..];
      assert s2[1..][..n - 1] == s2[..n][1..];
      IdentifierRunPrefix(s[1..], s2[1..], n - 1, c - 1);
    }
  }

  /** An assignment that ends with ';' at k: what it leaves and what it writes. */
  lemma AssignmentAccepted(s: seq<Token>, k: nat)
    requires AssignmentEndsAt(s, k)
    ensures ParseStatement(s)
         == Run(Ok, s[k + 1..], [Production(StatementRule)] + ([Production(AssignRule)] + Chain[..k - 3] + [Emitted(Semicolon)]))
  {
    SemicolonEndsAssignment(s, k);
  }

  /** The assignment part of AssignmentAccepted. */
  lemma SemicolonEndsAssignment(s: seq<Token>, k: nat)
    requires AssignmentEndsAt(s, k)
    ensures ParseAssign(s[1..]) == Run(Ok, s[k + 1..], [Production(AssignRule)] + Chain[..k - 3] + [Emitted(Semicolon)])
  {
    ExpressionConsumesIdentifiers(s[2..]);
    assert s[1..][1..] == s[2..];
    var e := ParseExpression(s[2..]);
    assert e.outcome == Ok && e.rest == s[k - 1..] && e.trace == Chain[..k - 3];
    assert Skip(e.rest) == s[k..];
    assert ExpectSemicolon(e.rest) == Run(Ok, s[k + 1..], [Emitted(Semicolon)]);
  }

  /** The declaration fails at once, with one error line, when the second
      token is not an identifier. */
  lemma DeclarationNeedsName(s: seq<Token>)
    requires |s| >= 2 && s[1].kind != Identifier
    ensures ParseFunctionDeclaration(s)
         == Run(Raised(SyntaxFault(NotFunctionName(s[1]))), s[1..],
                [Production(FunctionDeclarationRule), ErrorLine(NotFunctionName(s[1]))])
  {
  }

  /** The token in the 'function' position is never looked at. */
  lemma DeclarationIgnoresFirstToken(t: Token, u: Token, v: seq<Token>)
    ensures ParseFunctionDeclaration([t] + v) == ParseFunctionDeclaration([u] + v)
  {
    assert ([t] + v)[1..] == v && ([u] + v)[1..] == v;
  }

  /** The token in the '(' position is never looked at. */
  lemma DeclarationIgnoresOpeningParenthesis(s: seq<Token>, u: Token)
    requires |s| >= 3 && s[1].kind == Identifier
    ensures ParseFunctionDeclaration(s[..2] + [u] + s[3..]) == ParseFunctionDeclaration(s)
  {
    var s2 := s[..2] + [u] + s[3..];
    assert s2[1..][0] == s[1..][0];
    assert s2[1..][1..][1..] == s[1..][1..][1..] == s[3..];
  }

  /** Without a parameter, the token in the ')' position is the one right
      after the '(' position, and it is not looked at beyond checking that
      it is not the 'integer' keyword. */
  lemma DeclarationIgnoresClosingParenthesis(s: seq<Token>, u: Token)
    requires |s| >= 4 && s[1].kind == Identifier && s[3] != IntegerKeyword && u != IntegerKeyword
    ensures ParseFunctionDeclaration(s[..3] + [u] + s[4..]) == ParseFunctionDeclaration(s)
  {
    var s2 := s[..3] + [u] + s[4..];
    assert s2[1..][0] == s[1..][0];
    assert s2[1..][1..][1..] == [u] + s[4..];
    assert s[1..][1..][1..] == [s[3]] + s[4..];
    assert ([u] + s[4..])[1..] == s[4..] == ([s[3]] + s[4..])[1..];
  }

  /** With a parameter, the token in the ')' position, right after the
      parameter's name, is skipped without being looked at. */
  lemma DeclarationIgnoresSkippedClosingParenthesis(s: seq<Token>, u: Token)
    requires |s| >= 6 && s[1].kind == Identifier && s[3] == IntegerKeyword && s[4].kind == Identifier
    ensures ParseFunctionDeclaration(s[..5] + [u] + s[6..]) == ParseFunctionDeclaration(s)
  {
    var s2 := s[..5] + [u] + s[6..];
    assert Skip(s2) == s2[1..] && Skip(s2)[0] == s[1];
    assert Skip(Skip(s2)[1..]) == s2[3..];
    assert Skip(Skip(s)[1..]) == s[3..];
    assert s2[3..] == s[3..][..2] + [u] + s[3..][3..];
    NamedDeclaration(s, s[1]);
    NamedDeclaration(s2, s[1]);
    SignatureIgnoresSkippedToken(s[3..], u);
  }

  /** The signature with a parameter: the token after the parameter's name
      does not matter. */
  lemma SignatureIgnoresSkippedToken(p: seq<Token>, u: Token)
    requires |p| >= 3 && p[0] == IntegerKeyword && p[1].kind == Identifier
    ensures ParseSignature(p[..2] + [u] + p[3..]) == ParseSignature(p)
  {
    var p2 := p[..2] + [u] + p[3..];
    assert p2[0] == IntegerKeyword && p2[1..][0] == p[1];
    assert ParseParameters(p2) == Run(Ok, p2[2..], [ParameterMatched(p[0].lexeme), IdentifierMatched(p[1].lexeme)]);
    assert ParseParameters(p) == Run(Ok, p[2..], [ParameterMatched(p[0].lexeme), IdentifierMatched(p[1].lexeme)]);
    assert Skip(p2[2..]) == p[3..] == Skip(p[2..]);
  }

  // The tokens of `function f ( integer x ) { x = a + ; }`, as lexed.
  const Function := Token(Keyword, "function")
  const F := Token(Identifier, "f")
  const X := Token(Identifier, "x")
  const A := Token(Identifier, "a")
  const Plus := Token(Operator, "+")
  const LeftParen := Token(Separator, "(")
  const RightParen := Token(Separator, ")")
  const RightBrace := Token(Separator, "}")

  /** The operator after a one-identifier expression fills the skipped
      position, so `x = a + ;` is accepted as a statement. */
  lemma OperatorFillsSkippedPosition()
    ensures ParseFunctionDeclaration([Function, F, LeftParen] + [IntegerKeyword, X, RightParen, LeftBrace]
                                     + ([X, Assignment, A, Plus] + [Semicolon, RightBrace])).outcome == Ok
  {
    OneIdentifierAssignment(A, Plus, [Semicolon, RightBrace]);
    SignatureOutcome([IntegerKeyword, X, RightParen, LeftBrace], [X, Assignment, A, Plus] + [Semicolon, RightBrace]);
    NamedOutcome([Function, F, LeftParen], [IntegerKeyword, X, RightParen, LeftBrace],
                 [X, Assignment, A, Plus] + [Semicolon, RightBrace]);
  }

  /** The ';' of `x = a ;` falls in the skipped position, so the '}' after it
      is the token that must be ';'. */
  lemma SemicolonInSkippedPosition()
    ensures ParseFunctionDeclaration([Function, F, LeftParen] + [IntegerKeyword, X, RightParen, LeftBrace]
                                     + ([X, Assignment, A, Semicolon] + [RightBrace])).outcome
         == Raised(SyntaxFault(NotSemicolon(RightBrace)))
  {
    OneIdentifierAssignment(A, Semicolon, [RightBrace]);
    SignatureOutcome([IntegerKeyword, X, RightParen, LeftBrace], [X, Assignment, A, Semicolon] + [RightBrace]);
    NamedOutcome([Function, F, LeftParen], [IntegerKeyword, X, RightParen, LeftBrace],
                 [X, Assignment, A, Semicolon] + [RightBrace]);
  }

  /** `x = a` followed by the unchecked token `skipped`: the token after it
      decides the statement. */
  lemma OneIdentifierAssignment(a: Token, skipped: Token, rest: seq<Token>)
    requires a.kind == Identifier && skipped.kind != Identifier && rest != []
    ensures ParseStatement([X, Assignment, a, skipped] + rest).outcome
         == if rest[0] == Semicolon then Ok else Raised(SyntaxFault(NotSemicolon(rest[0])))
  {
    var s := [X, Assignment, a, skipped] + rest;
    assert s[2..][1..] == [skipped] + rest;
    assert IdentifierRun(s[2..]) == 1;
    AssignmentEndsAfterSkippedToken(s);
  }

  /** With a parameter and a body, the signature ends as the statement does. */
  lemma SignatureOutcome(head: seq<Token>, statement: seq<Token>)
    requires |head| == 4 && head[0] == IntegerKeyword && head[1].kind == Identifier && head[3] == LeftBrace
    ensures ParseSignature(head + statement).outcome == ParseStatement(statement).outcome
  {
    var s := head + statement;
    assert s[2..][1..] == s[3..] && s[3..][1..] == statement;
  }

  /** With a name, the declaration ends as its signature does. */
  lemma NamedOutcome(head: seq<Token>, mid: seq<Token>, rest: seq<Token>)
    requires |head| == 3 && head[1].kind == Identifier
    ensures ParseFunctionDeclaration(head + mid + rest).outcome == ParseSignature(mid + rest).outcome
  {
    var s := head + mid + rest;
    assert s[1..][1..][1..] == mid + rest;
  }
}
