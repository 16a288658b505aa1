/** Two facts every production keeps: it only ever consumes a prefix of the
    stream, and since syntax_error writes one line and raises, a run writes
    at most one error line, last, exactly when it stops with a syntax fault. */
module GrammarInvariants {
  import opened Tokens
  import opened Output
  import opened Grammar
  import opened GrammarProperties

  predicate IsSuffix(r: seq<Token>, s: seq<Token>)
  {
    |r| <= |s| && r == s[|s| - |r|..]
  }

  predicate ErrorFree(lines: seq<Entry>)
  {
    forall k :: 0 <= k < |lines| ==> !lines[k].ErrorLine?
  }

  predicate FirstErrorWins(r: Run)
  {
    match r.outcome
    case Raised(SyntaxFault(m)) =>
      |r.trace| > 0 && r.trace[|r.trace| - 1] == ErrorLine(m) && ErrorFree(r.trace[..|r.trace| - 1])
    case _ => ErrorFree(r.trace)
  }

  /** r is a run of a production on stream s that keeps both facts. */
  predicate Behaves(s: seq<Token>, r: Run)
  {
    IsSuffix(r.rest, s) && FirstErrorWins(r)
  }

  lemma SuffixTransitive(a: seq<Token>, b: seq<Token>, c: seq<Token>)
    requires IsSuffix(a, b) && IsSuffix(b, c)
    ensures IsSuffix(a, c)
  {
    assert forall k :: 0 <= k < |a| ==> a[k] == c[|c| - |a| + k];
  }

  lemma ErrorFreeConcat(a: seq<Entry>, b: seq<Entry>)
    requires ErrorFree(a) && ErrorFree(b)
    ensures ErrorFree(a + b)
  {
  }

  lemma SkipIsSuffix(s: seq<Token>)
    ensures IsSuffix(Skip(s), s)
  {
  }

  /** Lines without errors written before a run keep it well behaved, on
      any stream the run's stream is a suffix of. */
  lemma AfterBehaves(lines: seq<Entry>, s0: seq<Token>, s: seq<Token>, r: Run)
    requires ErrorFree(lines) && IsSuffix(s, s0) && Behaves(s, r)
    ensures Behaves(s0, After(lines, r))
  {
    SuffixTransitive(r.rest, s, s0);
    var q := After(lines, r);
    if r.outcome.Raised? && r.outcome.fault.SyntaxFault? {
      assert q.trace[..|q.trace| - 1] == lines + r.trace[..|r.trace| - 1];
    }
  }

  lemma IdentifierBehaves(s: seq<Token>)
    ensures Behaves(s, ParseIdentifier(s))
  {
    if s == [] {
    } else if s[0].kind == Identifier {
      SkipIsSuffix(s);
      assert ErrorFree([IdentifierMatched(s[0].lexeme)]);
    } else {
      assert s[0..] == s;
      assert ParseIdentifier(s).trace[..0] == [];
    }
  }

  /** The expression chain never writes an error line. */
  lemma ExpressionBehaves(s: seq<Token>)
    ensures IsSuffix(ParseExpression(s).rest, s) && ErrorFree(ParseExpression(s).trace)
  {
    ExpressionConsumesIdentifiers(s);
    var m := Min(3, IdentifierRun(s));
    assert s[m..] == s[|s| - |s[m..]|..];
    assert forall k :: 0 <= k < m ==> Chain[..m][k] == Chain[k];
  }

  lemma ExpectSemicolonBehaves(s: seq<Token>)
    ensures Behaves(s, ExpectSemicolon(s))
  {
    var s2 := Skip(s);
    SkipIsSuffix(s);
    if s2 != [] {
      SkipIsSuffix(s2);
      SuffixTransitive(s2[1..], s2, s);
    }
  }

  lemma AssignBehaves(s: seq<Token>)
    ensures Behaves(s, ParseAssign(s))
  {
    if s != [] && s[0] == Assignment {
      var e := ParseExpression(s[1..]);
      if e.outcome.Raised? {
        AssignRaisedBehaves(s, e);
      } else {
        AssignCompletedBehaves(s, e);
      }
    }
  }

  /** An assignment whose expression ran out of tokens. */
  lemma AssignRaisedBehaves(s: seq<Token>, e: Run)
    requires s != [] && e == ParseExpression(s[1..])
    ensures Behaves(s, After([Production(AssignRule)], e))
  {
    SkipIsSuffix(s);
    ExpressionBehaves(s[1..]);
    AfterBehaves([Production(AssignRule)], s, s[1..], e);
  }

  /** An assignment whose expression completed: the ';' check follows. */
  lemma AssignCompletedBehaves(s: seq<Token>, e: Run)
    requires s != [] && e == ParseExpression(s[1..]) && e.outcome == Ok
    ensures Behaves(s, After([Production(AssignRule)] + e.trace, ExpectSemicolon(e.rest)))
  {
    SkipIsSuffix(s);
    ExpressionBehaves(s[1..]);
    SuffixTransitive(e.rest, s[1..], s);
    ExpectSemicolonBehaves(e.rest);
    ErrorFreeConcat([Production(AssignRule)], e.trace);
    AfterBehaves([Production(AssignRule)] + e.trace, s, e.rest, ExpectSemicolon(e.rest));
  }

  lemma StatementBehaves(s: seq<Token>)
    ensures Behaves(s, ParseStatement(s))
  {
    if s != [] && s[0].kind == Identifier {
      SkipIsSuffix(s);
      AssignBehaves(s[1..]);
      AfterBehaves([Production(StatementRule)], s, s[1..], ParseAssign(s[1..]));
    }
  }

  lemma BodyBehaves(s: seq<Token>)
    ensures Behaves(s, ParseBody(s))
  {
    if s != [] && s[0] == LeftBrace {
      var st := ParseStatement(s[1..]);
      SkipIsSuffix(s);
      StatementBehaves(s[1..]);
      if st.outcome.Raised? {
        AfterBehaves([Production(BodyRule)], s, s[1..], st);
      } else {
        SuffixTransitive(st.rest, s[1..], s);
        SkipIsSuffix(st.rest);
        SuffixTransitive(Skip(st.rest), st.rest, s);
        assert ErrorFree([Production(BodyRule)] + st.trace);
      }
    }
  }

  lemma ParametersBehave(s: seq<Token>)
    ensures Behaves(s, ParseParameters(s))
  {
    if s != [] && s[0] == IntegerKeyword {
      SkipIsSuffix(s);
      IdentifierBehaves(s[1..]);
      AfterBehaves([ParameterMatched(s[0].lexeme)], s, s[1..], ParseIdentifier(s[1..]));
    }
  }

  lemma SignatureBehaves(s: seq<Token>)
    ensures Behaves(s, ParseSignature(s))
  {
    var params := ParseParameters(s);
    ParametersBehave(s);
    if !params.outcome.Raised? {
      var s1 := Skip(params.rest);
      SkipIsSuffix(params.rest);
      SuffixTransitive(s1, params.rest, s);
      BodyBehaves(s1);
      AfterBehaves(params.trace, s, s1, ParseBody(s1));
    }
  }

  lemma UnnamedDeclarationBehaves(s: seq<Token>)
    requires Skip(s) == []
    ensures Behaves(s, ParseFunctionDeclaration(s))
  {
    SkipIsSuffix(s);
    AfterBehaves([Production(FunctionDeclarationRule)], s, Skip(s), Unpacked(Skip(s)));
  }

  lemma BadNameDeclarationBehaves(s: seq<Token>)
    requires Skip(s) != [] && Skip(s)[0].kind != Identifier
    ensures Behaves(s, ParseFunctionDeclaration(s))
  {
    var s1 := Skip(s);
    SkipIsSuffix(s);
    var fault := SyntaxError(s1, NotFunctionName(s1[0]));
    assert fault.trace[..0] == [];
    AfterBehaves([Production(FunctionDeclarationRule)], s, s1, fault);
  }

  /** The run after a well-formed name: two error-free lines, then the
      signature on a suffix of the stream. */
  lemma NamedDeclarationBehaves(s: seq<Token>, s2: seq<Token>, name: Token)
    requires IsSuffix(s2, s)
    ensures Behaves(s, After([Production(FunctionDeclarationRule), IdentifierMatched(name.lexeme)], ParseSignature(s2)))
  {
    SignatureBehaves(s2);
    AfterBehaves([Production(FunctionDeclarationRule), IdentifierMatched(name.lexeme)], s, s2, ParseSignature(s2));
  }

  /** The whole parse consumes a prefix of the token list and writes at
      most one error line, as its last line, exactly when it stops with a
      syntax fault. */
  lemma DeclarationBehaves(s: seq<Token>)
    ensures Behaves(s, ParseFunctionDeclaration(s))
  {
    if Skip(s) == [] {
      UnnamedDeclarationBehaves(s);
    } else if Skip(s)[0].kind != Identifier {
      BadNameDeclarationBehaves(s);
    } else {
      var s1 := Skip(s);
      var s2 := Skip(s1[1..]);
      SkipIsSuffix(s);
      SkipIsSuffix(s1);
      SkipIsSuffix(s1[1..]);
      SuffixTransitive(s2, s1[1..], s1);
      SuffixTransitive(s2, s1, s);
      NamedDeclarationBehaves(s, s2, s1[0]);
      NamedDeclaration(s, s1[0]);
    }
  }
}
