/** What the token list of LexFrom promises about the input it came from. */
module LexingProperties {
  import opened Tokens
  import opened Lexing

  /** The input with every blank, tab and newline removed. */
  function Squeeze(s: string): string
  {
    if s == [] then [] else (if IsWhitespace(s[0]) then [] else [s[0]]) + Squeeze(s[1..])
  }

  /** The lexemes of a token list, concatenated in order. */
  function Spell(ts: seq<Token>): string
  {
    if ts == [] then [] else ts[0].lexeme + Spell(ts[1..])
  }

  lemma {:induction false} SqueezeKeepsRun(s: string, i: nat, j: nat)
    requires i <= j <= |s|
    requires forall k :: i <= k < j ==> !IsWhitespace(s[k])
    ensures Squeeze(s[i..]) == s[i..j] + Squeeze(s[j..])
    decreases j - i
  {
    if i < j {
      assert s[i..][1..] == s[i + 1..];
      SqueezeKeepsRun(s, i + 1, j);
      assert s[i..j] == [s[i]] + s[i + 1..j];
    }
  }

  /** Every non-whitespace character from i on lands in exactly one lexeme,
      in order, and no whitespace character does. */
  lemma {:induction false} LexemesRebuildInput(s: string, i: nat)
    requires i <= |s|
    ensures Spell(LexFrom(s, i)) == Squeeze(s[i..])
    decreases |s| - i
  {
    if i < |s| {
      assert s[i..][1..] == s[i + 1..];
      if IsWhitespace(s[i]) {
        LexemesRebuildInput(s, i + 1);
      } else {
        var r := Scan(s, i);
        assert forall k :: i <= k < r.end ==> !IsWhitespace(s[k]) by {
          forall k | i <= k < r.end ensures !IsWhitespace(s[k]) {
            assert s[k] == r.token.lexeme[k - i];
            assert WellFormed(r.token);
          }
        }
        SqueezeKeepsRun(s, i, r.end);
        LexemesRebuildInput(s, r.end);
        assert ([r.token] + LexFrom(s, r.end))[1..] == LexFrom(s, r.end);
      }
    }
  }

  lemma LexRebuildsInput(s: string)
    ensures Spell(Lex(s)) == Squeeze(s)
  {
    LexemesRebuildInput(s, 0);
    assert s[0..] == s;
  }

  /** Every token is of the shape its kind promises. */
  lemma {:induction false} LexTokensWellFormed(s: string, i: nat)
    requires i <= |s|
    ensures forall t :: t in LexFrom(s, i) ==> WellFormed(t)
    decreases |s| - i
  {
    if i < |s| {
      if IsWhitespace(s[i]) {
        LexTokensWellFormed(s, i + 1);
      } else {
        LexTokensWellFormed(s, Scan(s, i).end);
      }
    }
  }

  /** The start position of each token LexFrom(s, i) emits. */
  ghost function StartsFrom(s: string, i: nat): seq<nat>
    requires i <= |s|
    decreases |s| - i
  {
    if i == |s| then []
    else if IsWhitespace(s[i]) then StartsFrom(s, i + 1)
    else [i] + StartsFrom(s, Scan(s, i).end)
  }

  /** Token t is the text at p, and a word or number there is maximal. */
  predicate Located(s: string, p: nat, t: Token)
  {
    && p + |t.lexeme| <= |s|
    && s[p..p + |t.lexeme|] == t.lexeme
    && Maximal(s, p + |t.lexeme|, t)
  }

  /** Token ts[k] starts at ps[k], at or after i, is located there, and
      ends before the next one starts. */
  predicate Placed(s: string, i: nat, ps: seq<nat>, ts: seq<Token>)
  {
    && |ps| == |ts|
    && (forall k :: 0 <= k < |ts| ==> i <= ps[k] && Located(s, ps[k], ts[k]))
    && (forall k :: 0 <= k < |ts| - 1 ==> ps[k] + |ts[k].lexeme| <= ps[k + 1])
  }

  /** A token located at i, ending where the placed tokens may start,
      goes in front of them. */
  lemma PlacedCons(s: string, i: nat, t: Token, ps: seq<nat>, ts: seq<Token>)
    requires Located(s, i, t) && Placed(s, i + |t.lexeme|, ps, ts)
    ensures Placed(s, i, [i] + ps, [t] + ts)
  {
    assert forall k :: 1 <= k < |ts| + 1 ==> ([i] + ps)[k] == ps[k - 1] && ([t] + ts)[k] == ts[k - 1];
  }

  /** Each token is found at its start position, maximal, and the tokens
      occupy disjoint, increasing stretches of the input. */
  lemma {:induction false} LexTokensLocated(s: string, i: nat)
    requires i <= |s|
    ensures Placed(s, i, StartsFrom(s, i), LexFrom(s, i))
    decreases |s| - i
  {
    if i < |s| {
      if IsWhitespace(s[i]) {
        LexTokensLocated(s, i + 1);
      } else {
        var r := Scan(s, i);
        LexTokensLocated(s, r.end);
        PlacedCons(s, i, r.token, StartsFrom(s, r.end), LexFrom(s, r.end));
      }
    }
  }

  /** No real numbers: the point is a character of its own. */
  lemma NumbersHaveNoFraction()
    ensures Lex("3.14") == [Token(Number, "3"), Token(Mismatch, "."), Token(Number, "14")]
  {
    var s := "3.14";
    assert DigitRunEnd(s, 4) == 4;
    assert DigitRunEnd(s, 2) == 4 && s[2..4] == "14";
    assert Scan(s, 2) == Lexed(Token(Number, "14"), 4);
    assert LexFrom(s, 2) == [Token(Number, "14")];
    assert s[1] == '.' && Unclassified('.');
    assert Scan(s, 1) == Lexed(Token(Mismatch, "."), 2);
    assert LexFrom(s, 1) == [Token(Mismatch, ".")] + LexFrom(s, 2);
    assert DigitRunEnd(s, 0) == 1 && s[0..1] == "3";
    assert Scan(s, 0) == Lexed(Token(Number, "3"), 1);
  }

  /** No two-character operators. */
  lemma OperatorsAreSingleCharacters()
    ensures Lex("<=") == [Token(Operator, "<"), Token(Operator, "=")]
  {
  }

  /** An underscore is not a letter: it splits a word. */
  lemma UnderscoreIsMismatch()
    ensures Lex("x_y") == [Token(Identifier, "x"), Token(Mismatch, "_"), Token(Identifier, "y")]
  {
    var s := "x_y";
    UnderscoreTail();
    assert AlnumRunEnd(s, 0) == 1 && s[0..1] == "x" && "x" !in Keywords;
    assert Scan(s, 0) == Lexed(Token(Identifier, "x"), 1);
  }

  /** The underscore is a token of its own, and so is what follows it. */
  lemma UnderscoreTail()
    ensures LexFrom("x_y", 1) == [Token(Mismatch, "_"), Token(Identifier, "y")]
  {
    var s := "x_y";
    assert AlnumRunEnd(s, 3) == 3;
    assert AlnumRunEnd(s, 2) == 3 && s[2..3] == "y" && "y" !in Keywords;
    assert Scan(s, 2) == Lexed(Token(Identifier, "y"), 3);
    assert LexFrom(s, 2) == [Token(Identifier, "y")];
    assert s[1] == '_' && Unclassified('_');
    assert Scan(s, 1) == Lexed(Token(Mismatch, "_"), 2);
  }
}
