/** The lexer of syntax_analyzer.py: a reference definition of the token list
    it produces (LexFrom), and the Lexer class whose tokenize loop is proved
    to produce exactly that list. */
module Lexing {
  import opened Tokens
  import opened Output

  /** End of the maximal run of letters and digits starting at i. */
  function AlnumRunEnd(s: string, i: nat): (j: nat)
    requires i <= |s|
    ensures i <= j <= |s|
    ensures forall k :: i <= k < j ==> IsAlnum(s[k])
    ensures j == |s| || !IsAlnum(s[j])
    decreases |s| - i
  {
    if i < |s| && IsAlnum(s[i]) then AlnumRunEnd(s, i + 1) else i
  }

  /** End of the maximal run of digits starting at i. */
  function DigitRunEnd(s: string, i: nat): (j: nat)
    requires i <= |s|
    ensures i <= j <= |s|
    ensures forall k :: i <= k < j ==> IsDigit(s[k])
    ensures j == |s| || !IsDigit(s[j])
    decreases |s| - i
  {
    if i < |s| && IsDigit(s[i]) then DigitRunEnd(s, i + 1) else i
  }

  /** A token together with the position just after its lexeme. */
  datatype Lexed = Lexed(token: Token, end: nat)

  /** A word or a number cannot be extended by the character at `end`. */
  predicate Maximal(s: string, end: nat, t: Token)
    requires end <= |s|
  {
    && (t.kind == Keyword || t.kind == Identifier ==> end == |s| || !IsAlnum(s[end]))
    && (t.kind == Number ==> end == |s| || !IsDigit(s[end]))
  }

  /** The token the dispatch of one loop iteration emits for a
      non-whitespace character at i, and where the cursor ends up. */
  function Scan(s: string, i: nat): (r: Lexed)
    requires i < |s| && !IsWhitespace(s[i])
    ensures i < r.end <= |s|
    ensures r.token.lexeme == s[i..r.end]
    ensures WellFormed(r.token)
    ensures Maximal(s, r.end, r.token)
  {
    var c := s[i];
    if IsAlpha(c) then
      var j := AlnumRunEnd(s, i);
      Lexed(Token(Classify(s[i..j]), s[i..j]), j)
    else if IsDigit(c) then
      var j := DigitRunEnd(s, i);
      Lexed(Token(Number, s[i..j]), j)
    else if c in Operators then
      Lexed(Token(Operator, [c]), i + 1)
    else if c in Separators then
      Lexed(Token(Separator, [c]), i + 1)
    else
      Lexed(Token(Mismatch, [c]), i + 1)
  }

  /** The tokens the loop appends when it starts with the cursor at i. */
  function LexFrom(s: string, i: nat): (ts: seq<Token>)
    requires i <= |s|
    ensures |ts| <= |s| - i
    decreases |s| - i
  {
    if i == |s| then []
    else if IsWhitespace(s[i]) then LexFrom(s, i + 1)
    else
      var r := Scan(s, i);
      [r.token] + LexFrom(s, r.end)
  }

  /** The token list of a whole input. */
  function Lex(s: string): seq<Token>
  {
    LexFrom(s, 0)
  }

  /** The token lines the lexer writes for the tokens it emits. */
  function Echo(ts: seq<Token>): seq<Entry>
  {
    seq(|ts|, k requires 0 <= k < |ts| => Emitted(ts[k]))
  }

  lemma AppendAssociates<T>(a: seq<T>, b: seq<T>, c: seq<T>)
    ensures (a + b) + c == a + (b + c)
  {
  }

  lemma EchoAppend(ts: seq<Token>, t: Token)
    ensures Echo(ts + [t]) == Echo(ts) + [Emitted(t)]
  {
  }

  /** One token emitted keeps the loop invariant of tokenize. */
  lemma EmitStep(s: string, i: nat, emitted: seq<Token>, t: Token, end: nat)
    requires i < |s| && !IsWhitespace(s[i]) && Scan(s, i) == Lexed(t, end)
    ensures emitted + LexFrom(s, i) == (emitted + [t]) + LexFrom(s, end)
  {
    assert LexFrom(s, i) == [t] + LexFrom(s, end);
  }

  class Lexer {
    const input: string
    const output: Sink
    var tokens: seq<Token>
    var pos: nat

    /** Creating a lexer tokenizes the whole input. */
    constructor (input: string, output: Sink)
      modifies output
      ensures this.input == input && this.output == output
      ensures pos == |input|
      ensures tokens == Lex(input)
      ensures output.lines == old(output.lines) + Echo(Lex(input))
    {
      this.input := input;
      this.output := output;
      tokens := [];
      pos := 0;
      new;
      Tokenize();
    }

    method Tokenize()
      requires pos <= |input|
      modifies this`tokens, this`pos, output
      ensures pos == |input|
      ensures tokens == old(tokens) + LexFrom(input, old(pos))
      ensures output.lines == old(output.lines) + Echo(LexFrom(input, old(pos)))
    {
      ghost var emitted: seq<Token> := [];
      while pos < |input|
        invariant old(pos) <= pos <= |input|
        invariant tokens == old(tokens) + emitted
        invariant output.lines == old(output.lines) + Echo(emitted)
        invariant emitted + LexFrom(input, pos) == LexFrom(input, old(pos))
        decreases |input| - pos
      {
        if IsWhitespace(input[pos]) {
          pos := pos + 1;
          continue;
        }
        ghost var start := pos;
        var t := ScanToken();
        tokens := tokens + [t];
        output.Write(Emitted(t));
        EmitStep(input, start, emitted, t, pos);
        EchoAppend(emitted, t);
        AppendAssociates(old(tokens), emitted, [t]);
        AppendAssociates(old(output.lines), Echo(emitted), [Emitted(t)]);
        emitted := emitted + [t];
      }
    }

    /** The character dispatch of one iteration of the tokenize loop, for a
        character that is not whitespace: the token it appends, with the
        cursor left just after its lexeme. */
    method ScanToken() returns (t: Token)
      requires pos < |input| && !IsWhitespace(input[pos])
      modifies this`pos
      ensures Lexed(t, pos) == Scan(input, old(pos))
    {
      var c := input[pos];
      if IsAlpha(c) {
        var start := pos;
        while pos < |input| && IsAlnum(input[pos])
          invariant start <= pos <= |input|
          invariant AlnumRunEnd(input, pos) == AlnumRunEnd(input, start)
          decreases |input| - pos
        {
          pos := pos + 1;
        }
        var lexeme := input[start..pos];
        t := Token(Classify(lexeme), lexeme);
      } else if IsDigit(c) {
        var start := pos;
        while pos < |input| && IsDigit(input[pos])
          invariant start <= pos <= |input|
          invariant DigitRunEnd(input, pos) == DigitRunEnd(input, start)
          decreases |input| - pos
        {
          pos := pos + 1;
        }
        t := Token(Number, input[start..pos]);
      } else if c in Operators {
        t := Token(Operator, [c]);
        pos := pos + 1;
      } else if c in Separators {
        t := Token(Separator, [c]);
        pos := pos + 1;
      } else {
        t := Token(Mismatch, [c]);
        pos := pos + 1;
      }
    }

    /** Removes and returns the front token, or None when none is left. */
    method GetNextToken() returns (t: Option<Token>)
      modifies this`tokens
      ensures old(tokens) == [] ==> t == None && tokens == []
      ensures old(tokens) != [] ==> t == Some(old(tokens)[0]) && tokens == old(tokens)[1..]
    {
      if tokens != [] {
        t := Some(tokens[0]);
        tokens := tokens[1..];
      } else {
        t := None;
      }
    }
  }
}
