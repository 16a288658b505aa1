/** Tokens and character classes of the Rat24F lexer (syntax_analyzer.py, Lexer.tokenize). */
module Tokens {

  datatype Option<+T> = None | Some(value: T)

  /** The six categories the lexer emits. There is no end-marker category. */
  datatype Kind = Keyword | Identifier | Number | Operator | Separator | Mismatch

  /** A token is the pair (kind, lexeme) the source appends to its token list. */
  datatype Token = Token(kind: Kind, lexeme: string)

  /** The category name as the source spells it in its output lines. */
  function KindName(k: Kind): string
  {
    match k
    case Keyword => "KEYWORD"
    case Identifier => "IDENTIFIER"
    case Number => "NUMBER"
    case Operator => "OPERATOR"
    case Separator => "SEPARATOR"
    case Mismatch => "MISMATCH"
  }

  // Character classes, restricted to ASCII.

  predicate IsWhitespace(c: char) { c == ' ' || c == '\t' || c == '\n' }

  predicate IsAlpha(c: char) { 'a' <= c <= 'z' || 'A' <= c <= 'Z' }

  predicate IsDigit(c: char) { '0' <= c <= '9' }

  predicate IsAlnum(c: char) { IsAlpha(c) || IsDigit(c) }

  const Keywords: set<string> := {"function", "integer", "if", "else", "while", "put"}

  const Operators: set<char> := {'+', '-', '=', '<', '>', '*', '/'}

  const Separators: set<char> := {'(', ')', '{', '}', ';'}

  /** The keyword/identifier decision for a word lexeme. */
  function Classify(lexeme: string): Kind
  {
    if lexeme in Keywords then Keyword else Identifier
  }

  /** A character that none of the lexer's branches before the last one accepts. */
  predicate Unclassified(c: char)
  {
    !IsWhitespace(c) && !IsAlpha(c) && !IsDigit(c) && c !in Operators && c !in Separators
  }

  /** Non-empty, starts with a letter, letters and digits only. */
  predicate IsWord(w: string)
  {
    |w| > 0 && IsAlpha(w[0]) && forall k :: 0 <= k < |w| ==> IsAlnum(w[k])
  }

  predicate IsDigits(w: string)
  {
    |w| > 0 && forall k :: 0 <= k < |w| ==> IsDigit(w[k])
  }

  /** What each kind of token the lexer emits looks like. */
  predicate WellFormed(t: Token)
  {
    match t.kind
    case Keyword => IsWord(t.lexeme) && t.lexeme in Keywords
    case Identifier => IsWord(t.lexeme) && t.lexeme !in Keywords
    case Number => IsDigits(t.lexeme)
    case Operator => |t.lexeme| == 1 && t.lexeme[0] in Operators
    case Separator => |t.lexeme| == 1 && t.lexeme[0] in Separators
    case Mismatch => |t.lexeme| == 1 && Unclassified(t.lexeme[0])
  }
}
