/** The output stream both the lexer and the parser write to (write_output). */
module Output {
  import opened Tokens

  /** The grammar rules the parser announces. */
  datatype Rule =
    | FunctionDeclarationRule
    | BodyRule
    | StatementRule
    | AssignRule
    | ExpressionRule
    | TermRule
    | FactorRule

  function RuleText(r: Rule): string
  {
    match r
    case FunctionDeclarationRule => "<Function Declaration> -> function <Identifier> ( <Parameters> ) <Body>"
    case BodyRule => "<Body> -> { <Statements> }"
    case StatementRule => "<Statement> -> <Assign>"
    case AssignRule => "<Assign> -> <Identifier> = <Expression> ;"
    case ExpressionRule => "<Expression> -> <Term> <Expression Prime>"
    case TermRule => "<Term> -> <Factor> <Term Prime>"
    case FactorRule => "<Factor> -> <Identifier>"
  }

  /** The three syntax errors, each with the token found instead. */
  datatype Complaint =
    | NotIdentifier(found: Token)
    | NotFunctionName(found: Token)
    | NotSemicolon(found: Token)

  function Found(t: Token): string
  {
    KindName(t.kind) + " Lexeme: " + t.lexeme
  }

  /** The exception message syntax_error is given. */
  function Message(c: Complaint): string
  {
    match c
    case NotIdentifier(t) => "Expected identifier, but found " + Found(t)
    case NotFunctionName(t) => "Expected function name (identifier), found " + Found(t)
    case NotSemicolon(t) => "Expected ';', but found " + Found(t)
  }

  /** One line of output, by the statement that writes it. */
  datatype Entry =
    | Emitted(token: Token)             // a token line, from the lexer or from the ';' match
    | Production(rule: Rule)            // a grammar rule applied
    | IdentifierMatched(lexeme: string) // parse_identifier succeeded
    | ParameterMatched(lexeme: string)  // parse_parameters saw 'integer'
    | ErrorLine(complaint: Complaint)   // syntax_error

  /** The text of the line, without its trailing newline. */
  function Render(e: Entry): string
  {
    match e
    case Emitted(t) => "Token: " + KindName(t.kind) + " Lexeme: " + t.lexeme
    case Production(rule) => RuleText(rule)
    case IdentifierMatched(lexeme) => "<Identifier> -> " + lexeme
    case ParameterMatched(lexeme) => "Parameter: " + lexeme
    case ErrorLine(c) => "Syntax Error: " + Message(c)
  }

  /** The output file, seen as the list of lines written to it so far. */
  class Sink {
    var lines: seq<Entry>

    constructor ()
      ensures lines == []
    {
      lines := [];
    }

    method Write(e: Entry)
      modifies this
      ensures lines == old(lines) + [e]
    {
      lines := lines + [e];
    }
  }
}
