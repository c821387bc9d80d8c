/**
 * The token model: the closed set of token kinds, the token record and the
 * keyword table with its lookup.
 */
module Token {

  /** The kinds of tokens (the members of the `Tokens` enumeration). */
  datatype TokenType =
    | Illegal | Eof
    | Ident | Int
    | Assign | Plus | Minus | Bang | Asterisk | Slash
    | Lt | Gt | Eq | NotEq
    | Comma | Semicolon | LParen | RParen | LBrace | RBrace
    | Function | Let | True | False | If | Else | Return
  {
    /** The string value of the enumeration member; this is what error messages print. */
    function Name(): string {
      match this
      case Illegal => "ILLEGAL"
      case Eof => "EOF"
      case Ident => "IDENT"
      case Int => "INT"
      case Assign => "="
      case Plus => "+"
      case Minus => "-"
      case Bang => "!"
      case Asterisk => "*"
      case Slash => "/"
      case Lt => "<"
      case Gt => ">"
      case Eq => "=="
      case NotEq => "!="
      case Comma => ","
      case Semicolon => ";"
      case LParen => "("
      case RParen => ")"
      case LBrace => "{"
      case RBrace => "}"
      case Function => "FUNCTION"
      case Let => "LET"
      case True => "TRUE"
      case False => "FALSE"
      case If => "IF"
      case Else => "ELSE"
      case Return => "RETURN"
    }

    /** The seven kinds that reserved words produce. */
    predicate IsKeyword() {
      this == Function || this == Let || this == True || this == False ||
      this == If || this == Else || this == Return
    }
  }

  /** A token: its kind (`Type` in the source) and its lexeme (`Literal`). */
  datatype Token = Token(kind: TokenType, literal: string)

  /** The keyword table. */
  const Keywords: map<string, TokenType> := map[
    "fn" := Function,
    "let" := Let,
    "true" := True,
    "false" := False,
    "if" := If,
    "else" := Else,
    "return" := Return
  ]

  /** Classifies an identifier lexeme: its keyword kind, or `Ident`. */
  function LookupIdent(ident: string): (r: TokenType)
    ensures r == Ident || r.IsKeyword()
    ensures r.IsKeyword() <==> ident in Keywords
    ensures ident in Keywords ==> r == Keywords[ident]
  {
    if ident in Keywords then Keywords[ident] else Ident
  }

  /** The reserved word of a keyword kind: the inverse of the keyword table. */
  function KeywordLexeme(kind: TokenType): (s: string)
    requires kind.IsKeyword()
    ensures s in Keywords && Keywords[s] == kind
  {
    match kind
    case Function => "fn"
    case Let => "let"
    case True => "true"
    case False => "false"
    case If => "if"
    case Else => "else"
    case Return => "return"
  }

  /** `LookupIdent` yields a keyword kind exactly for that keyword's reserved word. */
  lemma LookupIdentKeywordIff(ident: string, kind: TokenType)
    requires kind.IsKeyword()
    ensures LookupIdent(ident) == kind <==> ident == KeywordLexeme(kind)
  {
    if LookupIdent(ident) == kind {
      assert ident in Keywords;
    }
  }

  /** Distinct reserved words map to distinct kinds. */
  lemma KeywordsInjective(a: string, b: string)
    requires a in Keywords && b in Keywords && a != b
    ensures Keywords[a] != Keywords[b]
  {
  }

  /** The seven reserved words and their kinds. */
  lemma KeywordTable()
    ensures LookupIdent("fn") == Function
    ensures LookupIdent("let") == Let
    ensures LookupIdent("true") == True
    ensures LookupIdent("false") == False
    ensures LookupIdent("if") == If
    ensures LookupIdent("else") == Else
    ensures LookupIdent("return") == Return
  {
  }

  /** Ordinary names are identifiers; matching is exact and case-sensitive. */
  lemma NonKeywordsAreIdentifiers()
    ensures LookupIdent("five") == Ident
    ensures LookupIdent("add") == Ident
    ensures LookupIdent("x") == Ident
    ensures LookupIdent("Let") == Ident
    ensures LookupIdent("lets") == Ident
  {
  }
}
