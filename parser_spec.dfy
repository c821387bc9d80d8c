/**
 * What the Pratt parser computes, as functions over the token stream the
 * lexer produces. Index `k` is the position of `curToken` in the stream;
 * `peekToken` is at `k + 1`; past the stream's end the lexer only yields EOF.
 */
module ParserSpec {
  import opened Wrappers
  import opened Token
  import opened Lexing
  import opened Ast

  /** Binding powers; the numbers of the `Precedences` enumeration, `Lowest` first. */
  newtype Precedence = p: int | 1 <= p <= 7 witness 1

  const Lowest: Precedence := 1
  const Equals: Precedence := 2
  const LessGreater: Precedence := 3
  const Sum: Precedence := 4
  const Product: Precedence := 5
  const Prefix: Precedence := 6
  const Call: Precedence := 7

  /** The precedence table for operators that can continue an expression. */
  const PrecedencesHash: map<TokenType, Precedence> := map[
    Eq := Equals,
    NotEq := Equals,
    Lt := LessGreater,
    Gt := LessGreater,
    Plus := Sum,
    Minus := Sum,
    Slash := Product,
    Asterisk := Product
  ]

  /** A kind's precedence; kinds missing from the table are `Lowest`. */
  function PrecedenceOf(kind: TokenType): Precedence {
    if kind == Eq || kind == NotEq then Equals
    else if kind == Lt || kind == Gt then LessGreater
    else if kind == Plus || kind == Minus then Sum
    else if kind == Slash || kind == Asterisk then Product
    else Lowest
  }

  /** `PrecedenceOf` reads the table: its value for a kind is the table's, or `Lowest`. */
  lemma PrecedenceTable(kind: TokenType)
    ensures PrecedenceOf(kind) == if kind in PrecedencesHash then PrecedencesHash[kind] else Lowest
  {
  }

  /** The kinds with a registered prefix handler. */
  const PrefixKinds: set<TokenType> := {Ident, Int, Bang, Minus, True, False}

  /** Membership in `PrefixKinds`, written out. */
  predicate HasPrefixParseFn(kind: TokenType) {
    kind == Ident || kind == Int || kind == Bang || kind == Minus || kind == True || kind == False
  }

  lemma PrefixKindsTable(kind: TokenType)
    ensures HasPrefixParseFn(kind) <==> kind in PrefixKinds
  {
  }

  /** The kinds with a registered infix handler. */
  const InfixKinds: set<TokenType> := {Plus, Minus, Slash, Asterisk, Eq, NotEq, Lt, Gt}

  /** The fixed texts around the kinds named in the error messages. */
  const ExpectedText := "expected next token to be "
  const GotText := ", got "
  const InsteadText := " instead"
  const NoPrefixText := "no prefix parse function for "
  const FoundText := " found"

  /** One entry of the parser's error list; `Message` is the text recorded for it. */
  datatype ParseError = UnexpectedPeek(expected: TokenType, got: TokenType) | NoPrefixParseFn(kind: TokenType) {
    function Message(): string
    {
      match this
      case UnexpectedPeek(expected, got) =>
        ExpectedText + expected.Name() + GotText + got.Name() + InsteadText
      case NoPrefixParseFn(kind) => NoPrefixText + kind.Name() + FoundText
    }
  }

  /** A peek error's message names the expected kind and then the kind found. */
  lemma PeekMessageText(expected: TokenType, got: TokenType)
    ensures
      var m := UnexpectedPeek(expected, got).Message();
      var e := |ExpectedText| + |expected.Name()|;
      var g := e + |GotText|;
      && |m| == g + |got.Name()| + |InsteadText|
      && m[..|ExpectedText|] == ExpectedText && m[|ExpectedText|..e] == expected.Name()
      && m[e..g] == GotText && m[g..|m| - |InsteadText|] == got.Name() && m[|m| - |InsteadText|..] == InsteadText
  {
    FivePieces(ExpectedText, expected.Name(), GotText, got.Name(), InsteadText);
  }

  /** A missing prefix handler's message names the kind it was missing for. */
  lemma NoPrefixMessageText(kind: TokenType)
    ensures
      var m := NoPrefixParseFn(kind).Message();
      && |m| == |NoPrefixText| + |kind.Name()| + |FoundText|
      && m[..|NoPrefixText|] == NoPrefixText && m[|NoPrefixText|..|m| - |FoundText|] == kind.Name()
      && m[|m| - |FoundText|..] == FoundText
  {
  }

  /** The error list as the strings the parser exposes, in the order they were recorded. */
  function Messages(errors: seq<ParseError>): (m: seq<string>)
    ensures |m| == |errors| && forall i :: 0 <= i < |errors| ==> m[i] == errors[i].Message()
  {
    seq(|errors|, i requires 0 <= i < |errors| => errors[i].Message())
  }

  /** The decimal value of a string of digits. */
  function DecimalValue(digits: string): nat {
    if digits == [] then 0
    else 10 * DecimalValue(digits[..|digits| - 1]) + (digits[|digits| - 1] as int - '0' as int) % 10
  }

  /** `parseInt(literal, 10)`: the value of the literal's leading digits. */
  function ParseInt(literal: string): (v: nat)
    ensures (forall i :: 0 <= i < |literal| ==> IsDigit(literal[i])) ==> v == DecimalValue(literal)
  {
    assert literal[..|literal|] == literal;
    DecimalValue(literal[..ScanDigits(literal, 0)])
  }

  /** A parse result: the value, the index of `curToken` afterwards, and the error list. */
  datatype Parsed<T> = Parsed(value: T, next: nat, errors: seq<ParseError>)

  /** Either the parse returns, or the source's skip-to-semicolon loop never ends. */
  datatype Outcome<T> = Returns(result: Parsed<T>) | Loops

  /** How many tokens of the stream are left from index `k`. */
  function Rem(toks: seq<Token>, k: nat): nat {
    if k < |toks| then |toks| - k else 0
  }

  /** `expectPeek(t)`: advance when the next token has kind `t`, else record an error. */
  function ExpectPeek(toks: seq<Token>, k: nat, errors: seq<ParseError>, t: TokenType): Parsed<bool> {
    var peek := At(toks, k + 1);
    if peek.kind == t then Parsed(true, k + 1, errors)
    else Parsed(false, k, errors + [UnexpectedPeek(t, peek.kind)])
  }

  /** The expression a literal or identifier token stands for. */
  function Leaf(t: Token): Expression {
    match t.kind
    case Ident => IdentifierExpression(Identifier(t, t.literal))
    case Int => IntegerLiteral(t, ParseInt(t.literal))
    case _ => Boolean(t, t.kind == True)
  }

  /**
   * A leaf prints as its token's text and keeps its token: an identifier is named
   * by the text, an integer of digits has their decimal value, and a boolean holds
   * exactly when its token is `TRUE`.
   */
  lemma LeafText(t: Token)
    ensures Leaf(t).TokenLiteral() == t.literal && Leaf(t).String() == t.literal
    ensures t.kind == Ident ==> Leaf(t).IdentifierExpression? && Leaf(t).id.token == t && Leaf(t).id.value == t.literal
    ensures t.kind == Int ==> Leaf(t).IntegerLiteral? && Leaf(t).token == t
    ensures t.kind == Int && (forall i :: 0 <= i < |t.literal| ==> IsDigit(t.literal[i])) ==>
      Leaf(t).IntegerLiteral? && Leaf(t).intValue == DecimalValue(t.literal)
    ensures t.kind != Ident && t.kind != Int ==> Leaf(t).Boolean? && Leaf(t).token == t && (Leaf(t).boolValue <==> t.kind == True)
  {
  }

  /** `parseExpression(precedence)` with `curToken` at index `k`. */
  function ParseExpression(toks: seq<Token>, k: nat, precedence: Precedence, errors: seq<ParseError>)
    : (r: Parsed<Option<Expression>>)
    ensures r.next >= k
    decreases Rem(toks, k), 2
  {
    var t := At(toks, k);
    if t.kind == Bang || t.kind == Minus then
      var left := ParsePrefixExpression(toks, k, errors);
      ParseInfixLoop(toks, left.next, precedence, left.value, left.errors)
    else if HasPrefixParseFn(t.kind) then
      ParseInfixLoop(toks, k, precedence, Leaf(t), errors)
    else
      Parsed(None, k, errors + [NoPrefixParseFn(t.kind)])
  }

  /** The loop of `parseExpression`: absorb operators that bind tighter than `precedence`. */
  function ParseInfixLoop(toks: seq<Token>, k: nat, precedence: Precedence, left: Expression, errors: seq<ParseError>)
    : (r: Parsed<Option<Expression>>)
    ensures r.next >= k && r.value.Some?
    decreases Rem(toks, k), 1
  {
    var peek := At(toks, k + 1);
    if peek.kind != Semicolon && precedence < PrecedenceOf(peek.kind) then
      var e := ParseInfixExpression(toks, k + 1, left, errors);
      ParseInfixLoop(toks, e.next, precedence, e.value, e.errors)
    else
      Parsed(Some(left), k, errors)
  }

  /** `parsePrefixExpression()`: the operator, then its operand at `Prefix` precedence. */
  function ParsePrefixExpression(toks: seq<Token>, k: nat, errors: seq<ParseError>): (r: Parsed<Expression>)
    ensures r.next > k
    decreases Rem(toks, k + 1), 3
  {
    var t := At(toks, k);
    var right := ParseExpression(toks, k + 1, Prefix, errors);
    Parsed(PrefixExpression(t, t.literal, right.value), right.next, right.errors)
  }

  /** `parseInfixExpression(left)`: the operator, then its right operand at the operator's own precedence. */
  function ParseInfixExpression(toks: seq<Token>, k: nat, left: Expression, errors: seq<ParseError>)
    : (r: Parsed<Expression>)
    ensures r.next > k
    decreases Rem(toks, k + 1), 3
  {
    var t := At(toks, k);
    var right := ParseExpression(toks, k + 1, PrecedenceOf(t.kind), errors);
    Parsed(InfixExpression(t, left, t.literal, right.value), right.next, right.errors)
  }

  /** Where the skip-to-semicolon loop stops, or `None` when no semicolon lies ahead. */
  function SkipToSemicolon(toks: seq<Token>, j: nat): (r: Option<nat>)
    ensures r.Some? ==> r.value >= j && At(toks, r.value).kind == Semicolon
    decreases Rem(toks, j)
  {
    if At(toks, j).kind == Semicolon then Some(j)
    else if j >= |toks| then None
    else SkipToSemicolon(toks, j + 1)
  }

  /** `parseLetStatement()`: `let`, an identifier, `=`, then skip to the next semicolon. */
  function ParseLetStatement(toks: seq<Token>, k: nat, errors: seq<ParseError>): Outcome<Option<Statement>> {
    var token := At(toks, k);
    var ident := ExpectPeek(toks, k, errors, Ident);
    if !ident.value then Returns(Parsed(None, ident.next, ident.errors))
    else
      var name := Identifier(At(toks, ident.next), At(toks, ident.next).literal);
      var assign := ExpectPeek(toks, ident.next, ident.errors, Assign);
      if !assign.value then Returns(Parsed(None, assign.next, assign.errors))
      else
        match SkipToSemicolon(toks, assign.next)
        case None => Loops
        case Some(j) => Returns(Parsed(Some(LetStatement(token, Some(name), None)), j, assign.errors))
  }

  /** `parseReturnStatement()`: `return`, then skip to the next semicolon. */
  function ParseReturnStatement(toks: seq<Token>, k: nat, errors: seq<ParseError>): Outcome<Statement> {
    match SkipToSemicolon(toks, k + 1)
    case None => Loops
    case Some(j) => Returns(Parsed(ReturnStatement(At(toks, k)), j, errors))
  }

  /** `parseExpressionStatement()`: an expression and one optional semicolon. */
  function ParseExpressionStatement(toks: seq<Token>, k: nat, errors: seq<ParseError>): (r: Parsed<Statement>)
    ensures r.next >= k
  {
    var e := ParseExpression(toks, k, Lowest, errors);
    var stmt := ExpressionStatement(At(toks, k), e.value);
    if At(toks, e.next + 1).kind == Semicolon then Parsed(stmt, e.next + 1, e.errors)
    else Parsed(stmt, e.next, e.errors)
  }

  /** `parseStatement()`: dispatch on the kind of `curToken`. */
  function ParseStatement(toks: seq<Token>, k: nat, errors: seq<ParseError>): (r: Outcome<Option<Statement>>)
    ensures r.Returns? ==> r.result.next >= k
  {
    var kind := At(toks, k).kind;
    if kind == Let then ParseLetStatement(toks, k, errors)
    else if kind == Return then
      (match ParseReturnStatement(toks, k, errors)
       case Loops => Loops
       case Returns(Parsed(s, j, e)) => Returns(Parsed(Some(s), j, e)))
    else
      var r := ParseExpressionStatement(toks, k, errors);
      Returns(Parsed(Some(r.value), r.next, r.errors))
  }

  /** The loop of `parseProgram()` with `curToken` at index `k` and `statements` collected so far. */
  function ParseProgramFrom(toks: seq<Token>, k: nat, statements: seq<Statement>, errors: seq<ParseError>)
    : Outcome<seq<Statement>>
    decreases Rem(toks, k), 2
  {
    ProgramLoop(toks, k, statements, errors)
  }

  /** The loop's test: stop on EOF, else take one turn. */
  function ProgramLoop(toks: seq<Token>, k: nat, statements: seq<Statement>, errors: seq<ParseError>)
    : Outcome<seq<Statement>>
    decreases Rem(toks, k), 1
  {
    if At(toks, k).kind == Eof then Returns(Parsed(statements, k, errors))
    else ProgramTurn(toks, k, statements, errors)
  }

  /** One turn of that loop on a `curToken` other than EOF: parse a statement and keep it when there is one. */
  function ProgramTurn(toks: seq<Token>, k: nat, statements: seq<Statement>, errors: seq<ParseError>)
    : Outcome<seq<Statement>>
    requires At(toks, k).kind != Eof
    decreases Rem(toks, k), 0
  {
    match ParseStatement(toks, k, errors)
    case Loops => Loops
    case Returns(Parsed(s, j, e)) => ParseProgramFrom(toks, j + 1, Collect(statements, s), e)
  }

  /** The statements collected so far, with `s` appended when the statement parsed. */
  function Collect(statements: seq<Statement>, s: Option<Statement>): seq<Statement> {
    if s.Some? then statements + [s.value] else statements
  }

  /** Lexing and parsing a whole input, with a fresh lexer and parser. */
  function Parse(input: string): Outcome<Program> {
    match ParseProgramFrom(LexFrom(input, 0), 0, [], [])
    case Loops => Loops
    case Returns(Parsed(statements, k, errors)) => Returns(Parsed(Program(statements), k, errors))
  }

  /** On EOF the loop of `parseProgram` stops with what it has collected. */
  lemma ProgramEnd(toks: seq<Token>, k: nat, statements: seq<Statement>, errors: seq<ParseError>)
    requires At(toks, k).kind == Eof
    ensures ParseProgramFrom(toks, k, statements, errors) == Returns(Parsed(statements, k, errors))
  {
  }

  /** One turn of the infix loop: the operator at `k + 1` exists and is consumed with its right operand. */
  lemma InfixStep(toks: seq<Token>, k: nat, precedence: Precedence, left: Expression, errors: seq<ParseError>)
    requires At(toks, k + 1).kind != Semicolon && precedence < PrecedenceOf(At(toks, k + 1).kind)
    ensures k + 1 < |toks|
    ensures var e := ParseInfixExpression(toks, k + 1, left, errors);
      ParseInfixLoop(toks, k, precedence, left, errors)
      == ParseInfixLoop(toks, e.next, precedence, e.value, e.errors)
  {
  }

  /** After the prefix handler, `parseExpression` continues with the infix loop. */
  lemma PrefixStep(toks: seq<Token>, k0: nat, precedence: Precedence, errors0: seq<ParseError>,
                   left: Expression, k: nat, errors: seq<ParseError>)
    requires HasPrefixParseFn(At(toks, k0).kind)
    requires At(toks, k0).kind in {Bang, Minus} ==>
      Parsed(left, k, errors) == ParsePrefixExpression(toks, k0, errors0)
    requires At(toks, k0).kind !in {Bang, Minus} ==> left == Leaf(At(toks, k0)) && k == k0 && errors == errors0
    ensures ParseInfixLoop(toks, k, precedence, left, errors)
         == ParseExpression(toks, k0, precedence, errors0)
  {
  }

  /** Stepping over a token that is not a semicolon does not move the skip's target. */
  lemma SkipStep(toks: seq<Token>, k: nat)
    requires At(toks, k).kind != Semicolon && k < |toks|
    ensures Rem(toks, k + 1) < Rem(toks, k)
    ensures SkipToSemicolon(toks, k + 1) == SkipToSemicolon(toks, k)
  {
  }

  /** At an index where both tokens are EOF and the stream has ended, no semicolon lies ahead. */
  lemma NoSemicolonAhead(toks: seq<Token>, k: nat)
    requires |toks| <= k + 2 && At(toks, k).kind == Eof && At(toks, k + 1).kind == Eof
    ensures SkipToSemicolon(toks, k).None?
  {
    forall i | i >= k
      ensures At(toks, i).kind != Semicolon
    {
      if i >= k + 2 {
        assert At(toks, i) == Token(Eof, "");
      }
    }
  }

  /**
   * A statement that starts with neither `let` nor `return` is an expression
   * statement: the expression, and the semicolon after it when there is one.
   */
  lemma ExpressionStatementStep(toks: seq<Token>, k: nat, errors: seq<ParseError>, e: Expression, j: nat,
                                errors': seq<ParseError>)
    requires At(toks, k).kind != Let && At(toks, k).kind != Return
    requires ParseExpression(toks, k, Lowest, errors) == Parsed(Some(e), j, errors')
    ensures ParseStatement(toks, k, errors)
         == Returns(Parsed(Some(ExpressionStatement(At(toks, k), Some(e))),
                           if At(toks, j + 1).kind == Semicolon then j + 1 else j, errors'))
  {
    var r := ParseExpressionStatement(toks, k, errors);
    if At(toks, j + 1).kind == Semicolon {
      assert r == Parsed(ExpressionStatement(At(toks, k), Some(e)), j + 1, errors');
    } else {
      assert r == Parsed(ExpressionStatement(At(toks, k), Some(e)), j, errors');
    }
    StatementDispatch(toks, k, errors);
  }

  /** `parseStatement` on a token other than `let` and `return` is `parseExpressionStatement`. */
  lemma StatementDispatch(toks: seq<Token>, k: nat, errors: seq<ParseError>)
    requires At(toks, k).kind != Let && At(toks, k).kind != Return
    ensures var r := ParseExpressionStatement(toks, k, errors);
      ParseStatement(toks, k, errors) == Returns(Parsed(Some(r.value), r.next, r.errors))
  {
  }

  /** A turn of the program loop on a token other than EOF. */
  lemma ProgramStep(toks: seq<Token>, k: nat, statements: seq<Statement>, errors: seq<ParseError>)
    requires At(toks, k).kind != Eof
    ensures ParseProgramFrom(toks, k, statements, errors) == ProgramTurn(toks, k, statements, errors)
  {
  }

  /** One turn of the program loop: a statement that parses is kept, and the loop goes on after its last token. */
  lemma StatementTurn(toks: seq<Token>, k: nat, statements: seq<Statement>, errors: seq<ParseError>,
                      s: Option<Statement>, j: nat, errors': seq<ParseError>)
    requires At(toks, k).kind != Eof
    requires ParseStatement(toks, k, errors) == Returns(Parsed(s, j, errors'))
    ensures j >= k
    ensures ParseProgramFrom(toks, k, statements, errors) == ParseProgramFrom(toks, j + 1, Collect(statements, s), errors')
  {
    ProgramStep(toks, k, statements, errors);
    assert ProgramTurn(toks, k, statements, errors) == ParseProgramFrom(toks, j + 1, Collect(statements, s), errors');
  }

  /** A statement whose skip finds no semicolon makes the whole program loop. */
  lemma StatementLoops(toks: seq<Token>, k: nat, statements: seq<Statement>, errors: seq<ParseError>)
    requires At(toks, k).kind != Eof && ParseStatement(toks, k, errors).Loops?
    ensures ParseProgramFrom(toks, k, statements, errors) == Loops
  {
    ProgramStep(toks, k, statements, errors);
  }

  /**
   * What one turn of the program loop does: a statement that loops makes the
   * program loop; one that returns at `j` leaves the rest of the loop, from
   * the token after it with the statement kept, with the same outcome.
   */
  ghost predicate TurnOutcome(toks: seq<Token>, k: nat, statements: seq<Statement>, errors: seq<ParseError>,
                              loops: bool, s: Option<Statement>, j: nat, errors': seq<ParseError>)
  {
    && (loops ==> ParseProgramFrom(toks, k, statements, errors) == Loops)
    && (!loops ==> j >= k && ParseProgramFrom(toks, k, statements, errors) == ParseProgramFrom(toks, j + 1, Collect(statements, s), errors'))
  }

  /** One turn of the program loop, for either outcome of the statement. */
  lemma StatementOutcome(toks: seq<Token>, k: nat, statements: seq<Statement>, errors: seq<ParseError>,
                         loops: bool, s: Option<Statement>, j: nat, errors': seq<ParseError>)
    requires At(toks, k).kind != Eof
    requires loops ==> ParseStatement(toks, k, errors) == Loops
    requires !loops ==> ParseStatement(toks, k, errors) == Returns(Parsed(s, j, errors'))
    ensures TurnOutcome(toks, k, statements, errors, loops, s, j, errors')
  {
    if loops {
      StatementLoops(toks, k, statements, errors);
    } else {
      StatementTurn(toks, k, statements, errors, s, j, errors');
    }
  }
}
