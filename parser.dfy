/**
 * The parser object: it owns a lexer, keeps the current and the next token,
 * and collects error messages while it builds the tree. Every method is
 * proved to compute what `ParserSpec` says it computes.
 */
module Parsing {
  import opened Wrappers
  import opened Token
  import opened Lexing
  import opened Ast
  import opened ParserSpec

  class Parser {
    const l: Lexer
    var errors: seq<ParseError>
    var curToken: Token
    var peekToken: Token

    /** The tokens the lexer yields from where it stood when the parser was built. */
    ghost const toks: seq<Token>
    /** The index of `curToken` in `toks`. */
    ghost var k: nat

    /** `curToken` and `peekToken` are tokens `k` and `k + 1`, and the lexer holds the rest. */
    ghost predicate Valid()
      reads this, l
    {
      && l.Valid()
      && curToken == At(toks, k)
      && peekToken == At(toks, k + 1)
      && Yields(l.input, l.position, toks, k + 2)
    }

    /** Reads the first two tokens. */
    constructor (l: Lexer)
      requires l.Valid()
      modifies l
      ensures Valid() && this.l == l && errors == [] && k == 0
      ensures toks == LexFrom(l.input, old(l.position))
    {
      ghost var all := LexFrom(l.input, l.position);
      YieldsLexFrom(l.input, l.position, all, 0);
      var p := l.position;
      var cur := l.NextToken();
      LexStep(l.input, p, all, 0, cur, l.position);
      p := l.position;
      var peek := l.NextToken();
      LexStep(l.input, p, all, 1, peek, l.position);
      this.l := l;
      errors := [];
      curToken := cur;
      peekToken := peek;
      toks := all;
      k := 0;
    }

    /** Moves one token ahead. */
    method NextToken()
      requires Valid()
      modifies this, l
      ensures Valid() && k == old(k) + 1 && errors == old(errors)
      ensures curToken == old(peekToken)
    {
      ghost var p := l.position;
      var tok := l.NextToken();
      LexStep(l.input, p, toks, k + 2, tok, l.position);
      curToken, peekToken, k := peekToken, tok, k + 1;
    }

    /** The error messages recorded so far: one per recorded error, oldest first. */
    function Errors(): (m: seq<string>)
      reads this
      ensures m == Messages(errors)
      ensures |m| == |errors| && forall i :: 0 <= i < |errors| ==> m[i] == errors[i].Message()
    {
      Messages(errors)
    }

    /** Whether the token at the stream's current index has kind `t`. */
    predicate CurTokenIs(t: TokenType)
      reads this, l
      ensures Valid() ==> (CurTokenIs(t) <==> At(toks, k).kind == t)
    {
      curToken.kind == t
    }

    /** Whether the token after the current one in the stream has kind `t`. */
    predicate PeekTokenIs(t: TokenType)
      reads this, l
      ensures Valid() ==> (PeekTokenIs(t) <==> At(toks, k + 1).kind == t)
    {
      peekToken.kind == t
    }

    /** Advances when the next token has kind `t`; otherwise records why not and stays. */
    method ExpectPeek(t: TokenType) returns (ok: bool)
      requires Valid()
      modifies this, l
      ensures Valid()
      ensures ok <==> old(peekToken).kind == t
      ensures ok ==> k == old(k) + 1 && curToken == old(peekToken) && errors == old(errors)
      ensures !ok ==> k == old(k) && errors == old(errors) + [UnexpectedPeek(t, old(peekToken).kind)]
      ensures ParserSpec.ExpectPeek(toks, old(k), old(errors), t) == Parsed(ok, k, errors)
    {
      if PeekTokenIs(t) {
        NextToken();
        return true;
      } else {
        PeekError(t);
        return false;
      }
    }

    method PeekError(t: TokenType)
      modifies `errors
      ensures errors == old(errors) + [UnexpectedPeek(t, peekToken.kind)]
    {
      errors := errors + [UnexpectedPeek(t, peekToken.kind)];
    }

    method NoPrefixParseFnError(t: TokenType)
      modifies `errors
      ensures errors == old(errors) + [NoPrefixParseFn(t)]
    {
      errors := errors + [NoPrefixParseFn(t)];
    }

    function PeekPrecedence(): (p: Precedence)
      reads this
      ensures p == PrecedenceOf(peekToken.kind)
    {
      PrecedenceTable(peekToken.kind);
      if peekToken.kind in PrecedencesHash then PrecedencesHash[peekToken.kind] else Lowest
    }

    function CurPrecedence(): (p: Precedence)
      reads this
      ensures p == PrecedenceOf(curToken.kind)
    {
      PrecedenceTable(curToken.kind);
      if curToken.kind in PrecedencesHash then PrecedencesHash[curToken.kind] else Lowest
    }

    /** An identifier node standing for the current token, and printing as its text. */
    method ParseIdentifier() returns (e: Expression)
      ensures e == IdentifierExpression(Identifier(curToken, curToken.literal))
      ensures e.TokenLiteral() == curToken.literal && e.String() == curToken.literal
      ensures curToken.kind == Ident ==> e == Leaf(curToken)
    {
      e := IdentifierExpression(Identifier(curToken, curToken.literal));
    }

    /** An integer node printing as the current token's text, valued as its digits read in base ten. */
    method ParseIntegerLiteral() returns (e: Expression)
      ensures e == IntegerLiteral(curToken, ParseInt(curToken.literal))
      ensures e.TokenLiteral() == curToken.literal && e.String() == curToken.literal
      ensures (forall i :: 0 <= i < |curToken.literal| ==> IsDigit(curToken.literal[i])) ==>
        e.intValue == DecimalValue(curToken.literal)
      ensures curToken.kind == Int ==> e == Leaf(curToken)
    {
      e := IntegerLiteral(curToken, ParseInt(curToken.literal));
    }

    /** A boolean node printing as the current token's text; for a keyword token, true exactly when that is `true`. */
    method ParseBoolean() returns (e: Expression)
      ensures e == Boolean(curToken, curToken.kind == True)
      ensures e.TokenLiteral() == curToken.literal && e.String() == curToken.literal
      ensures curToken.kind in {True, False} && curToken.kind == LookupIdent(curToken.literal) ==>
        (e.boolValue <==> curToken.literal == "true")
      ensures curToken.kind != Ident && curToken.kind != Int ==> e == Leaf(curToken)
    {
      LookupIdentKeywordIff(curToken.literal, True);
      e := Boolean(curToken, CurTokenIs(True));
    }

    /** Parses an expression whose operators bind tighter than `precedence`. */
    method ParseExpression(precedence: Precedence) returns (e: Option<Expression>)
      requires Valid()
      modifies this, l
      ensures Valid()
      ensures Parsed(e, k, errors) == ParserSpec.ParseExpression(toks, old(k), precedence, old(errors))
      decreases Rem(toks, k), 2
    {
      ghost var k0, errors0 := k, errors;
      PrefixKindsTable(curToken.kind);
      if curToken.kind !in PrefixKinds {
        NoPrefixParseFnError(curToken.kind);
        return None;
      }
      var left := ParsePrefix();
      PrefixStep(toks, k0, precedence, errors0, left, k, errors);
      var result := ParseInfixLoop(precedence, left);
      return Some(result);
    }

    /** The loop of `parseExpression`: absorbs each next operator that binds tighter than `precedence`. */
    method ParseInfixLoop(precedence: Precedence, left: Expression) returns (e: Expression)
      requires Valid()
      modifies this, l
      ensures Valid()
      ensures Parsed(Some(e), k, errors) == ParserSpec.ParseInfixLoop(toks, old(k), precedence, left, old(errors))
      decreases Rem(toks, k), 1
    {
      ghost var k0 := k;
      ghost var target := ParserSpec.ParseInfixLoop(toks, k, precedence, left, errors);
      e := left;
      while !PeekTokenIs(Semicolon) && precedence < PeekPrecedence()
        invariant Valid() && Rem(toks, k) <= Rem(toks, k0)
        invariant ParserSpec.ParseInfixLoop(toks, k, precedence, e, errors) == target
        decreases Rem(toks, k)
      {
        e := InfixTurn(precedence, e, target);
      }
    }

    /** One turn of the loop of `parseExpression`: step onto the operator and parse the infix expression. */
    method InfixTurn(precedence: Precedence, left: Expression, ghost target: Parsed<Option<Expression>>)
      returns (e: Expression)
      requires Valid() && peekToken.kind != Semicolon && precedence < PrecedenceOf(peekToken.kind)
      requires ParserSpec.ParseInfixLoop(toks, k, precedence, left, errors) == target
      modifies this, l
      ensures Valid() && Rem(toks, k) < Rem(toks, old(k))
      ensures ParserSpec.ParseInfixLoop(toks, k, precedence, e, errors) == target
      decreases Rem(toks, k), 0
    {
      ghost var step := ParserSpec.ParseInfixExpression(toks, k + 1, left, errors);
      InfixStep(toks, k, precedence, left, errors);
      NextToken();
      e := ParseInfixExpression(left);
      assert Parsed(e, k, errors) == step;
    }

    /** Calls the prefix handler registered for the kind of `curToken`. */
    method ParsePrefix() returns (left: Expression)
      requires Valid() && HasPrefixParseFn(curToken.kind)
      modifies this, l
      ensures Valid()
      ensures old(curToken).kind in {Bang, Minus} ==>
        Parsed(left, k, errors) == ParserSpec.ParsePrefixExpression(toks, old(k), old(errors))
      ensures old(curToken).kind !in {Bang, Minus} ==>
        left == Leaf(old(curToken)) && k == old(k) && errors == old(errors)
      decreases Rem(toks, k), 1
    {
      match curToken.kind {
        case Ident => left := ParseIdentifier();
        case Int => left := ParseIntegerLiteral();
        case True => left := ParseBoolean();
        case False => left := ParseBoolean();
        case Bang => left := ParsePrefixExpression();
        case Minus => left := ParsePrefixExpression();
      }
    }

    /** Parses `!x` or `-x`. */
    method ParsePrefixExpression() returns (e: Expression)
      requires Valid()
      modifies this, l
      ensures Valid()
      ensures Parsed(e, k, errors) == ParserSpec.ParsePrefixExpression(toks, old(k), old(errors))
      decreases Rem(toks, k + 1), 3
    {
      var token := curToken;
      NextToken();
      var right := ParseExpression(Prefix);
      e := PrefixExpression(token, token.literal, right);
    }

    /** Parses the operator at `curToken` and its right operand, with `left` as the left one. */
    method ParseInfixExpression(left: Expression) returns (e: Expression)
      requires Valid()
      modifies this, l
      ensures Valid()
      ensures Parsed(e, k, errors) == ParserSpec.ParseInfixExpression(toks, old(k), left, old(errors))
      decreases Rem(toks, k + 1), 3
    {
      var token := curToken;
      var precedence := CurPrecedence();
      NextToken();
      var right := ParseExpression(precedence);
      e := InfixExpression(token, left, token.literal, right);
    }

    /**
     * The source's `while (!curTokenIs(SEMICOLON)) nextToken()`. When the lexer
     * is exhausted and both tokens are EOF no semicolon can come, so the loop
     * would run forever; this method reports that with `loops`.
     */
    method SkipToSemicolon() returns (loops: bool)
      requires Valid()
      modifies this, l
      ensures Valid() && errors == old(errors)
      ensures loops <==> ParserSpec.SkipToSemicolon(toks, old(k)).None?
      ensures !loops ==> k == ParserSpec.SkipToSemicolon(toks, old(k)).value
    {
      ghost var k0 := k;
      while !CurTokenIs(Semicolon)
        invariant Valid() && errors == old(errors)
        invariant ParserSpec.SkipToSemicolon(toks, k) == ParserSpec.SkipToSemicolon(toks, k0)
        decreases Rem(toks, k)
      {
        loops := SkipTurn();
        if loops {
          return true;
        }
      }
      return false;
    }

    /** One turn of the skip: stop when the source would loop forever, otherwise step over `curToken`. */
    method SkipTurn() returns (loops: bool)
      requires Valid() && curToken.kind != Semicolon
      modifies this, l
      ensures Valid() && errors == old(errors)
      ensures loops ==> ParserSpec.SkipToSemicolon(toks, old(k)).None?
      ensures !loops ==> (Rem(toks, k) < Rem(toks, old(k))
        && ParserSpec.SkipToSemicolon(toks, k) == ParserSpec.SkipToSemicolon(toks, old(k)))
    {
      ExhaustedYields(l.input, l.position, toks, k + 2);
      if CurTokenIs(Eof) && PeekTokenIs(Eof) && l.Exhausted() {
        NoSemicolonAhead(toks, k);
        return true;
      }
      SkipStep(toks, k);
      NextToken();
      return false;
    }

    method ParseLetStatement() returns (stmt: Option<Statement>, loops: bool)
      requires Valid()
      modifies this, l
      ensures Valid()
      ensures var r := ParserSpec.ParseLetStatement(toks, old(k), old(errors));
        (loops <==> r.Loops?) && (r.Returns? ==> r.result == Parsed(stmt, k, errors))
    {
      var token := curToken;
      var ok := ExpectPeek(Ident);
      if !ok {
        return None, false;
      }
      var name := Identifier(curToken, curToken.literal);
      ok := ExpectPeek(Assign);
      if !ok {
        return None, false;
      }
      loops := SkipToSemicolon();
      stmt := Some(LetStatement(token, Some(name), None));
    }

    method ParseReturnStatement() returns (stmt: Statement, loops: bool)
      requires Valid()
      modifies this, l
      ensures Valid()
      ensures var r := ParserSpec.ParseReturnStatement(toks, old(k), old(errors));
        (loops <==> r.Loops?) && (r.Returns? ==> r.result == Parsed(stmt, k, errors))
    {
      stmt := ReturnStatement(curToken);
      NextToken();
      loops := SkipToSemicolon();
    }

    method ParseExpressionStatement() returns (stmt: Statement)
      requires Valid()
      modifies this, l
      ensures Valid()
      ensures Parsed(stmt, k, errors) == ParserSpec.ParseExpressionStatement(toks, old(k), old(errors))
    {
      var token := curToken;
      var e := ParseExpression(Lowest);
      stmt := ExpressionStatement(token, e);
      if PeekTokenIs(Semicolon) {
        NextToken();
      }
    }

    method ParseStatement() returns (stmt: Option<Statement>, loops: bool)
      requires Valid()
      modifies this, l
      ensures Valid()
      ensures loops ==> ParserSpec.ParseStatement(toks, old(k), old(errors)) == Loops
      ensures !loops ==> ParserSpec.ParseStatement(toks, old(k), old(errors)) == Returns(Parsed(stmt, k, errors))
    {
      if curToken.kind == Let {
        stmt, loops := ParseLetStatement();
      } else if curToken.kind == Return {
        var s;
        s, loops := ParseReturnStatement();
        stmt := Some(s);
      } else {
        var s := ParseExpressionStatement();
        stmt, loops := Some(s), false;
      }
    }

    /** Parses statements until `curToken` is EOF, or reports that the source would loop forever. */
    method ParseProgram() returns (program: Program, loops: bool)
      requires Valid()
      modifies this, l
      ensures Valid()
      ensures var r := ParseProgramFrom(toks, old(k), [], old(errors));
        (loops <==> r.Loops?) && (r.Returns? ==> r.result == Parsed(program.statements, k, errors))
    {
      ghost var target := ParseProgramFrom(toks, k, [], errors);
      var statements: seq<Statement> := [];
      while !CurTokenIs(Eof)
        invariant Valid()
        invariant ParseProgramFrom(toks, k, statements, errors) == target
        decreases Rem(toks, k)
      {
        var stmt;
        stmt, loops := ProgramTurn(statements);
        if loops {
          return Program(statements), true;
        }
        statements := Collect(statements, stmt);
        NextToken();
      }
      ProgramEnd(toks, k, statements, errors);
      return Program(statements), false;
    }

    /** The body of the loop of `parseProgram` up to `nextToken()`: parse a statement, to be kept
        when there is one. */
    method ProgramTurn(ghost statements: seq<Statement>) returns (stmt: Option<Statement>, loops: bool)
      requires Valid() && curToken.kind != Eof
      modifies this, l
      ensures Valid()
      ensures TurnOutcome(toks, old(k), statements, old(errors), loops, stmt, k, errors)
    {
      ghost var k0, errors0 := k, errors;
      stmt, loops := ParseStatement();
      StatementOutcome(toks, k0, statements, errors0, loops, stmt, k, errors);
    }
  }

  /** Lexes and parses `input` with a fresh lexer and parser, as the read-eval loop does. */
  method ParseInput(input: string) returns (program: Program, errors: seq<string>, loops: bool)
    ensures var r := Parse(input);
      (loops <==> r.Loops?) && (r.Returns? ==> r.result.value == program && Messages(r.result.errors) == errors)
  {
    var lexer := new Lexer(input);
    var parser := new Parser(lexer);
    program, loops := parser.ParseProgram();
    errors := parser.Errors();
  }
}
