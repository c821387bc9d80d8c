/**
 * What the parser's results mean: which operators continue an expression,
 * where statements end, how operators group, and what a program run
 * collects.
 */
module ParserProperties {
  import opened Wrappers
  import opened Token
  import opened Lexing
  import opened Ast
  import opened ParserSpec
  import LexerProperties

  /**
   * Every kind with a precedence above `Lowest` has an infix handler and no
   * other kind has one, so the infix loop never meets an operator it cannot
   * parse.
   */
  lemma InfixCoverage(kind: TokenType)
    ensures PrecedenceOf(kind) != Lowest <==> kind in InfixKinds
  {
  }

  /** A token with a handler that needs no operand: an identifier, an integer or a boolean. */
  predicate IsLeaf(t: Token) {
    HasPrefixParseFn(t.kind) && t.kind != Bang && t.kind != Minus
  }

  /**
   * The skip loop stops on the first semicolon at or after `j`, and finds
   * none exactly when the rest of the stream holds no semicolon.
   */
  lemma {:induction false} SkipFindsFirstSemicolon(toks: seq<Token>, j: nat)
    ensures match SkipToSemicolon(toks, j)
      case None => forall i :: j <= i < |toks| ==> toks[i].kind != Semicolon
      case Some(m) =>
        && m < |toks| && toks[m].kind == Semicolon
        && forall i :: j <= i < m ==> toks[i].kind != Semicolon
    decreases Rem(toks, j)
  {
    if At(toks, j).kind != Semicolon && j < |toks| {
      SkipFindsFirstSemicolon(toks, j + 1);
    }
  }

  /** A leaf followed by nothing that binds tighter is an expression of its own. */
  lemma LeafExpression(toks: seq<Token>, k: nat, precedence: Precedence, errors: seq<ParseError>)
    requires IsLeaf(At(toks, k))
    requires At(toks, k + 1).kind == Semicolon || PrecedenceOf(At(toks, k + 1).kind) <= precedence
    ensures ParseExpression(toks, k, precedence, errors) == Parsed(Some(Leaf(At(toks, k))), k, errors)
  {
  }

  /**
   * A token without a prefix handler yields no expression and one error
   * naming its kind; the parser stays on it.
   */
  lemma NoPrefixHandler(toks: seq<Token>, k: nat, precedence: Precedence, errors: seq<ParseError>)
    requires !HasPrefixParseFn(At(toks, k).kind)
    ensures ParseExpression(toks, k, precedence, errors)
      == Parsed(None, k, errors + [NoPrefixParseFn(At(toks, k).kind)])
  {
  }

  /** `(` has no prefix handler: grouped expressions are not parsed. */
  lemma NoGroupedExpressions(toks: seq<Token>, k: nat, precedence: Precedence, errors: seq<ParseError>)
    requires At(toks, k).kind == LParen
    ensures ParseExpression(toks, k, precedence, errors).value == None
    ensures ParseExpression(toks, k, precedence, errors).errors[|errors|].Message()
      == "no prefix parse function for ( found"
  {
    NoPrefixHandler(toks, k, precedence, errors);
    assert (errors + [NoPrefixParseFn(LParen)])[|errors|] == NoPrefixParseFn(LParen);
    assert LParen.Name() == "(";
  }

  /** Parsing an expression only appends to the error list. */
  lemma {:induction false} ExpressionErrorsGrow(toks: seq<Token>, k: nat, precedence: Precedence,
                                                errors: seq<ParseError>)
    ensures errors <= ParseExpression(toks, k, precedence, errors).errors
    decreases Rem(toks, k), 2
  {
    var t := At(toks, k);
    if t.kind == Bang || t.kind == Minus {
      var left := ParsePrefixExpression(toks, k, errors);
      PrefixErrorsGrow(toks, k, errors);
      InfixLoopErrorsGrow(toks, left.next, precedence, left.value, left.errors);
    } else if HasPrefixParseFn(t.kind) {
      InfixLoopErrorsGrow(toks, k, precedence, Leaf(t), errors);
    }
  }

  lemma {:induction false} InfixLoopErrorsGrow(toks: seq<Token>, k: nat, precedence: Precedence,
                                               left: Expression, errors: seq<ParseError>)
    ensures errors <= ParseInfixLoop(toks, k, precedence, left, errors).errors
    decreases Rem(toks, k), 1
  {
    var peek := At(toks, k + 1);
    if peek.kind != Semicolon && precedence < PrecedenceOf(peek.kind) {
      var e := ParseInfixExpression(toks, k + 1, left, errors);
      var r := ParseInfixLoop(toks, e.next, precedence, e.value, e.errors);
      InfixStep(toks, k, precedence, left, errors);
      InfixErrorsGrow(toks, k + 1, left, errors);
      InfixLoopErrorsGrow(toks, e.next, precedence, e.value, e.errors);
      PrefixTransitive(errors, e.errors, r.errors);
    }
  }

  lemma {:induction false} PrefixErrorsGrow(toks: seq<Token>, k: nat, errors: seq<ParseError>)
    ensures errors <= ParsePrefixExpression(toks, k, errors).errors
    decreases Rem(toks, k + 1), 3
  {
    ExpressionErrorsGrow(toks, k + 1, Prefix, errors);
  }

  lemma {:induction false} InfixErrorsGrow(toks: seq<Token>, k: nat, left: Expression, errors: seq<ParseError>)
    ensures errors <= ParseInfixExpression(toks, k, left, errors).errors
    decreases Rem(toks, k + 1), 3
  {
    ExpressionErrorsGrow(toks, k + 1, PrecedenceOf(At(toks, k).kind), errors);
  }

  /** Parsing a statement only appends to the error list. */
  lemma StatementErrorsGrow(toks: seq<Token>, k: nat, errors: seq<ParseError>)
    ensures var r := ParseStatement(toks, k, errors);
      r.Returns? ==> errors <= r.result.errors
  {
    var kind := At(toks, k).kind;
    if kind != Let && kind != Return {
      ExpressionErrorsGrow(toks, k, Lowest, errors);
    }
  }

  /**
   * What a run of the program loop from `k` promises when it returns: it
   * stands on EOF, and it has only appended to the statements and to the
   * errors it started with.
   */
  predicate Collects(toks: seq<Token>, k: nat, statements: seq<Statement>, errors: seq<ParseError>) {
    var r := ParseProgramFrom(toks, k, statements, errors);
    r.Returns? ==>
      && At(toks, r.result.next).kind == Eof
      && statements <= r.result.value
      && errors <= r.result.errors
  }

  /** A turn that keeps its promise after the statement keeps it from the statement on. */
  lemma TurnCollects(toks: seq<Token>, k: nat, statements: seq<Statement>, errors: seq<ParseError>,
                     s: Option<Statement>, j: nat, e: seq<ParseError>)
    requires At(toks, k).kind != Eof
    requires ParseStatement(toks, k, errors) == Returns(Parsed(s, j, e))
    requires Collects(toks, j + 1, Collect(statements, s), e)
    ensures Collects(toks, k, statements, errors)
  {
    var kept := Collect(statements, s);
    var r := ParseProgramFrom(toks, j + 1, kept, e);
    StatementErrorsGrow(toks, k, errors);
    StatementTurn(toks, k, statements, errors, s, j, e);
    if r.Returns? {
      PrefixTransitive(statements, kept, r.result.value);
      PrefixTransitive(errors, e, r.result.errors);
    }
  }

  /** Every run of the program loop keeps that promise. */
  lemma {:induction false} ProgramCollects(toks: seq<Token>, k: nat, statements: seq<Statement>,
                                           errors: seq<ParseError>)
    ensures Collects(toks, k, statements, errors)
    decreases Rem(toks, k)
  {
    if At(toks, k).kind == Eof {
      ProgramEnd(toks, k, statements, errors);
    } else {
      match ParseStatement(toks, k, errors)
      case Loops => StatementLoops(toks, k, statements, errors);
      case Returns(Parsed(s, j, e)) =>
        ProgramCollects(toks, j + 1, Collect(statements, s), e);
        TurnCollects(toks, k, statements, errors, s, j, e);
    }
  }

  lemma PrefixTransitive<T>(a: seq<T>, b: seq<T>, c: seq<T>)
    requires a <= b && b <= c
    ensures a <= c
  {
    assert c[..|a|] == c[..|b|][..|a|];
  }

  /** The tokens at `k` .. `k + 4` read `leaf op leaf op leaf`, and nothing after them continues the expression. */
  predicate TwoOperators(toks: seq<Token>, k: nat) {
    && IsLeaf(At(toks, k)) && IsLeaf(At(toks, k + 2)) && IsLeaf(At(toks, k + 4))
    && At(toks, k + 1).kind in InfixKinds && At(toks, k + 3).kind in InfixKinds
    && (At(toks, k + 5).kind == Semicolon || PrecedenceOf(At(toks, k + 5).kind) == Lowest)
  }

  /** The infix node for `left op right`, with `op` the token at `i`. */
  function Node(toks: seq<Token>, i: nat, left: Expression, right: Expression): Expression {
    InfixExpression(At(toks, i), left, At(toks, i).literal, Some(right))
  }

  /** The infix loop stops when the next token is a semicolon or binds no tighter than `precedence`. */
  lemma LoopStops(toks: seq<Token>, k: nat, precedence: Precedence, left: Expression, errors: seq<ParseError>)
    requires At(toks, k + 1).kind == Semicolon || PrecedenceOf(At(toks, k + 1).kind) <= precedence
    ensures ParseInfixLoop(toks, k, precedence, left, errors) == Parsed(Some(left), k, errors)
  {
  }

  /** An expression that starts with a leaf continues with the infix loop from it. */
  lemma LeafStarts(toks: seq<Token>, k: nat, precedence: Precedence, errors: seq<ParseError>)
    requires IsLeaf(At(toks, k))
    ensures ParseExpression(toks, k, precedence, errors) == ParseInfixLoop(toks, k, precedence, Leaf(At(toks, k)), errors)
  {
  }

  /**
   * The infix loop takes an operator at `k + 1` that binds tighter than
   * `precedence`, with the right operand parsed at the operator's own
   * precedence, and goes on after that operand.
   */
  lemma LoopTakes(toks: seq<Token>, k: nat, precedence: Precedence, left: Expression, errors: seq<ParseError>,
                  right: Expression, j: nat, errors': seq<ParseError>)
    requires At(toks, k + 1).kind != Semicolon && precedence < PrecedenceOf(At(toks, k + 1).kind)
    requires ParseExpression(toks, k + 2, PrecedenceOf(At(toks, k + 1).kind), errors) == Parsed(Some(right), j, errors')
    ensures ParseInfixLoop(toks, k, precedence, left, errors)
         == ParseInfixLoop(toks, j, precedence, Node(toks, k + 1, left, right), errors')
  {
    assert ParseInfixExpression(toks, k + 1, left, errors) == Parsed(Node(toks, k + 1, left, right), j, errors');
  }

  /** The same, when the right operand is the single leaf at `k + 2`. */
  lemma LoopTakesLeaf(toks: seq<Token>, k: nat, precedence: Precedence, left: Expression, errors: seq<ParseError>)
    requires At(toks, k + 1).kind in InfixKinds && precedence < PrecedenceOf(At(toks, k + 1).kind)
    requires IsLeaf(At(toks, k + 2))
    requires At(toks, k + 3).kind == Semicolon || PrecedenceOf(At(toks, k + 3).kind) <= PrecedenceOf(At(toks, k + 1).kind)
    ensures ParseInfixLoop(toks, k, precedence, left, errors)
         == ParseInfixLoop(toks, k + 2, precedence, Node(toks, k + 1, left, Leaf(At(toks, k + 2))), errors)
  {
    LeafExpression(toks, k + 2, PrecedenceOf(At(toks, k + 1).kind), errors);
    LoopTakes(toks, k, precedence, left, errors, Leaf(At(toks, k + 2)), k + 2, errors);
  }

  /** Operators of equal precedence group to the left: `a + b - c` is `((a + b) - c)`. */
  lemma LeftAssociative(toks: seq<Token>, k: nat, errors: seq<ParseError>)
    requires TwoOperators(toks, k)
    requires PrecedenceOf(At(toks, k + 1).kind) == PrecedenceOf(At(toks, k + 3).kind)
    ensures var a, b, c := Leaf(At(toks, k)), Leaf(At(toks, k + 2)), Leaf(At(toks, k + 4));
      ParseExpression(toks, k, Lowest, errors)
      == Parsed(Some(Node(toks, k + 3, Node(toks, k + 1, a, b), c)), k + 4, errors)
  {
    var a, b, c := Leaf(At(toks, k)), Leaf(At(toks, k + 2)), Leaf(At(toks, k + 4));
    InfixCoverage(At(toks, k + 1).kind);
    InfixCoverage(At(toks, k + 3).kind);
    var x := Node(toks, k + 1, a, b);
    LoopTakesLeaf(toks, k, Lowest, a, errors);
    LoopTakesLeaf(toks, k + 2, Lowest, x, errors);
    LoopStops(toks, k + 4, Lowest, Node(toks, k + 3, x, c), errors);
  }

  /** A tighter operator on the right takes the middle operand: `a + b * c` is `(a + (b * c))`. */
  lemma TighterBindsFirst(toks: seq<Token>, k: nat, errors: seq<ParseError>)
    requires TwoOperators(toks, k)
    requires PrecedenceOf(At(toks, k + 1).kind) < PrecedenceOf(At(toks, k + 3).kind)
    ensures var a, b, c := Leaf(At(toks, k)), Leaf(At(toks, k + 2)), Leaf(At(toks, k + 4));
      ParseExpression(toks, k, Lowest, errors)
      == Parsed(Some(Node(toks, k + 1, a, Node(toks, k + 3, b, c))), k + 4, errors)
  {
    var a, b, c := Leaf(At(toks, k)), Leaf(At(toks, k + 2)), Leaf(At(toks, k + 4));
    InfixCoverage(At(toks, k + 1).kind);
    LeafStarts(toks, k, Lowest, errors);
    LoopTakesTight(toks, k, Lowest, a, errors);
    LoopStops(toks, k + 4, Lowest, Node(toks, k + 1, a, Node(toks, k + 3, b, c)), errors);
  }

  /** A prefix operator binds tighter than any infix one: `-a * b` is `((-a) * b)`. */
  lemma PrefixBindsTighter(toks: seq<Token>, k: nat, errors: seq<ParseError>)
    requires At(toks, k).kind in {Bang, Minus}
    requires IsLeaf(At(toks, k + 1)) && At(toks, k + 2).kind in InfixKinds && IsLeaf(At(toks, k + 3))
    requires At(toks, k + 4).kind == Semicolon || PrecedenceOf(At(toks, k + 4).kind) == Lowest
    ensures var t, a, b := At(toks, k), Leaf(At(toks, k + 1)), Leaf(At(toks, k + 3));
      ParseExpression(toks, k, Lowest, errors)
      == Parsed(Some(Node(toks, k + 2, PrefixExpression(t, t.literal, Some(a)), b)), k + 3, errors)
  {
    var t, a, b := At(toks, k), Leaf(At(toks, k + 1)), Leaf(At(toks, k + 3));
    InfixCoverage(At(toks, k + 2).kind);
    LeafExpression(toks, k + 1, Prefix, errors);
    var x := PrefixExpression(t, t.literal, Some(a));
    assert ParsePrefixExpression(toks, k, errors) == Parsed(x, k + 1, errors);
    LoopTakesLeaf(toks, k + 1, Lowest, x, errors);
    LoopStops(toks, k + 3, Lowest, Node(toks, k + 2, x, b), errors);
  }

  /** Prefix operators nest, the inner one first: `!-a` is `(!(-a))`. */
  lemma NestedPrefix(toks: seq<Token>, k: nat, precedence: Precedence, errors: seq<ParseError>)
    requires At(toks, k).kind in {Bang, Minus} && At(toks, k + 1).kind in {Bang, Minus} && IsLeaf(At(toks, k + 2))
    requires At(toks, k + 3).kind == Semicolon || PrecedenceOf(At(toks, k + 3).kind) <= precedence
    ensures var t, u := At(toks, k), At(toks, k + 1);
      ParseExpression(toks, k, precedence, errors)
      == Parsed(Some(PrefixExpression(t, t.literal, Some(PrefixExpression(u, u.literal, Some(Leaf(At(toks, k + 2))))))),
                k + 2, errors)
  {
    var t, u := At(toks, k), At(toks, k + 1);
    var inner := PrefixExpression(u, u.literal, Some(Leaf(At(toks, k + 2))));
    var outer := PrefixExpression(t, t.literal, Some(inner));
    LeafExpression(toks, k + 2, Prefix, errors);
    assert ParsePrefixExpression(toks, k + 1, errors) == Parsed(inner, k + 2, errors);
    LoopStops(toks, k + 2, Prefix, inner, errors);
    assert ParsePrefixExpression(toks, k, errors) == Parsed(outer, k + 2, errors);
    LoopStops(toks, k + 2, precedence, outer, errors);
  }

  /** `!-a` is one expression, without errors. */
  lemma BangNegParse(toks: seq<Token>)
    requires toks == [Token(Bang, "!"), Token(Minus, "-"), Token(Ident, "a")]
    ensures ParseExpression(toks, 0, Lowest, []) == Parsed(Some(Unary(Bang, "!", Unary(Minus, "-", Var("a")))), 2, [])
  {
    assert At(toks, 0) == Token(Bang, "!") && At(toks, 1) == Token(Minus, "-") && At(toks, 2) == Token(Ident, "a");
    assert At(toks, 3).kind == Eof;
    NestedPrefix(toks, 0, Lowest, []);
  }

  /** That expression renders as `(!(-a))`. */
  lemma BangNegRendering()
    ensures Unary(Bang, "!", Unary(Minus, "-", Var("a"))).String() == "(!(-a))"
  {
  }

  /**
   * `let` needs an identifier and then `=`, and otherwise records one error
   * and yields no statement. After `=` the value is skipped up to the first
   * semicolon, which ends the statement; the value is never parsed.
   */
  lemma LetStatementOutcome(toks: seq<Token>, k: nat, errors: seq<ParseError>)
    ensures var r, name, assign := ParseLetStatement(toks, k, errors), At(toks, k + 1), At(toks, k + 2);
      && (name.kind != Ident ==> r == Returns(Parsed(None, k, errors + [UnexpectedPeek(Ident, name.kind)])))
      && (name.kind == Ident && assign.kind != Assign ==>
            r == Returns(Parsed(None, k + 1, errors + [UnexpectedPeek(Assign, assign.kind)])))
      && (name.kind == Ident && assign.kind == Assign ==>
            && (r.Loops? <==> forall i :: k + 2 <= i < |toks| ==> toks[i].kind != Semicolon)
            && (r.Returns? ==>
                  && r.result.value == Some(LetStatement(At(toks, k), Some(Identifier(name, name.literal)), None))
                  && r.result.errors == errors
                  && k + 2 < r.result.next < |toks| && toks[r.result.next].kind == Semicolon
                  && forall i :: k + 2 <= i < r.result.next ==> toks[i].kind != Semicolon))
  {
    SkipFindsFirstSemicolon(toks, k + 2);
  }

  /** `return` skips everything up to the first semicolon after it, or the source runs forever. */
  lemma ReturnStatementOutcome(toks: seq<Token>, k: nat, errors: seq<ParseError>)
    ensures var r := ParseReturnStatement(toks, k, errors);
      && (r.Loops? <==> forall i :: k + 1 <= i < |toks| ==> toks[i].kind != Semicolon)
      && (r.Returns? ==>
            && r.result.value == ReturnStatement(At(toks, k))
            && r.result.errors == errors
            && k < r.result.next < |toks| && toks[r.result.next].kind == Semicolon
            && forall i :: k + 1 <= i < r.result.next ==> toks[i].kind != Semicolon)
  {
    SkipFindsFirstSemicolon(toks, k + 1);
  }

  /** `return` with no semicolon anywhere after it: the source's loop never ends. */
  lemma ReturnWithoutSemicolonLoops(toks: seq<Token>, k: nat, statements: seq<Statement>, errors: seq<ParseError>)
    requires At(toks, k).kind == Return
    requires forall i :: k < i < |toks| ==> toks[i].kind != Semicolon
    ensures ParseProgramFrom(toks, k, statements, errors) == Loops
  {
    ReturnStatementOutcome(toks, k, errors);
    StatementLoops(toks, k, statements, errors);
  }

  /** `let x = ...` with no semicolon anywhere after the `=`: the source's loop never ends. */
  lemma LetWithoutSemicolonLoops(toks: seq<Token>, k: nat, statements: seq<Statement>, errors: seq<ParseError>)
    requires At(toks, k).kind == Let && At(toks, k + 1).kind == Ident && At(toks, k + 2).kind == Assign
    requires forall i :: k + 2 < i < |toks| ==> toks[i].kind != Semicolon
    ensures ParseProgramFrom(toks, k, statements, errors) == Loops
  {
    LetStatementOutcome(toks, k, errors);
    StatementLoops(toks, k, statements, errors);
  }

  /**
   * One turn of the program loop on an expression statement: the statement
   * is kept, an optional semicolon after the expression is consumed, and the
   * loop goes on after it.
   */
  lemma ExpressionStatementTurn(toks: seq<Token>, k: nat, statements: seq<Statement>, errors: seq<ParseError>,
                                e: Expression, j: nat, errors': seq<ParseError>)
    requires At(toks, k).kind !in {Let, Return, Eof}
    requires ParseExpression(toks, k, Lowest, errors) == Parsed(Some(e), j, errors')
    ensures At(toks, j + 1).kind == Semicolon ==>
      ParseProgramFrom(toks, k, statements, errors)
      == ParseProgramFrom(toks, j + 2, statements + [ExpressionStatement(At(toks, k), Some(e))], errors')
    ensures At(toks, j + 1).kind != Semicolon ==>
      ParseProgramFrom(toks, k, statements, errors)
      == ParseProgramFrom(toks, j + 1, statements + [ExpressionStatement(At(toks, k), Some(e))], errors')
  {
    var stmt := ExpressionStatement(At(toks, k), Some(e));
    assert Collect(statements, Some(stmt)) == statements + [stmt];
    ExpressionStatementStep(toks, k, errors, e, j, errors');
    if At(toks, j + 1).kind == Semicolon {
      StatementTurn(toks, k, statements, errors, Some(stmt), j + 1, errors');
    } else {
      StatementTurn(toks, k, statements, errors, Some(stmt), j, errors');
    }
  }

  /** The same turn on an expression that ends at the last token: the program ends with that statement. */
  lemma LastExpressionStatement(toks: seq<Token>, k: nat, statements: seq<Statement>, errors: seq<ParseError>,
                                e: Expression, j: nat, errors': seq<ParseError>)
    requires At(toks, k).kind !in {Let, Return, Eof}
    requires ParseExpression(toks, k, Lowest, errors) == Parsed(Some(e), j, errors')
    requires At(toks, j + 1).kind == Eof
    ensures ParseProgramFrom(toks, k, statements, errors)
         == Returns(Parsed(statements + [ExpressionStatement(At(toks, k), Some(e))], j + 1, errors'))
  {
    ExpressionStatementTurn(toks, k, statements, errors, e, j, errors');
    ProgramEnd(toks, j + 1, statements + [ExpressionStatement(At(toks, k), Some(e))], errors');
  }

  /**
   * A stream that holds one expression, with or without a semicolon after
   * it, is a program of that one expression statement, rendered as the
   * expression.
   */
  lemma OneExpressionProgram(toks: seq<Token>, e: Expression, j: nat, errors: seq<ParseError>)
    requires At(toks, 0).kind !in {Let, Return, Eof}
    requires ParseExpression(toks, 0, Lowest, []) == Parsed(Some(e), j, errors)
    requires At(toks, j + 1).kind == Eof || (At(toks, j + 1).kind == Semicolon && At(toks, j + 2).kind == Eof)
    ensures var n := if At(toks, j + 1).kind == Semicolon then j + 2 else j + 1;
      ParseProgramFrom(toks, 0, [], []) == Returns(Parsed([ExpressionStatement(At(toks, 0), Some(e))], n, errors))
    ensures Program([ExpressionStatement(At(toks, 0), Some(e))]).String() == e.String()
  {
    var n := if At(toks, j + 1).kind == Semicolon then j + 2 else j + 1;
    var s := ExpressionStatement(At(toks, 0), Some(e));
    assert [] + [s] == [s];
    ExpressionStatementTurn(toks, 0, [], [], e, j, errors);
    if At(toks, j + 1).kind == Semicolon {
      ProgramEnd(toks, j + 2, [s], errors);
    } else {
      ProgramEnd(toks, j + 1, [s], errors);
    }
    OneStatementRendering(s);
  }

  /** Trees written out, for the examples below. */
  function Var(x: string): Expression {
    IdentifierExpression(Identifier(Token(Ident, x), x))
  }

  function Num(literal: string, value: nat): Expression {
    IntegerLiteral(Token(Int, literal), value)
  }

  function Unary(kind: TokenType, operator: string, operand: Expression): Expression {
    PrefixExpression(Token(kind, operator), operator, Some(operand))
  }

  function Binary(kind: TokenType, operator: string, left: Expression, right: Expression): Expression {
    InfixExpression(Token(kind, operator), left, operator, Some(right))
  }

  /** The tokens of `-a * b`. */
  const NegTimes: seq<Token> := [Token(Minus, "-"), Token(Ident, "a"), Token(Asterisk, "*"), Token(Ident, "b")]

  /** `-a * b` is one expression, without errors. */
  lemma NegTimesParse(toks: seq<Token>)
    requires toks == NegTimes
    ensures ParseExpression(toks, 0, Lowest, []) == Parsed(Some(Binary(Asterisk, "*", Unary(Minus, "-", Var("a")), Var("b"))), 3, [])
  {
    NegTimesTokens(toks);
    PrefixBindsTighter(toks, 0, []);
  }

  lemma NegTimesTokens(toks: seq<Token>)
    requires toks == NegTimes
    ensures At(toks, 0) == Token(Minus, "-") && At(toks, 1) == Token(Ident, "a")
    ensures At(toks, 2) == Token(Asterisk, "*") && At(toks, 3) == Token(Ident, "b")
    ensures At(toks, 4).kind == Eof
  {
  }

  /** That expression renders as `((-a) * b)`. */
  lemma NegTimesRendering()
    ensures Binary(Asterisk, "*", Unary(Minus, "-", Var("a")), Var("b")).String() == "((-a) * b)"
  {
  }

  /**
   * `leaf op leaf`, with `op` binding tighter than `precedence` and nothing
   * after it that does, is parsed as one operand.
   */
  lemma TightOperand(toks: seq<Token>, k: nat, precedence: Precedence, errors: seq<ParseError>)
    requires IsLeaf(At(toks, k)) && IsLeaf(At(toks, k + 2))
    requires At(toks, k + 1).kind in InfixKinds && precedence < PrecedenceOf(At(toks, k + 1).kind)
    requires At(toks, k + 3).kind == Semicolon || PrecedenceOf(At(toks, k + 3).kind) <= precedence
    ensures ParseExpression(toks, k, precedence, errors)
         == Parsed(Some(Node(toks, k + 1, Leaf(At(toks, k)), Leaf(At(toks, k + 2)))), k + 2, errors)
  {
    LeafStarts(toks, k, precedence, errors);
    LoopTakesLeaf(toks, k, precedence, Leaf(At(toks, k)), errors);
    LoopStops(toks, k + 2, precedence, Node(toks, k + 1, Leaf(At(toks, k)), Leaf(At(toks, k + 2))), errors);
  }

  /** The loop takes an operator whose right operand is such a tighter `leaf op leaf`. */
  lemma LoopTakesTight(toks: seq<Token>, k: nat, precedence: Precedence, left: Expression, errors: seq<ParseError>)
    requires At(toks, k + 1).kind in InfixKinds && precedence < PrecedenceOf(At(toks, k + 1).kind)
    requires IsLeaf(At(toks, k + 2)) && IsLeaf(At(toks, k + 4))
    requires At(toks, k + 3).kind in InfixKinds && PrecedenceOf(At(toks, k + 1).kind) < PrecedenceOf(At(toks, k + 3).kind)
    requires At(toks, k + 5).kind == Semicolon || PrecedenceOf(At(toks, k + 5).kind) <= PrecedenceOf(At(toks, k + 1).kind)
    ensures ParseInfixLoop(toks, k, precedence, left, errors)
         == ParseInfixLoop(toks, k + 4, precedence,
                           Node(toks, k + 1, left, Node(toks, k + 3, Leaf(At(toks, k + 2)), Leaf(At(toks, k + 4)))), errors)
  {
    var right := Node(toks, k + 3, Leaf(At(toks, k + 2)), Leaf(At(toks, k + 4)));
    TightOperand(toks, k + 2, PrecedenceOf(At(toks, k + 1).kind), errors);
    LoopTakes(toks, k, precedence, left, errors, right, k + 4, errors);
  }

  /** An integer literal of one digit stands for that digit's value. */
  lemma DigitLeaf(d: char)
    requires IsDigit(d)
    ensures Leaf(Token(Int, [d])) == Num([d], d as int - '0' as int)
  {
    assert forall i :: 0 <= i < |[d]| ==> IsDigit([d][i]);
    assert [d][..0] == [];
    assert DecimalValue([d]) == d as int - '0' as int;
  }

  /** The tokens of `3 + 4; -5 * 5`. */
  const TwoStatements: seq<Token> := [
    Token(Int, "3"), Token(Plus, "+"), Token(Int, "4"), Token(Semicolon, ";"),
    Token(Minus, "-"), Token(Int, "5"), Token(Asterisk, "*"), Token(Int, "5")]

  lemma TwoStatementsTokens(toks: seq<Token>)
    requires toks == TwoStatements
    ensures At(toks, 0) == Token(Int, "3") && At(toks, 1) == Token(Plus, "+") && At(toks, 2) == Token(Int, "4")
    ensures At(toks, 3) == Token(Semicolon, ";") && At(toks, 4) == Token(Minus, "-") && At(toks, 5) == Token(Int, "5")
    ensures At(toks, 6) == Token(Asterisk, "*") && At(toks, 7) == Token(Int, "5") && At(toks, 8).kind == Eof
  {
  }

  /** The tokens at 0 .. 8 have the shape of `m + n; -p * q`, with integer literals. */
  predicate TwoStatementsShape(toks: seq<Token>) {
    && At(toks, 0).kind == Int && At(toks, 1).kind == Plus && At(toks, 2).kind == Int && At(toks, 3).kind == Semicolon
    && At(toks, 4).kind == Minus && At(toks, 5).kind == Int && At(toks, 6).kind == Asterisk && At(toks, 7).kind == Int
    && At(toks, 8).kind == Eof
  }

  /** `m + n` of such tokens, the first statement. */
  function FirstSum(toks: seq<Token>): Statement {
    ExpressionStatement(At(toks, 0), Some(Node(toks, 1, Leaf(At(toks, 0)), Leaf(At(toks, 2)))))
  }

  /** `-p * q` of such tokens, the second statement. */
  function SecondProduct(toks: seq<Token>): Statement {
    ExpressionStatement(At(toks, 4), Some(Node(toks, 6, PrefixExpression(At(toks, 4), At(toks, 4).literal,
                                                                         Some(Leaf(At(toks, 5)))),
                                               Leaf(At(toks, 7)))))
  }

  /** The expression of the first statement ends before the semicolon. */
  lemma FirstSumExpression(toks: seq<Token>)
    requires TwoStatementsShape(toks)
    ensures ParseExpression(toks, 0, Lowest, []) == Parsed(FirstSum(toks).expression, 2, [])
  {
    TightOperand(toks, 0, Lowest, []);
  }

  /** The expression of the second statement ends at the last token. */
  lemma SecondProductExpression(toks: seq<Token>)
    requires TwoStatementsShape(toks)
    ensures ParseExpression(toks, 4, Lowest, []) == Parsed(SecondProduct(toks).expression, 7, [])
  {
    PrefixBindsTighter(toks, 4, []);
  }

  /** The first turn takes `m + n;`. */
  lemma FirstSumTurn(toks: seq<Token>)
    requires TwoStatementsShape(toks)
    ensures ParseProgramFrom(toks, 0, [], []) == ParseProgramFrom(toks, 4, [FirstSum(toks)], [])
  {
    var first := FirstSum(toks);
    assert [] + [first] == [first];
    FirstSumExpression(toks);
    ExpressionStatementTurn(toks, 0, [], [], first.expression.value, 2, []);
  }

  /** The second turn takes `-p * q` and meets the end. */
  lemma SecondProductTurn(toks: seq<Token>)
    requires TwoStatementsShape(toks)
    ensures ParseProgramFrom(toks, 4, [FirstSum(toks)], [])
         == Returns(Parsed([FirstSum(toks), SecondProduct(toks)], 8, []))
  {
    var first, second := FirstSum(toks), SecondProduct(toks);
    assert [first] + [second] == [first, second];
    SecondProductExpression(toks);
    LastExpressionStatement(toks, 4, [first], [], second.expression.value, 7, []);
  }

  /** Such tokens are parsed as the two expression statements `(m + n)` and `((-p) * q)`. */
  lemma TwoStatementsProgram(toks: seq<Token>)
    requires TwoStatementsShape(toks)
    ensures ParseProgramFrom(toks, 0, [], []) == Returns(Parsed([FirstSum(toks), SecondProduct(toks)], 8, []))
  {
    FirstSumTurn(toks);
    SecondProductTurn(toks);
  }

  /** `3 + 4; -5 * 5` is two expression statements, without errors. */
  lemma TwoStatementsParse(toks: seq<Token>)
    requires toks == TwoStatements
    ensures ParseProgramFrom(toks, 0, [], []) == Returns(Parsed([
      ExpressionStatement(Token(Int, "3"), Some(Binary(Plus, "+", Num("3", 3), Num("4", 4)))),
      ExpressionStatement(Token(Minus, "-"), Some(Binary(Asterisk, "*", Unary(Minus, "-", Num("5", 5)), Num("5", 5))))],
      8, []))
  {
    TwoStatementsTokens(toks);
    DigitLeaf('3');
    DigitLeaf('4');
    DigitLeaf('5');
    TwoStatementsProgram(toks);
  }

  lemma SumRendering()
    ensures Binary(Plus, "+", Num("3", 3), Num("4", 4)).String() == "(3 + 4)"
  {
  }

  lemma ProductRendering()
    ensures Binary(Asterisk, "*", Unary(Minus, "-", Num("5", 5)), Num("5", 5)).String() == "((-5) * 5)"
  {
  }

  /** They render as `(3 + 4)((-5) * 5)`. */
  lemma TwoStatementsRendering()
    ensures Program([
      ExpressionStatement(Token(Int, "3"), Some(Binary(Plus, "+", Num("3", 3), Num("4", 4)))),
      ExpressionStatement(Token(Minus, "-"), Some(Binary(Asterisk, "*", Unary(Minus, "-", Num("5", 5)), Num("5", 5))))]).String()
      == "(3 + 4)((-5) * 5)"
  {
    SumRendering();
    ProductRendering();
    TwoStatementRendering(
      ExpressionStatement(Token(Int, "3"), Some(Binary(Plus, "+", Num("3", 3), Num("4", 4)))),
      ExpressionStatement(Token(Minus, "-"), Some(Binary(Asterisk, "*", Unary(Minus, "-", Num("5", 5)), Num("5", 5)))));
  }

  /** The tokens at 0 .. 4 have the shape of `let x 5;`: the `=` is missing. */
  predicate MissingAssignShape(toks: seq<Token>) {
    && At(toks, 0).kind == Let && At(toks, 1).kind == Ident && At(toks, 2).kind == Int
    && At(toks, 3).kind == Semicolon && At(toks, 4).kind == Eof
  }

  /**
   * The let statement is dropped with one error at its name, and the parser
   * goes on from its name: what follows is a statement of its own.
   */
  lemma MissingAssignProgram(toks: seq<Token>)
    requires MissingAssignShape(toks)
    ensures ParseProgramFrom(toks, 0, [], []) == Returns(Parsed(
      [ExpressionStatement(At(toks, 2), Some(Leaf(At(toks, 2))))], 4, [UnexpectedPeek(Assign, At(toks, 2).kind)]))
  {
    var errors := [UnexpectedPeek(Assign, At(toks, 2).kind)];
    var s := ExpressionStatement(At(toks, 2), Some(Leaf(At(toks, 2))));
    assert [] + [s] == [s];
    assert ParseLetStatement(toks, 0, []) == Returns(Parsed(None, 1, errors));
    StatementTurn(toks, 0, [], [], None, 1, errors);
    LeafExpression(toks, 2, Lowest, errors);
    ExpressionStatementTurn(toks, 2, [], errors, Leaf(At(toks, 2)), 2, errors);
    ProgramEnd(toks, 4, [s], errors);
  }

  /** The tokens of `let x 5;`. */
  const MissingAssign: seq<Token> := [Token(Let, "let"), Token(Ident, "x"), Token(Int, "5"), Token(Semicolon, ";")]

  /** `let x 5;` is the statement `5` and the error that an `=` was expected. */
  lemma MissingAssignParse(toks: seq<Token>)
    requires toks == MissingAssign
    ensures ParseProgramFrom(toks, 0, [], [])
         == Returns(Parsed([ExpressionStatement(Token(Int, "5"), Some(Num("5", 5)))], 4, [UnexpectedPeek(Assign, Int)]))
  {
    assert At(toks, 0).kind == Let && At(toks, 1).kind == Ident && At(toks, 2) == Token(Int, "5");
    assert At(toks, 3).kind == Semicolon && At(toks, 4).kind == Eof;
    MissingAssignProgram(toks);
    DigitLeaf('5');
  }

  /** The error reads as the source words it. */
  lemma MissingAssignMessage()
    ensures Messages([UnexpectedPeek(Assign, Int)]) == ["expected next token to be =, got INT instead"]
  {
    assert Assign.Name() == "=" && Int.Name() == "INT";
    assert UnexpectedPeek(Assign, Int).Message() == "expected next token to be =, got INT instead";
  }

  /** `return 5` with no semicolon: the source's loop never ends. */
  lemma ReturnFiveLoops(toks: seq<Token>)
    requires toks == [Token(Return, "return"), Token(Int, "5")]
    ensures ParseProgramFrom(toks, 0, [], []) == Loops
  {
    ReturnWithoutSemicolonLoops(toks, 0, [], []);
  }

  /** The tokens at 0 .. 5 have the shape of `let x = v;`, with a one-token value. */
  predicate LetShape(toks: seq<Token>) {
    && At(toks, 0).kind == Let && At(toks, 1).kind == Ident && At(toks, 2).kind == Assign
    && At(toks, 3).kind !in {Semicolon, Eof} && At(toks, 4).kind == Semicolon && At(toks, 5).kind == Eof
  }

  /** A statement followed by the end of the input is a program of that one statement. */
  lemma OneStatementProgram(toks: seq<Token>, s: Statement, j: nat, errors: seq<ParseError>)
    requires At(toks, 0).kind != Eof && At(toks, j + 1).kind == Eof
    requires ParseStatement(toks, 0, []) == Returns(Parsed(Some(s), j, errors))
    ensures ParseProgramFrom(toks, 0, [], []) == Returns(Parsed([s], j + 1, errors))
  {
    StatementTurn(toks, 0, [], [], Some(s), j, errors);
    assert Collect([], Some(s)) == [s];
    ProgramEnd(toks, j + 1, [s], errors);
  }

  lemma LetShapeStatement(toks: seq<Token>)
    requires LetShape(toks)
    ensures ParseStatement(toks, 0, [])
         == Returns(Parsed(Some(LetStatement(At(toks, 0), Some(Identifier(At(toks, 1), At(toks, 1).literal)), None)), 4, []))
  {
    assert SkipToSemicolon(toks, 4) == Some(4);
    assert SkipToSemicolon(toks, 2) == SkipToSemicolon(toks, 3) == Some(4);
  }

  /** Such tokens are one let statement, whose value is skipped, and no errors. */
  lemma LetShapeProgram(toks: seq<Token>)
    requires LetShape(toks)
    ensures ParseProgramFrom(toks, 0, [], [])
         == Returns(Parsed([LetStatement(At(toks, 0), Some(Identifier(At(toks, 1), At(toks, 1).literal)), None)], 5, []))
  {
    LetShapeStatement(toks);
    OneStatementProgram(toks, LetStatement(At(toks, 0), Some(Identifier(At(toks, 1), At(toks, 1).literal)), None), 4, []);
  }

  /** The tokens of `let five = 5;`: one let statement, no errors. */
  lemma LetFiveProgram(toks: seq<Token>)
    requires toks == [Token(Let, "let"), Token(Ident, "five"), Token(Assign, "="), Token(Int, "5"), Token(Semicolon, ";")]
    ensures ParseProgramFrom(toks, 0, [], [])
         == Returns(Parsed([LetStatement(Token(Let, "let"), Some(Identifier(Token(Ident, "five"), "five")), None)], 5, []))
  {
    assert At(toks, 0) == Token(Let, "let") && At(toks, 1) == Token(Ident, "five") && At(toks, 2).kind == Assign;
    assert At(toks, 3).kind == Int && At(toks, 4).kind == Semicolon && At(toks, 5).kind == Eof;
    LetShapeProgram(toks);
  }

  /** The whole front end on `let five = 5;`: one let statement, no errors. */
  lemma LetFiveParse()
    ensures Parse("let five = 5;")
         == Returns(Parsed(Program([LetStatement(Token(Let, "let"), Some(Identifier(Token(Ident, "five"), "five")), None)]), 5, []))
  {
    LexerProperties.LetStatementTokens();
    LetFiveProgram(LexFrom("let five = 5;", 0));
  }
}
