/**
 * The syntax tree: statements and expressions, each recording the token
 * that introduced it, with their `tokenLiteral()` and `string()` renderings.
 */
module Ast {
  import opened Wrappers
  import opened Token

  datatype Identifier = Identifier(token: Token, value: string) {
    function TokenLiteral(): string {
      token.literal
    }

    function String(): string {
      value
    }
  }

  datatype Expression =
    | IdentifierExpression(id: Identifier)
    | IntegerLiteral(token: Token, intValue: nat)
    | PrefixExpression(token: Token, operator: string, right: Option<Expression>)
    | InfixExpression(token: Token, left: Expression, operator: string, right: Option<Expression>)
    | Boolean(token: Token, boolValue: bool)
  {
    function TokenLiteral(): string {
      match this
      case IdentifierExpression(id) => id.TokenLiteral()
      case _ => token.literal
    }

    /** Prefix and infix nodes are fully parenthesised; leaves print their source text. */
    function String(): string {
      match this
      case IdentifierExpression(id) => id.String()
      case IntegerLiteral(token, _) => token.literal
      case Boolean(token, _) => token.literal
      case PrefixExpression(_, operator, right) =>
        "(" + operator + RenderOption(right) + ")"
      case InfixExpression(_, left, operator, right) =>
        "(" + left.String() + " " + operator + " " + RenderOption(right) + ")"
    }
  }

  /** The rendering of an optional child: empty when it is absent. */
  function RenderOption(e: Option<Expression>): string {
    match e
    case None => ""
    case Some(x) => x.String()
  }

  datatype Statement =
    | LetStatement(token: Token, name: Option<Identifier>, value: Option<Expression>)
    | ReturnStatement(token: Token)
    | ExpressionStatement(token: Token, expression: Option<Expression>)
  {
    function TokenLiteral(): string {
      token.literal
    }

    function String(): string {
      match this
      case LetStatement(_, name, value) =>
        TokenLiteral() + " " + (if name.Some? then name.value.String() else "") + " = " + RenderOption(value) + ";"
      case ReturnStatement(_) =>
        TokenLiteral() + " " + ";"
      case ExpressionStatement(_, expression) =>
        RenderOption(expression)
    }
  }

  datatype Program = Program(statements: seq<Statement>) {
    function TokenLiteral(): string {
      if |statements| > 0 then statements[0].TokenLiteral() else ""
    }

    function String(): string {
      Join(Renderings(statements))
    }
  }

  /** The rendering of each statement, in order. */
  function Renderings(statements: seq<Statement>): (r: seq<string>)
    ensures |r| == |statements|
    ensures forall i :: 0 <= i < |statements| ==> r[i] == statements[i].String()
  {
    seq(|statements|, i requires 0 <= i < |statements| => statements[i].String())
  }

  /** Where each of five concatenated strings sits in the result. */
  lemma FivePieces(a: string, b: string, c: string, d: string, e: string)
    ensures
      var m, i, j, k := a + b + c + d + e, |a| + |b|, |a| + |b| + |c|, |a| + |b| + |c| + |d|;
      && |m| == k + |e| && m[..|a|] == a && m[|a|..i] == b && m[i..j] == c && m[j..k] == d && m[k..] == e
  {
  }

  /**
   * Literals print as their token's text and an identifier as its name; a prefix
   * node prints its operator right after an opening parenthesis, and an infix node
   * its left operand and then its operator between spaces; both close the parenthesis.
   */
  lemma ExpressionText(e: Expression)
    ensures e.IntegerLiteral? || e.Boolean? ==> e.String() == e.TokenLiteral() == e.token.literal
    ensures e.IdentifierExpression? ==> e.String() == e.id.value && e.TokenLiteral() == e.id.token.literal
    ensures e.PrefixExpression? ==>
      var s, n := e.String(), |e.operator|;
      && e.TokenLiteral() == e.token.literal
      && |s| == n + |RenderOption(e.right)| + 2 && s[0] == '(' && s[1..1 + n] == e.operator
      && s[1 + n..|s| - 1] == RenderOption(e.right) && s[|s| - 1] == ')'
    ensures e.InfixExpression? ==>
      var s, l, n := e.String(), |e.left.String()|, |e.operator|;
      && e.TokenLiteral() == e.token.literal
      && |s| == l + n + |RenderOption(e.right)| + 4 && s[0] == '(' && s[1..1 + l] == e.left.String()
      && s[1 + l] == ' ' && s[2 + l..2 + l + n] == e.operator && s[2 + l + n] == ' '
      && s[3 + l + n..|s| - 1] == RenderOption(e.right) && s[|s| - 1] == ')'
  {
    if e.PrefixExpression? {
      PrefixText(e.token, e.operator, e.right);
    } else if e.InfixExpression? {
      InfixText(e.token, e.left, e.operator, e.right);
    }
  }

  lemma PrefixText(t: Token, operator: string, right: Option<Expression>)
    ensures
      var s, n := PrefixExpression(t, operator, right).String(), |operator|;
      && |s| == n + |RenderOption(right)| + 2 && s[0] == '(' && s[1..1 + n] == operator
      && s[1 + n..|s| - 1] == RenderOption(right) && s[|s| - 1] == ')'
  {
    FivePieces("(", operator, RenderOption(right), ")", "");
  }

  lemma InfixText(t: Token, left: Expression, operator: string, right: Option<Expression>)
    ensures
      var s, l, n := InfixExpression(t, left, operator, right).String(), |left.String()|, |operator|;
      && |s| == l + n + |RenderOption(right)| + 4 && s[0] == '(' && s[1..1 + l] == left.String()
      && s[1 + l] == ' ' && s[2 + l..2 + l + n] == operator && s[2 + l + n] == ' '
      && s[3 + l + n..|s| - 1] == RenderOption(right) && s[|s| - 1] == ')'
  {
    var a := "(" + left.String() + " ";
    FivePieces("(", left.String(), " ", "", "");
    FivePieces(a, operator, " ", RenderOption(right), ")");
  }

  /**
   * A let statement starts with its keyword and a space and ends with a semicolon; a
   * return statement is its keyword and " ;"; an expression statement prints as its expression.
   */
  lemma StatementText(s: Statement)
    ensures s.TokenLiteral() == s.token.literal
    ensures s.LetStatement? ==>
      var r, n := s.String(), |s.token.literal|;
      |r| > n + 1 && r[..n] == s.token.literal && r[n] == ' ' && r[|r| - 1] == ';'
    ensures s.ReturnStatement? ==> s.String() == s.token.literal + " ;"
    ensures s.ExpressionStatement? ==> s.String() == RenderOption(s.expression)
  {
    if s.LetStatement? {
      var name := if s.name.Some? then s.name.value.String() else "";
      FivePieces(s.token.literal, " ", name + " = " + RenderOption(s.value), ";", "");
    }
  }

  /** Strings concatenated in order, without separator. */
  function Join(parts: seq<string>): string {
    if parts == [] then "" else Join(parts[..|parts| - 1]) + parts[|parts| - 1]
  }

  /** `Program.string()`: accumulates the statement renderings in a loop. */
  method RenderProgram(program: Program) returns (result: string)
    ensures result == program.String()
  {
    ghost var parts := Renderings(program.statements);
    result := "";
    for i := 0 to |program.statements|
      invariant result == Join(parts[..i])
    {
      assert parts[..i + 1][..i] == parts[..i];
      result := result + program.statements[i].String();
    }
    assert parts[..|program.statements|] == parts;
  }

  /** Joining distributes over splitting the parts. */
  lemma {:induction false} JoinAppend(a: seq<string>, b: seq<string>)
    ensures Join(a + b) == Join(a) + Join(b)
    decreases |b|
  {
    if b == [] {
      assert a + b == a;
    } else {
      var b' := b[..|b| - 1];
      assert (a + b)[..|a + b| - 1] == a + b';
      JoinAppend(a, b');
    }
  }

  /** A program's rendering is its statements' renderings, concatenated in order. */
  lemma {:induction false} ProgramRendering(statements: seq<Statement>, i: nat)
    requires i < |statements|
    ensures Program(statements).String() ==
      Program(statements[..i]).String() + statements[i].String() + Program(statements[i + 1..]).String()
  {
    var parts := Renderings(statements);
    assert parts == parts[..i] + [parts[i]] + parts[i + 1..];
    assert Renderings(statements[..i]) == parts[..i];
    assert Renderings(statements[i + 1..]) == parts[i + 1..];
    JoinAppend(parts[..i] + [parts[i]], parts[i + 1..]);
    JoinAppend(parts[..i], [parts[i]]);
    assert Join([parts[i]]) == parts[i] by {
      assert [parts[i]][..0] == [];
    }
  }

  /** The first token literal of a program is that of its first statement. */
  lemma ProgramTokenLiteral(program: Program)
    ensures program.statements == [] ==> program.TokenLiteral() == ""
    ensures program.statements != [] ==> program.TokenLiteral() == program.statements[0].token.literal
  {
  }

  /** The rendering of a program of one statement is that statement's. */
  lemma OneStatementRendering(s: Statement)
    ensures Program([s]).String() == s.String()
  {
    assert Renderings([s]) == [s.String()];
    assert [s.String()][..0] == [];
    assert Join([s.String()]) == Join([]) + s.String();
  }

  /** The rendering of a program of two statements is theirs, one after the other. */
  lemma TwoStatementRendering(s: Statement, t: Statement)
    ensures Program([s, t]).String() == s.String() + t.String()
  {
    assert Renderings([s, t]) == [s.String(), t.String()];
    assert [s.String(), t.String()][..1] == [s.String()];
    assert [s.String()][..0] == [];
    assert Join([s.String()]) == Join([]) + s.String();
  }

  /** The statement of the AST test, `let myVar = anotherVar;`. */
  function LetMyVar(): Statement {
    LetStatement(Token(Let, "let"),
                 Some(Identifier(Token(Ident, "myVar"), "myVar")),
                 Some(IdentifierExpression(Identifier(Token(Ident, "anotherVar"), "anotherVar"))))
  }

  /** That statement renders as it is written. */
  lemma LetMyVarString()
    ensures LetMyVar().String() == "let myVar = anotherVar;"
  {
  }

  /** The rendering the AST test expects of a program of that one statement. */
  lemma LetStatementRendering()
    ensures Program([LetMyVar()]).String() == "let myVar = anotherVar;"
  {
    LetMyVarString();
    OneStatementRendering(LetMyVar());
  }

  /** A return statement without a value, and a let statement without name or value. */
  lemma AbsentChildrenRendering(t: Token)
    ensures ReturnStatement(t).String() == t.literal + " ;"
    ensures LetStatement(t, None, None).String() == t.literal + "  = ;"
  {
  }
}
