/**
 * How chains of operators group: the shapes of the operator-precedence
 * expectations, proved for any leaves and operators of the right
 * precedences, and the concrete expressions they cover.
 */
module PrecedenceExamples {
  import opened Wrappers
  import opened Token
  import opened Lexing
  import opened Ast
  import opened ParserSpec
  import opened ParserProperties

  /** The precedence of the token at `i`. */
  function P(toks: seq<Token>, i: nat): Precedence {
    PrecedenceOf(At(toks, i).kind)
  }

  /** The token at `i` ends an expression parsed at `precedence`. */
  predicate Ends(toks: seq<Token>, i: nat, precedence: Precedence) {
    At(toks, i).kind == Semicolon || P(toks, i) <= precedence
  }

  /** The token at `i` is a leaf and the one after it an infix operator. */
  predicate LeafOp(toks: seq<Token>, i: nat) {
    IsLeaf(At(toks, i)) && At(toks, i + 1).kind in InfixKinds
  }

  /** The leaf at `i`. */
  function L(toks: seq<Token>, i: nat): Expression {
    Leaf(At(toks, i))
  }

  /** An expression that starts `a op b` goes on with the loop after `b`. */
  lemma HeadLeaf(toks: seq<Token>, k: nat, precedence: Precedence, errors: seq<ParseError>)
    requires LeafOp(toks, k) && IsLeaf(At(toks, k + 2)) && precedence < P(toks, k + 1)
    requires Ends(toks, k + 3, P(toks, k + 1))
    ensures ParseExpression(toks, k, precedence, errors)
         == ParseInfixLoop(toks, k + 2, precedence, Node(toks, k + 1, L(toks, k), L(toks, k + 2)), errors)
  {
    LeafStarts(toks, k, precedence, errors);
    LoopTakesLeaf(toks, k, precedence, L(toks, k), errors);
  }

  /** An expression that starts `a op b op' c` with `op'` tighter goes on with the loop after `c`. */
  lemma HeadTight(toks: seq<Token>, k: nat, precedence: Precedence, errors: seq<ParseError>)
    requires LeafOp(toks, k) && LeafOp(toks, k + 2) && IsLeaf(At(toks, k + 4))
    requires precedence < P(toks, k + 1) < P(toks, k + 3) && Ends(toks, k + 5, P(toks, k + 1))
    ensures ParseExpression(toks, k, precedence, errors)
         == ParseInfixLoop(toks, k + 4, precedence,
                           Node(toks, k + 1, L(toks, k), Node(toks, k + 3, L(toks, k + 2), L(toks, k + 4))), errors)
  {
    LeafStarts(toks, k, precedence, errors);
    LoopTakesTight(toks, k, precedence, L(toks, k), errors);
  }

  /** The loop ends after taking `op b`. */
  lemma TailLeaf(toks: seq<Token>, k: nat, precedence: Precedence, left: Expression, errors: seq<ParseError>)
    requires At(toks, k + 1).kind in InfixKinds && IsLeaf(At(toks, k + 2))
    requires precedence < P(toks, k + 1) && Ends(toks, k + 3, precedence)
    ensures ParseInfixLoop(toks, k, precedence, left, errors)
         == Parsed(Some(Node(toks, k + 1, left, L(toks, k + 2))), k + 2, errors)
  {
    LoopTakesLeaf(toks, k, precedence, left, errors);
    LoopStops(toks, k + 2, precedence, Node(toks, k + 1, left, L(toks, k + 2)), errors);
  }

  /** The loop ends after taking `op b op' c`, with `op'` tighter. */
  lemma TailTight(toks: seq<Token>, k: nat, precedence: Precedence, left: Expression, errors: seq<ParseError>)
    requires At(toks, k + 1).kind in InfixKinds && LeafOp(toks, k + 2) && IsLeaf(At(toks, k + 4))
    requires precedence < P(toks, k + 1) < P(toks, k + 3) && Ends(toks, k + 5, precedence)
    ensures ParseInfixLoop(toks, k, precedence, left, errors)
         == Parsed(Some(Node(toks, k + 1, left, Node(toks, k + 3, L(toks, k + 2), L(toks, k + 4)))), k + 4, errors)
  {
    var right := Node(toks, k + 3, L(toks, k + 2), L(toks, k + 4));
    LoopTakesTight(toks, k, precedence, left, errors);
    LoopStops(toks, k + 4, precedence, Node(toks, k + 1, left, right), errors);
  }

  /** The loop ends after taking `op` and a right operand that ends at `j`. */
  lemma TailWith(toks: seq<Token>, k: nat, precedence: Precedence, left: Expression, right: Expression, j: nat,
                 errors: seq<ParseError>)
    requires At(toks, k + 1).kind in InfixKinds && precedence < P(toks, k + 1)
    requires ParseExpression(toks, k + 2, P(toks, k + 1), errors) == Parsed(Some(right), j, errors)
    requires Ends(toks, j + 1, precedence)
    ensures ParseInfixLoop(toks, k, precedence, left, errors) == Parsed(Some(Node(toks, k + 1, left, right)), j, errors)
  {
    LoopTakes(toks, k, precedence, left, errors, right, j, errors);
    LoopStops(toks, j, precedence, Node(toks, k + 1, left, right), errors);
  }

  /**
   * `a op b op' c op'' d` with `op'` looser than both its neighbours groups
   * as `((a op b) op' (c op'' d))`: `5 > 4 == 3 < 4` is `((5 > 4) == (3 < 4))`.
   */
  lemma LooseBetweenTight(toks: seq<Token>, k: nat, precedence: Precedence, errors: seq<ParseError>)
    requires LeafOp(toks, k) && LeafOp(toks, k + 2) && LeafOp(toks, k + 4) && IsLeaf(At(toks, k + 6))
    requires precedence < P(toks, k + 3) && P(toks, k + 3) < P(toks, k + 1) && P(toks, k + 3) < P(toks, k + 5)
    requires Ends(toks, k + 7, precedence)
    ensures ParseExpression(toks, k, precedence, errors)
      == Parsed(Some(Node(toks, k + 3, Node(toks, k + 1, L(toks, k), L(toks, k + 2)),
                          Node(toks, k + 5, L(toks, k + 4), L(toks, k + 6)))), k + 6, errors)
  {
    HeadLeaf(toks, k, precedence, errors);
    TailTight(toks, k + 2, precedence, Node(toks, k + 1, L(toks, k), L(toks, k + 2)), errors);
  }

  /** The loop over `o3 d o4 e o5 f`, `o4` tighter than `o3` and `o5` no looser than `o3`. */
  lemma MixedTail(toks: seq<Token>, left: Expression, errors: seq<ParseError>)
    requires At(toks, 5).kind in InfixKinds && LeafOp(toks, 6) && LeafOp(toks, 8) && IsLeaf(At(toks, 10))
    requires Lowest < P(toks, 5) < P(toks, 7) && P(toks, 9) == P(toks, 5)
    requires Ends(toks, 11, Lowest)
    ensures ParseInfixLoop(toks, 4, Lowest, left, errors)
      == Parsed(Some(Node(toks, 9, Node(toks, 5, left, Node(toks, 7, L(toks, 6), L(toks, 8))), L(toks, 10))), 10, errors)
  {
    LoopTakesTight(toks, 4, Lowest, left, errors);
    TailLeaf(toks, 8, Lowest, Node(toks, 5, left, Node(toks, 7, L(toks, 6), L(toks, 8))), errors);
  }

  /**
   * `a o1 b o2 c o3 d o4 e o5 f` with `o1`, `o3`, `o5` of one precedence and
   * `o2`, `o4` tighter groups as `(((a o1 (b o2 c)) o3 (d o4 e)) o5 f)`.
   */
  lemma MixedGroups(toks: seq<Token>, errors: seq<ParseError>)
    requires LeafOp(toks, 0) && LeafOp(toks, 2) && LeafOp(toks, 4) && LeafOp(toks, 6) && LeafOp(toks, 8)
    requires IsLeaf(At(toks, 10))
    requires Lowest < P(toks, 1) < P(toks, 3) && P(toks, 5) == P(toks, 1) && P(toks, 7) == P(toks, 3)
    requires P(toks, 9) == P(toks, 5) && Ends(toks, 11, Lowest)
    ensures ParseExpression(toks, 0, Lowest, errors)
      == Parsed(Some(Node(toks, 9,
                          Node(toks, 5, Node(toks, 1, L(toks, 0), Node(toks, 3, L(toks, 2), L(toks, 4))),
                               Node(toks, 7, L(toks, 6), L(toks, 8))),
                          L(toks, 10))), 10, errors)
  {
    HeadTight(toks, 0, Lowest, errors);
    MixedTail(toks, Node(toks, 1, L(toks, 0), Node(toks, 3, L(toks, 2), L(toks, 4))), errors);
  }

  /** The loop over `o3 d o4 e o5 f o6 g` with `o3` looser than `o5` and `o5` than `o4`, `o6`. */
  lemma SumsTail(toks: seq<Token>, left: Expression, errors: seq<ParseError>)
    requires At(toks, 5).kind in InfixKinds && LeafOp(toks, 6) && LeafOp(toks, 8) && LeafOp(toks, 10)
    requires IsLeaf(At(toks, 12))
    requires Lowest < P(toks, 5) < P(toks, 9) && P(toks, 9) < P(toks, 7) && P(toks, 9) < P(toks, 11)
    requires Ends(toks, 13, Lowest)
    ensures ParseInfixLoop(toks, 4, Lowest, left, errors)
      == Parsed(Some(Node(toks, 5, left, Node(toks, 9, Node(toks, 7, L(toks, 6), L(toks, 8)),
                                              Node(toks, 11, L(toks, 10), L(toks, 12))))), 12, errors)
  {
    LooseBetweenTight(toks, 6, P(toks, 5), errors);
    TailWith(toks, 4, Lowest, left, Node(toks, 9, Node(toks, 7, L(toks, 6), L(toks, 8)),
                                         Node(toks, 11, L(toks, 10), L(toks, 12))), 12, errors);
  }

  /**
   * `a o1 b o2 c o3 d o4 e o5 f o6 g` with `o3` loosest, `o1` and `o5` above
   * it and `o2`, `o4`, `o6` tighter still groups as
   * `((a o1 (b o2 c)) o3 ((d o4 e) o5 (f o6 g)))`.
   */
  lemma EqualityOfSums(toks: seq<Token>, errors: seq<ParseError>)
    requires LeafOp(toks, 0) && LeafOp(toks, 2) && LeafOp(toks, 4) && LeafOp(toks, 6) && LeafOp(toks, 8)
    requires LeafOp(toks, 10) && IsLeaf(At(toks, 12))
    requires Lowest < P(toks, 5) < P(toks, 1) < P(toks, 3)
    requires P(toks, 5) < P(toks, 9) && P(toks, 9) < P(toks, 7) && P(toks, 9) < P(toks, 11)
    requires Ends(toks, 13, Lowest)
    ensures ParseExpression(toks, 0, Lowest, errors)
      == Parsed(Some(Node(toks, 5,
                          Node(toks, 1, L(toks, 0), Node(toks, 3, L(toks, 2), L(toks, 4))),
                          Node(toks, 9, Node(toks, 7, L(toks, 6), L(toks, 8)),
                               Node(toks, 11, L(toks, 10), L(toks, 12))))), 12, errors)
  {
    HeadTight(toks, 0, Lowest, errors);
    SumsTail(toks, Node(toks, 1, L(toks, 0), Node(toks, 3, L(toks, 2), L(toks, 4))), errors);
  }

  // The expressions of the operator-precedence expectations. For each, the
  // token list, the facts the shape lemma needs, its tree in the builders'
  // terms, the parse, and the rendering the expectation compares against.

  function Id(x: string): Token { Token(Ident, x) }
  function Op(kind: TokenType): Token { Token(kind, kind.Name()) }
  function Digit(d: string): Token { Token(Int, d) }

  /** `x o1 y o2 z` of identifiers: the facts `LeftAssociative` and `TighterBindsFirst` need. */
  lemma ThreeIdentifiers(toks: seq<Token>, x: string, o1: Token, y: string, o2: Token, z: string)
    requires toks == [Id(x), o1, Id(y), o2, Id(z)] && o1.kind in InfixKinds && o2.kind in InfixKinds
    ensures TwoOperators(toks, 0)
    ensures At(toks, 1) == o1 && At(toks, 3) == o2
    ensures L(toks, 0) == Var(x) && L(toks, 2) == Var(y) && L(toks, 4) == Var(z)
  {
    assert At(toks, 0) == Id(x) && At(toks, 2) == Id(y) && At(toks, 4) == Id(z) && At(toks, 5).kind == Eof;
  }

  /** `a + b + c` is `((a + b) + c)`. */
  lemma SumSumParse(toks: seq<Token>)
    requires toks == [Id("a"), Op(Plus), Id("b"), Op(Plus), Id("c")]
    ensures ParseExpression(toks, 0, Lowest, [])
         == Parsed(Some(Binary(Plus, "+", Binary(Plus, "+", Var("a"), Var("b")), Var("c"))), 4, [])
  {
    ThreeIdentifiers(toks, "a", Op(Plus), "b", Op(Plus), "c");
    LeftAssociative(toks, 0, []);
  }

  lemma SumSumRendering()
    ensures Binary(Plus, "+", Binary(Plus, "+", Var("a"), Var("b")), Var("c")).String() == "((a + b) + c)"
  {
  }

  /** `a + b - c` is `((a + b) - c)`. */
  lemma SumDifferenceParse(toks: seq<Token>)
    requires toks == [Id("a"), Op(Plus), Id("b"), Op(Minus), Id("c")]
    ensures ParseExpression(toks, 0, Lowest, [])
         == Parsed(Some(Binary(Minus, "-", Binary(Plus, "+", Var("a"), Var("b")), Var("c"))), 4, [])
  {
    ThreeIdentifiers(toks, "a", Op(Plus), "b", Op(Minus), "c");
    LeftAssociative(toks, 0, []);
  }

  lemma SumDifferenceRendering()
    ensures Binary(Minus, "-", Binary(Plus, "+", Var("a"), Var("b")), Var("c")).String() == "((a + b) - c)"
  {
  }

  /** `a * b * c` is `((a * b) * c)`. */
  lemma ProductProductParse(toks: seq<Token>)
    requires toks == [Id("a"), Op(Asterisk), Id("b"), Op(Asterisk), Id("c")]
    ensures ParseExpression(toks, 0, Lowest, [])
         == Parsed(Some(Binary(Asterisk, "*", Binary(Asterisk, "*", Var("a"), Var("b")), Var("c"))), 4, [])
  {
    ThreeIdentifiers(toks, "a", Op(Asterisk), "b", Op(Asterisk), "c");
    LeftAssociative(toks, 0, []);
  }

  lemma ProductProductRendering()
    ensures Binary(Asterisk, "*", Binary(Asterisk, "*", Var("a"), Var("b")), Var("c")).String() == "((a * b) * c)"
  {
  }

  /** `a * b / c` is `((a * b) / c)`. */
  lemma ProductQuotientParse(toks: seq<Token>)
    requires toks == [Id("a"), Op(Asterisk), Id("b"), Op(Slash), Id("c")]
    ensures ParseExpression(toks, 0, Lowest, [])
         == Parsed(Some(Binary(Slash, "/", Binary(Asterisk, "*", Var("a"), Var("b")), Var("c"))), 4, [])
  {
    ThreeIdentifiers(toks, "a", Op(Asterisk), "b", Op(Slash), "c");
    LeftAssociative(toks, 0, []);
  }

  lemma ProductQuotientRendering()
    ensures Binary(Slash, "/", Binary(Asterisk, "*", Var("a"), Var("b")), Var("c")).String() == "((a * b) / c)"
  {
  }

  /** `a + b / c` is `(a + (b / c))`. */
  lemma SumQuotientParse(toks: seq<Token>)
    requires toks == [Id("a"), Op(Plus), Id("b"), Op(Slash), Id("c")]
    ensures ParseExpression(toks, 0, Lowest, [])
         == Parsed(Some(Binary(Plus, "+", Var("a"), Binary(Slash, "/", Var("b"), Var("c")))), 4, [])
  {
    ThreeIdentifiers(toks, "a", Op(Plus), "b", Op(Slash), "c");
    TighterBindsFirst(toks, 0, []);
  }

  lemma SumQuotientRendering()
    ensures Binary(Plus, "+", Var("a"), Binary(Slash, "/", Var("b"), Var("c"))).String() == "(a + (b / c))"
  {
  }

  /** The tokens of `a + b * c + d / e - f`. */
  const MixedOperators: seq<Token> := [
    Id("a"), Op(Plus), Id("b"), Op(Asterisk), Id("c"), Op(Plus), Id("d"), Op(Slash), Id("e"), Op(Minus), Id("f")]

  /** Its tree: `(((a + (b * c)) + (d / e)) - f)`. */
  function MixedOperatorsTree(): Expression {
    Binary(Minus, "-",
           Binary(Plus, "+", Binary(Plus, "+", Var("a"), Binary(Asterisk, "*", Var("b"), Var("c"))),
                  Binary(Slash, "/", Var("d"), Var("e"))),
           Var("f"))
  }

  lemma MixedOperatorsTokens(toks: seq<Token>)
    requires toks == MixedOperators
    ensures At(toks, 0) == Id("a") && At(toks, 2) == Id("b") && At(toks, 4) == Id("c")
    ensures At(toks, 6) == Id("d") && At(toks, 8) == Id("e") && At(toks, 10) == Id("f")
    ensures At(toks, 1) == Op(Plus) && At(toks, 3) == Op(Asterisk) && At(toks, 5) == Op(Plus)
    ensures At(toks, 7) == Op(Slash) && At(toks, 9) == Op(Minus) && At(toks, 11).kind == Eof
  {
  }

  lemma MixedOperatorsShape(toks: seq<Token>)
    requires toks == MixedOperators
    ensures LeafOp(toks, 0) && LeafOp(toks, 2) && LeafOp(toks, 4) && LeafOp(toks, 6) && LeafOp(toks, 8)
    ensures IsLeaf(At(toks, 10))
    ensures Lowest < P(toks, 1) < P(toks, 3) && P(toks, 5) == P(toks, 1) && P(toks, 7) == P(toks, 3)
    ensures P(toks, 9) == P(toks, 5) && Ends(toks, 11, Lowest)
  {
    MixedOperatorsTokens(toks);
  }

  lemma MixedOperatorsNodes(toks: seq<Token>)
    requires toks == MixedOperators
    ensures Node(toks, 9, Node(toks, 5, Node(toks, 1, L(toks, 0), Node(toks, 3, L(toks, 2), L(toks, 4))),
                               Node(toks, 7, L(toks, 6), L(toks, 8))), L(toks, 10))
         == MixedOperatorsTree()
  {
    MixedOperatorsTokens(toks);
  }

  /** `a + b * c + d / e - f` is one expression, without errors, through its last token. */
  lemma MixedOperatorsParse(toks: seq<Token>)
    requires toks == MixedOperators
    ensures ParseExpression(toks, 0, Lowest, []) == Parsed(Some(MixedOperatorsTree()), 10, [])
  {
    MixedOperatorsShape(toks);
    MixedGroups(toks, []);
    MixedOperatorsNodes(toks);
  }

  lemma MixedOperatorsRendering()
    ensures MixedOperatorsTree().String() == "(((a + (b * c)) + (d / e)) - f)"
  {
    MixedLeftRendering();
    MixedSpelling();
  }

  lemma MixedLeftRendering()
    ensures Binary(Plus, "+", Binary(Plus, "+", Var("a"), Binary(Asterisk, "*", Var("b"), Var("c"))),
                   Binary(Slash, "/", Var("d"), Var("e"))).String()
         == "((a + (b * c)) + (d / e))"
  {
    MixedInnerRendering();
    MixedLeftSpelling();
  }

  lemma MixedInnerRendering()
    ensures Binary(Plus, "+", Var("a"), Binary(Asterisk, "*", Var("b"), Var("c"))).String() == "(a + (b * c))"
  {
  }

  /** `d0 o1 d1 o2 d2 o3 d3` of single digits: the leaves and operators `LooseBetweenTight` needs. */
  lemma FourDigits(toks: seq<Token>, d0: char, o1: Token, d1: char, o2: Token, d2: char, o3: Token, d3: char)
    requires toks == [Digit([d0]), o1, Digit([d1]), o2, Digit([d2]), o3, Digit([d3])]
    requires IsDigit(d0) && IsDigit(d1) && IsDigit(d2) && IsDigit(d3)
    requires o1.kind in InfixKinds && o2.kind in InfixKinds && o3.kind in InfixKinds
    ensures LeafOp(toks, 0) && LeafOp(toks, 2) && LeafOp(toks, 4) && IsLeaf(At(toks, 6)) && Ends(toks, 7, Lowest)
    ensures At(toks, 1) == o1 && At(toks, 3) == o2 && At(toks, 5) == o3
    ensures L(toks, 0) == Num([d0], d0 as int - '0' as int) && L(toks, 2) == Num([d1], d1 as int - '0' as int)
    ensures L(toks, 4) == Num([d2], d2 as int - '0' as int) && L(toks, 6) == Num([d3], d3 as int - '0' as int)
  {
    assert At(toks, 0) == Digit([d0]) && At(toks, 2) == Digit([d1]) && At(toks, 4) == Digit([d2]);
    assert At(toks, 6) == Digit([d3]) && At(toks, 7).kind == Eof;
    DigitLeaf(d0);
    DigitLeaf(d1);
    DigitLeaf(d2);
    DigitLeaf(d3);
  }

  /** `5 > 4 == 3 < 4` is `((5 > 4) == (3 < 4))`. */
  lemma ComparisonsEqualParse(toks: seq<Token>)
    requires toks == [Digit("5"), Op(Gt), Digit("4"), Op(Eq), Digit("3"), Op(Lt), Digit("4")]
    ensures ParseExpression(toks, 0, Lowest, [])
         == Parsed(Some(Binary(Eq, "==", Binary(Gt, ">", Num("5", 5), Num("4", 4)),
                               Binary(Lt, "<", Num("3", 3), Num("4", 4)))), 6, [])
  {
    FourDigits(toks, '5', Op(Gt), '4', Op(Eq), '3', Op(Lt), '4');
    LooseBetweenTight(toks, 0, Lowest, []);
  }

  lemma ComparisonsEqualRendering()
    ensures Binary(Eq, "==", Binary(Gt, ">", Num("5", 5), Num("4", 4)), Binary(Lt, "<", Num("3", 3), Num("4", 4))).String()
         == "((5 > 4) == (3 < 4))"
  {
  }

  /** `5 < 4 != 3 > 4` is `((5 < 4) != (3 > 4))`. */
  lemma ComparisonsNotEqualParse(toks: seq<Token>)
    requires toks == [Digit("5"), Op(Lt), Digit("4"), Op(NotEq), Digit("3"), Op(Gt), Digit("4")]
    ensures ParseExpression(toks, 0, Lowest, [])
         == Parsed(Some(Binary(NotEq, "!=", Binary(Lt, "<", Num("5", 5), Num("4", 4)),
                               Binary(Gt, ">", Num("3", 3), Num("4", 4)))), 6, [])
  {
    FourDigits(toks, '5', Op(Lt), '4', Op(NotEq), '3', Op(Gt), '4');
    LooseBetweenTight(toks, 0, Lowest, []);
  }

  lemma ComparisonsNotEqualRendering()
    ensures Binary(NotEq, "!=", Binary(Lt, "<", Num("5", 5), Num("4", 4)), Binary(Gt, ">", Num("3", 3), Num("4", 4))).String()
         == "((5 < 4) != (3 > 4))"
  {
  }

  /** The tokens of `3 + 4 * 5 == 3 * 1 + 4 * 5`. */
  const SumsEqual: seq<Token> := [
    Digit("3"), Op(Plus), Digit("4"), Op(Asterisk), Digit("5"), Op(Eq),
    Digit("3"), Op(Asterisk), Digit("1"), Op(Plus), Digit("4"), Op(Asterisk), Digit("5")]

  /** Its tree: `((3 + (4 * 5)) == ((3 * 1) + (4 * 5)))`. */
  function SumsEqualTree(): Expression {
    Binary(Eq, "==", Binary(Plus, "+", Num("3", 3), Binary(Asterisk, "*", Num("4", 4), Num("5", 5))),
           Binary(Plus, "+", Binary(Asterisk, "*", Num("3", 3), Num("1", 1)), Binary(Asterisk, "*", Num("4", 4), Num("5", 5))))
  }

  lemma SumsEqualTokens(toks: seq<Token>)
    requires toks == SumsEqual
    ensures At(toks, 0) == Digit("3") && At(toks, 2) == Digit("4") && At(toks, 4) == Digit("5") && At(toks, 6) == Digit("3")
    ensures At(toks, 8) == Digit("1") && At(toks, 10) == Digit("4") && At(toks, 12) == Digit("5")
    ensures At(toks, 1) == Op(Plus) && At(toks, 3) == Op(Asterisk) && At(toks, 5) == Op(Eq)
    ensures At(toks, 7) == Op(Asterisk) && At(toks, 9) == Op(Plus) && At(toks, 11) == Op(Asterisk)
    ensures At(toks, 13).kind == Eof
  {
  }

  lemma SumsEqualShape(toks: seq<Token>)
    requires toks == SumsEqual
    ensures LeafOp(toks, 0) && LeafOp(toks, 2) && LeafOp(toks, 4) && LeafOp(toks, 6) && LeafOp(toks, 8)
    ensures LeafOp(toks, 10) && IsLeaf(At(toks, 12))
    ensures Lowest < P(toks, 5) < P(toks, 1) < P(toks, 3)
    ensures P(toks, 5) < P(toks, 9) && P(toks, 9) < P(toks, 7) && P(toks, 9) < P(toks, 11)
    ensures Ends(toks, 13, Lowest)
  {
    SumsEqualTokens(toks);
  }

  lemma SumsEqualNodes(toks: seq<Token>)
    requires toks == SumsEqual
    ensures Node(toks, 5,
                 Node(toks, 1, L(toks, 0), Node(toks, 3, L(toks, 2), L(toks, 4))),
                 Node(toks, 9, Node(toks, 7, L(toks, 6), L(toks, 8)), Node(toks, 11, L(toks, 10), L(toks, 12))))
         == SumsEqualTree()
  {
    SumsEqualTokens(toks);
    SumsEqualLeaves(toks);
  }

  lemma SumsEqualLeaves(toks: seq<Token>)
    requires toks == SumsEqual
    ensures L(toks, 0) == Num("3", 3) && L(toks, 2) == Num("4", 4) && L(toks, 4) == Num("5", 5) && L(toks, 6) == Num("3", 3)
    ensures L(toks, 8) == Num("1", 1) && L(toks, 10) == Num("4", 4) && L(toks, 12) == Num("5", 5)
  {
    SumsEqualTokens(toks);
    DigitLeaf('1');
    DigitLeaf('3');
    DigitLeaf('4');
    DigitLeaf('5');
  }

  /** `3 + 4 * 5 == 3 * 1 + 4 * 5` is one expression, without errors, through its last token. */
  lemma SumsEqualParse(toks: seq<Token>)
    requires toks == SumsEqual
    ensures ParseExpression(toks, 0, Lowest, []) == Parsed(Some(SumsEqualTree()), 12, [])
  {
    SumsEqualShape(toks);
    EqualityOfSums(toks, []);
    SumsEqualNodes(toks);
  }

  lemma SumsEqualRendering()
    ensures SumsEqualTree().String() == "((3 + (4 * 5)) == ((3 * 1) + (4 * 5)))"
  {
    SumsEqualLeftRendering();
    SumsEqualRightRendering();
    SumsEqualSpelling();
  }

  lemma SumsEqualLeftRendering()
    ensures Binary(Plus, "+", Num("3", 3), Binary(Asterisk, "*", Num("4", 4), Num("5", 5))).String() == "(3 + (4 * 5))"
  {
  }

  lemma SumsEqualRightRendering()
    ensures Binary(Plus, "+", Binary(Asterisk, "*", Num("3", 3), Num("1", 1)), Binary(Asterisk, "*", Num("4", 4), Num("5", 5))).String()
         == "((3 * 1) + (4 * 5))"
  {
  }

  // A long string literal is compared with its pieces a few at a time, one
  // lemma per step: `A + B + C + D + E + ")"` is split off from the right.

  lemma MixedSpelling()
    ensures "(((a + (b * c)) + (d / e)) - f)" == "(" + "((a + (b * c)) + (d / e))" + " " + "-" + " " + "f" + ")"
  {
    MixedSpelling1();
    MixedSpelling2();
    MixedSpelling3();
    MixedSpelling4();
  }

  lemma MixedSpelling1() ensures "(((a + (b * c)) + (d / e)) - f)" == "(((a + (b * c)) + (d / e)) - f" + ")" {}
  lemma MixedSpelling2() ensures "(((a + (b * c)) + (d / e)) - f" == "(((a + (b * c)) + (d / e)) - " + "f" {}
  lemma MixedSpelling3() ensures "(((a + (b * c)) + (d / e)) - " == "(((a + (b * c)) + (d / e))" + " " + "-" + " " {}
  lemma MixedSpelling4() ensures "(((a + (b * c)) + (d / e))" == "(" + "((a + (b * c)) + (d / e))" {}

  lemma MixedLeftSpelling()
    ensures "((a + (b * c)) + (d / e))" == "(" + "(a + (b * c))" + " " + "+" + " " + "(d / e)" + ")"
  {
    MixedLeftSpelling1();
    MixedLeftSpelling2();
    MixedLeftSpelling3();
    MixedLeftSpelling4();
  }

  lemma MixedLeftSpelling1() ensures "((a + (b * c)) + (d / e))" == "((a + (b * c)) + (d / e)" + ")" {}
  lemma MixedLeftSpelling2() ensures "((a + (b * c)) + (d / e)" == "((a + (b * c)) + " + "(d / e)" {}
  lemma MixedLeftSpelling3() ensures "((a + (b * c)) + " == "((a + (b * c))" + " " + "+" + " " {}
  lemma MixedLeftSpelling4() ensures "((a + (b * c))" == "(" + "(a + (b * c))" {}

  lemma SumsEqualSpelling()
    ensures "((3 + (4 * 5)) == ((3 * 1) + (4 * 5)))" == "(" + "(3 + (4 * 5))" + " " + "==" + " " + "((3 * 1) + (4 * 5))" + ")"
  {
    SumsEqualSpelling1();
    SumsEqualSpelling2();
    SumsEqualSpelling3();
    SumsEqualSpelling4();
  }

  lemma SumsEqualSpelling1() ensures "((3 + (4 * 5)) == ((3 * 1) + (4 * 5)))" == "((3 + (4 * 5)) == ((3 * 1) + (4 * 5))" + ")" {}
  lemma SumsEqualSpelling2() ensures "((3 + (4 * 5)) == ((3 * 1) + (4 * 5))" == "((3 + (4 * 5)) == " + "((3 * 1) + (4 * 5))" {}
  lemma SumsEqualSpelling3() ensures "((3 + (4 * 5)) == " == "((3 + (4 * 5))" + " " + "==" + " " {}
  lemma SumsEqualSpelling4() ensures "((3 + (4 * 5))" == "(" + "(3 + (4 * 5))" {}
}
