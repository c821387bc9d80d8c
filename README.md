# Monkey front end in Dafny

This project models the front end of the Monkey interpreter: its token set and keyword table, its lexer, its syntax tree with the tree's `string()` rendering, and its Pratt parser. Each part is written in the source's own form, and the model proves what those parts promise.

- **Tokens** (`token.dfy`, module `Token`). The token kinds are a datatype. `Name` gives the string value each kind has in the `Tokens` enumeration, which is what error messages print. The keyword table is a `map`, and `LookupIdent` classifies an identifier lexeme against it.
- **Lexer** (`lexer.dfy`, `lexer_properties.dfy`).
  - `Lex(input, p)` states what one call of `nextToken` does when the cursor is at position `p`. It returns the token and the cursor position that follows it.
  - `LexFrom(input, p)` lists the tokens produced until the input is exhausted.
  - Class `Lexer` keeps the source's fields: `position`, `readPosition` and `ch`. Its methods are proved to follow `Lex`.
  - `Lexer.Valid` holds after construction and after every `readChar`: `ch` is the character at `position`, or NUL past the end.
- **Syntax tree** (`ast.dfy`, module `Ast`).
  - Statements and expressions are datatypes with `Option` children, each with `TokenLiteral` and `String`.
  - `RenderProgram` is the loop of `Program.string()`. It is proved equal to the concatenation of the statement renderings.
- **Parser** (`parser_spec.dfy`, `parser.dfy`, `parser_properties.dfy`).
  - Module `ParserSpec` states what every parser method computes. It works on the token sequence the lexer yields, padded with EOF past its end (`At`), with `k` as the index of `curToken`.
  - Class `Parser` owns a `Lexer` and has the fields `errors`, `curToken` and `peekToken`. A ghost index ties these to the token sequence. Every method is proved to compute what the matching `ParserSpec` function says.
  - The skip-to-semicolon loops of `parseLetStatement` and `parseReturnStatement` never end when no semicolon follows: the lexer keeps returning EOF. In the source, that is a real non-termination.
  - The model detects the state from which the loop cannot end: the current token is EOF, the next token is EOF, and the lexer is exhausted. It then returns `loops == true` instead of running forever. The specification side calls this outcome `Loops`. `SkipFindsFirstSemicolon` proves that this happens exactly when no semicolon lies ahead.
  - Errors are a datatype, `ParseError`. `Message` gives the exact text the source pushes onto `errors`.
- **Operator precedence** (`precedence.dfy`, module `PrecedenceExamples`). Chains of three to six operators are proved to group as the precedence table says, for any leaves and operators of the right precedences. The expressions of the parser's precedence expectations are then parsed and rendered concretely.

Four facts about the code shape the model:

- The parser skips a `let` statement's value: it steps over every token up to the next semicolon without parsing it. It never sets `LetStatement.value` or `ReturnStatement.returnValue`.
- Parsing does not always end: `let x = 5` and `return 5` without a semicolon loop forever (`LetWithoutSemicolonLoops`, `ReturnWithoutSemicolonLoops`, `ReturnFiveLoops`).
- No prefix handler is registered for `(`, so a parenthesised rendering does not parse back: it yields the error `no prefix parse function for ( found` (`NoGroupedExpressions`).
- A NUL character inside the input lexes as EOF, and lexing goes on after it (`NulInsideInput`). Without NULs, EOF is only produced last (`EofOnlyLast`).

I/O is not modelled. The lexer takes the whole input as a parameter, exactly as the source's constructor does. The read-eval-print loop is not part of this model.

## Model

| member | source | states |
|---|---|---|
| Token.LookupIdent | token/token.ts:59-64 | the result is `IDENT` or a keyword kind; it is a keyword kind exactly when the lexeme is in the table, and then it is the table's entry |
| Token.KeywordLexeme | token/token.ts:49-57 | every keyword kind has a reserved word in the table that maps back to it |
| Token.LookupIdentKeywordIff | token/token.ts:49-64 | a lexeme is looked up as a given keyword kind if and only if it is that kind's reserved word |
| Token.KeywordsInjective | token/token.ts:49-57 | distinct reserved words map to distinct kinds |
| Token.KeywordTable | token/token.ts:49-62 | `fn`, `let`, `true`, `false`, `if`, `else` and `return` give FUNCTION, LET, TRUE, FALSE, IF, ELSE and RETURN |
| Token.NonKeywordsAreIdentifiers | token/token.ts:59-64 | `five`, `add` and `x` are identifiers, and so are `Let` and `lets`: matching is exact and case-sensitive |
| Lexing.WhitespaceEnd | lexer/lexer.ts:52-59 | skipping whitespace never moves backwards and stops on a character that is not whitespace |
| Lexing.ScanLetters | lexer/lexer.ts:44-50 | an identifier run stops on the first character that is not a letter |
| Lexing.ScanDigits | lexer/lexer.ts:65-71 | a number run stops on the first character that is not a digit, and reaches the end of the input when every character from its start is a digit |
| Lexing.WhitespaceRun | lexer/lexer.ts:52-59 | every character skipped as whitespace is a space, tab, `\n` or `\r` |
| Lexing.LetterRun | lexer/lexer.ts:38-50 | every character of an identifier run is an ASCII letter or `_` |
| Lexing.DigitRun | lexer/lexer.ts:61-71 | every character of a number run is an ASCII digit |
| Lexing.IsLetter | lexer/lexer.ts:38-42 | a letter character (`a`-`z`, `A`-`Z`, `_`) is never a digit, whitespace or NUL, so identifier, number and whitespace runs cannot overlap |
| Lexing.IsDigit | lexer/lexer.ts:61-63 | a digit character has a decimal value from 0 to 9 and is neither whitespace nor NUL |
| Lexing.IsWhitespace | lexer/lexer.ts:52-59 | the four whitespace characters lie above NUL and no higher than the space |
| Lexing.Lex | lexer/lexer.ts:73-171 | every call of `nextToken` moves the cursor forward |
| Lexing.LexFrom | lexer/lexer.ts:73-171 | a lexer that is not exhausted yields at least one more token |
| Lexing.EofForever | lexer/lexer.ts:13-21 | once the input is exhausted, every call returns EOF with the empty literal, and the input stays exhausted |
| Lexing.YieldsLexFrom | lexer/lexer.ts:73-171 | a lexer at position `p` yields, call by call, exactly the tokens `LexFrom` lists from `p` |
| Lexing.LexStep | lexer/lexer.ts:73-171 | one call returns the next listed token, or EOF once the list has run out |
| Lexing.ExhaustedYields | lexer/lexer.ts:13-21 | the lexer is exhausted exactly when no listed token is left |
| Lexing.Lexer.constructor | lexer/lexer.ts:8-11 | a new lexer is at position 0 with `ch` the first character, or NUL |
| Lexing.Lexer.ReadChar | lexer/lexer.ts:13-21 | `position` takes the old `readPosition`; `readPosition == position + 1`; `ch` is the character there, or NUL past the end |
| Lexing.Lexer.PeekChar | lexer/lexer.ts:23-29 | returns the character after the cursor, or NUL, without moving |
| Lexing.Lexer.ReadIdentifier | lexer/lexer.ts:44-50 | moves to the end of the letter run and returns the slice it passed over |
| Lexing.Lexer.SkipWhitespace | lexer/lexer.ts:52-59 | moves to the first character that is not whitespace |
| Lexing.Lexer.ReadNumber | lexer/lexer.ts:65-71 | moves to the end of the digit run and returns the slice it passed over |
| Lexing.Lexer.NextToken | lexer/lexer.ts:73-171 | returns `Lex`'s token from the old position and leaves the cursor where `Lex` says, keeping the cursor invariant |
| LexerProperties.TokenSpellsSource | lexer/lexer.ts:73-171 | a token other than EOF is spelled by exactly the characters it consumed after the whitespace; EOF has the empty literal, consumes one NUL or steps past the end |
| LexerProperties.LiteralHasNoWhitespace | lexer/lexer.ts:52-59 | no token literal contains a whitespace character |
| LexerProperties.TwoCharacterOperators | lexer/lexer.ts:79-112 | `==` is one EQ token and `!=` one NOT_EQ token, each consuming two characters; a lone `=` is ASSIGN and a lone `!` is BANG |
| LexerProperties.SingleCharacterTokens | lexer/lexer.ts:93-145 | any other character that starts no identifier or number and is not NUL is one token spelled by that character, the cursor moves by one, and it is ILLEGAL exactly when it is not one of `=+-!/*<>,;(){}` |
| LexerProperties.OperatorTokensSpellName | lexer/lexer.ts:79-145 | an operator or delimiter token's literal is the string value of its kind |
| LexerProperties.IdentifierTokens | lexer/lexer.ts:152-159 | a letter starts a token that is the maximal run of letters, classified by `LookupIdent`, with the cursor on the first non-letter |
| LexerProperties.NumberTokens | lexer/lexer.ts:160-164 | a digit starts an INT token that is the maximal run of digits, with the cursor on the first non-digit |
| LexerProperties.NulInsideInput | lexer/lexer.ts:146-151 | a NUL inside the input gives EOF, and lexing goes on after it |
| LexerProperties.DigitEndsIdentifier | lexer/lexer.ts:38-50 | `x1` lexes as IDENT `x` then INT `1` |
| LexerProperties.Strip | lexer/lexer.ts:52-59 | removing whitespace keeps only characters of the input that are not whitespace |
| LexerProperties.StripLeadingWhitespace | lexer/lexer.ts:52-59 | the whitespace skipped before a token contributes nothing to the stripped input |
| LexerProperties.StripToken | lexer/lexer.ts:73-171 | a token other than EOF stands unchanged at the head of the stripped rest of the input |
| LexerProperties.StripPrefix | lexer/lexer.ts:52-59 | a prefix that contains no whitespace stands whole at the head of the stripped text |
| LexerProperties.LiteralsSpellInput | lexer/lexer.ts:73-171 | with no NUL in the input, the token literals concatenate to the input with its whitespace removed |
| LexerProperties.EofOnlyLast | lexer/lexer.ts:146-151 | with no NUL in the input, EOF can only be the last token |
| LexerProperties.LetStatementTokens | lexer/lexer.test.ts:32-36 | `let five = 5;` lexes as LET, IDENT `five`, ASSIGN, INT `5`, SEMICOLON |
| Ast.RenderProgram | ast/ast.ts:27-33 | the loop's result is the program's rendering |
| Ast.ExpressionText | ast/ast.ts:36-177 | an integer or boolean node renders as its token's literal and an identifier as its value; every node's token literal is its token's; a prefix node renders `(`, its operator, its operand (or nothing), `)`; an infix node renders `(`, its left operand, a space, its operator, a space, its right operand (or nothing), `)` |
| Ast.PrefixText | ast/ast.ts:137-139 | the parts of a prefix node's rendering, position by position: `(`, the operator, the operand's rendering or nothing, `)` |
| Ast.InfixText | ast/ast.ts:156-160 | the parts of an infix node's rendering, position by position: `(`, the left operand, a space, the operator, a space, the right operand's rendering or nothing, `)` |
| Ast.StatementText | ast/ast.ts:53-104 | every statement's token literal is its token's; a let statement renders its keyword literal, a space, and ends with `;`; a return statement renders its literal and ` ;`; an expression statement renders as its expression, or nothing |
| Ast.JoinAppend | ast/ast.ts:27-33 | concatenating renderings distributes over splitting the statement list |
| Ast.ProgramRendering | ast/ast.ts:27-33 | a program renders as its statements before `i`, statement `i`, then the statements after it, with no separator |
| Ast.ProgramTokenLiteral | ast/ast.ts:19-25 | a program's token literal is its first statement's, or empty when it has none |
| Ast.OneStatementRendering | ast/ast.ts:27-33 | a program of one statement renders as that statement |
| Ast.TwoStatementRendering | ast/ast.ts:27-33 | a program of two statements renders as the two renderings one after the other |
| Ast.LetMyVarString | ast/ast.ts:66-70 | `let myVar = anotherVar;` renders as it is written |
| Ast.LetStatementRendering | ast/ast.test.ts:5-23 | a program holding that one statement renders as `let myVar = anotherVar;` |
| Ast.AbsentChildrenRendering | ast/ast.ts:66-87 | a return statement without a value renders `<literal> ;`; a let statement without name and value renders `<literal>  = ;` |
| ParserSpec.PrecedenceTable | parser/parser.ts:31-40 | a kind's precedence is its table entry, or LOWEST when the kind is not in `PrecedencesHash` |
| ParserSpec.PrefixKindsTable | parser/parser.ts:57-63 | the prefix-handler test holds exactly for the six registered kinds |
| ParserSpec.PeekMessageText | parser/parser.ts:98-102 | a mismatch message is `expected next token to be `, the expected kind's name, `, got `, the next token's kind name and ` instead`, piece by piece |
| ParserSpec.NoPrefixMessageText | parser/parser.ts:253-255 | a missing-prefix-handler message is `no prefix parse function for `, the kind's name and ` found`, piece by piece |
| ParserSpec.ParseInt | parser/parser.ts:153-156 | on a string of digits, `parseInt` gives its decimal value |
| ParserSpec.LeafText | parser/parser.ts:114-160 | a leaf node renders as its token's literal and has it as its token literal; an IDENT gives an identifier valued by its literal, an INT an integer with the literal's decimal value when it is all digits, and any other kind a boolean that holds exactly for TRUE |
| ParserSpec.ParseExpression | parser/parser.ts:162-180 | parsing an expression never moves back |
| ParserSpec.ParseInfixLoop | parser/parser.ts:169-179 | the loop never moves back and always yields an expression |
| ParserSpec.ParsePrefixExpression | parser/parser.ts:193-204 | a prefix expression consumes at least its operator |
| ParserSpec.ParseInfixExpression | parser/parser.ts:206-220 | an infix expression consumes at least its operator |
| ParserSpec.SkipToSemicolon | parser/parser.ts:137-139 | when the skip stops, it stops at or after its start, on a semicolon |
| ParserSpec.ParseExpressionStatement | parser/parser.ts:182-191 | an expression statement never moves back |
| ParserSpec.ParseStatement | parser/parser.ts:222-231 | a statement that returns never moves back |
| ParserSpec.ProgramEnd | parser/parser.ts:235 | on EOF the program loop stops with what it has collected |
| ParserSpec.InfixStep | parser/parser.ts:169-178 | when the next token continues the expression, the loop parses one infix expression and goes on from it |
| ParserSpec.PrefixStep | parser/parser.ts:162-168 | after the prefix handler, `parseExpression` is the infix loop from where the handler stopped |
| ParserSpec.SkipStep | parser/parser.ts:137-139 | stepping over a token that is not a semicolon leaves the skip's target unchanged |
| ParserSpec.NoSemicolonAhead | parser/parser.ts:137-139 | when both tokens are EOF and the stream has ended, no semicolon lies ahead |
| ParserSpec.ExpressionStatementStep | parser/parser.ts:182-191 | a statement that starts with neither `let` nor `return` is the expression, plus one semicolon if one follows |
| ParserSpec.StatementDispatch | parser/parser.ts:222-231 | on any other token, `parseStatement` is `parseExpressionStatement` |
| ParserSpec.ProgramStep | parser/parser.ts:235-241 | on a token other than EOF the program loop takes a turn |
| ParserSpec.StatementTurn | parser/parser.ts:235-241 | a turn keeps the statement when there is one and goes on one token after the statement's end |
| ParserSpec.StatementLoops | parser/parser.ts:235-241 | a statement whose skip cannot end makes the whole program loop |
| ParserSpec.StatementOutcome | parser/parser.ts:235-241 | a statement that loops makes the program loop; one that returns leaves the program's result that of the loop going on one token after the statement, with the statement kept when there is one |
| Parsing.Parser.constructor | parser/parser.ts:52-56 | the parser reads the first two tokens of the lexer's stream, with no errors |
| Parsing.Parser.NextToken | parser/parser.ts:75-78 | `curToken` takes the old `peekToken` and `peekToken` the lexer's next token; errors are unchanged |
| Parsing.Parser.CurTokenIs | parser/parser.ts:80-82 | holds exactly when the current token of the stream has the given kind |
| Parsing.Parser.PeekTokenIs | parser/parser.ts:84-86 | holds exactly when the token after the current one has the given kind |
| Parsing.Parser.Errors | parser/parser.ts:44 | one string per recorded error, in order, each the exact message of that error |
| Parsing.Parser.ExpectPeek | parser/parser.ts:88-96 | on a match it advances exactly one token with no new error and returns true; otherwise it appends exactly one mismatch error, stays and returns false |
| Parsing.Parser.PeekError | parser/parser.ts:98-102 | appends the mismatch error naming the expected kind and the next token's kind |
| Parsing.Parser.NoPrefixParseFnError | parser/parser.ts:253-255 | appends the missing-prefix-handler error naming the kind |
| Parsing.Parser.PeekPrecedence | parser/parser.ts:104-107 | the next token's precedence, from the table |
| Parsing.Parser.CurPrecedence | parser/parser.ts:109-112 | the current token's precedence, from the table |
| Parsing.Parser.ParseIdentifier | parser/parser.ts:114-120 | an identifier node on the current token whose rendering and token literal are both the token's literal, and on an IDENT token the leaf the specification gives |
| Parsing.Parser.ParseIntegerLiteral | parser/parser.ts:153-156 | an integer node that renders as the token's literal; when the literal is all digits, its value is the literal's decimal value |
| Parsing.Parser.ParseBoolean | parser/parser.ts:158-160 | a boolean node that renders as the token's literal; on a TRUE or FALSE token from the keyword table its value holds exactly when the literal is `true` |
| Parsing.Parser.ParseExpression | parser/parser.ts:162-180 | computes `ParserSpec.ParseExpression`: the expression, the new position and the new errors |
| Parsing.Parser.ParseInfixLoop | parser/parser.ts:169-179 | the loop computes `ParserSpec.ParseInfixLoop` |
| Parsing.Parser.InfixTurn | parser/parser.ts:176-177 | one turn moves forward and keeps the loop's final result unchanged |
| Parsing.Parser.ParsePrefix | parser/parser.ts:57-63 | calls the handler registered for the current kind: a prefix expression for `!` and `-`, a leaf without moving otherwise |
| Parsing.Parser.ParsePrefixExpression | parser/parser.ts:193-204 | computes `ParserSpec.ParsePrefixExpression` |
| Parsing.Parser.ParseInfixExpression | parser/parser.ts:206-220 | computes `ParserSpec.ParseInfixExpression` |
| Parsing.Parser.SkipToSemicolon | parser/parser.ts:137-139 | stops on the first semicolon at or after the current token, or reports that the source loop never ends exactly when no semicolon lies ahead |
| Parsing.Parser.SkipTurn | parser/parser.ts:137-139 | one turn either detects the endless state or steps one token forward, keeping the skip's target |
| Parsing.Parser.ParseLetStatement | parser/parser.ts:122-142 | computes `ParserSpec.ParseLetStatement`, including whether it loops |
| Parsing.Parser.ParseReturnStatement | parser/parser.ts:144-151 | computes `ParserSpec.ParseReturnStatement`, including whether it loops |
| Parsing.Parser.ParseExpressionStatement | parser/parser.ts:182-191 | computes `ParserSpec.ParseExpressionStatement` |
| Parsing.Parser.ParseStatement | parser/parser.ts:222-231 | computes `ParserSpec.ParseStatement` |
| Parsing.Parser.ParseProgram | parser/parser.ts:233-243 | computes `ParseProgramFrom` from an empty statement list: the statements, the final position, the errors, and whether it loops |
| Parsing.Parser.ProgramTurn | parser/parser.ts:236-239 | one turn either reports that the program loops, or leaves the program's final result that of the loop going on after the statement, with the statement kept when there is one |
| Parsing.ParseInput | parser/parser.ts:52-56 | a fresh lexer and parser on `input` give the program and error messages of `Parse(input)`, or report that the source loops |
| ParserProperties.InfixCoverage | parser/parser.ts:65-72 | a kind has a precedence above LOWEST if and only if it has an infix handler, so the `infix === null` branch at parser/parser.ts:173-175 is dead |
| ParserProperties.SkipFindsFirstSemicolon | parser/parser.ts:137-139 | the skip stops on the first semicolon at or after its start, and finds none exactly when none is left |
| ParserProperties.LeafExpression | parser/parser.ts:162-180 | an identifier, integer or boolean followed by nothing that binds tighter is an expression of its own |
| ParserProperties.NoPrefixHandler | parser/parser.ts:162-167 | a token without a prefix handler yields no expression and exactly one error naming its kind, without moving |
| ParserProperties.NoGroupedExpressions | parser/parser.ts:57-63 | `(` yields no expression and the error `no prefix parse function for ( found` |
| ParserProperties.ExpressionErrorsGrow | parser/parser.ts:162-180 | parsing an expression only appends to the error list |
| ParserProperties.InfixLoopErrorsGrow | parser/parser.ts:169-179 | the infix loop only appends to the error list |
| ParserProperties.PrefixErrorsGrow | parser/parser.ts:193-204 | a prefix expression only appends to the error list |
| ParserProperties.InfixErrorsGrow | parser/parser.ts:206-220 | an infix expression only appends to the error list |
| ParserProperties.StatementErrorsGrow | parser/parser.ts:222-231 | a statement only appends to the error list |
| ParserProperties.TurnCollects | parser/parser.ts:235-241 | a turn keeps the loop's promise if the rest of the run keeps it |
| ParserProperties.ProgramCollects | parser/parser.ts:233-243 | a program run that returns stands on EOF and has only appended to the statements and to the errors, keeping their order |
| ParserProperties.LoopStops | parser/parser.ts:169-171 | the infix loop stops at a semicolon or at an operator that does not bind tighter |
| ParserProperties.LeafStarts | parser/parser.ts:162-168 | an expression starting with a leaf is the infix loop from that leaf |
| ParserProperties.LoopTakes | parser/parser.ts:169-178 | an operator that binds tighter takes the right operand parsed at its own precedence |
| ParserProperties.LoopTakesLeaf | parser/parser.ts:206-220 | such an operator followed by a leaf and nothing tighter makes one infix node |
| ParserProperties.LeftAssociative | parser/parser.ts:206-220 | `a op b op' c` with equal precedences groups as `((a op b) op' c)` |
| ParserProperties.TighterBindsFirst | parser/parser.ts:206-220 | `a op b op' c` with `op'` tighter groups as `(a op (b op' c))` |
| ParserProperties.PrefixBindsTighter | parser/parser.ts:193-204 | `-a op b` groups as `((-a) op b)` for every infix operator |
| ParserProperties.NestedPrefix | parser/parser.ts:193-204 | prefix operators nest inner first: `!-a` is `(!(-a))` |
| ParserProperties.BangNegParse | parser/parser.test.ts:213-216 | `!-a` parses as `!` applied to `-a`, with no errors |
| ParserProperties.BangNegRendering | parser/parser.test.ts:213-216 | that tree renders `(!(-a))` |
| ParserProperties.LetStatementOutcome | parser/parser.ts:122-142 | without an identifier, or without `=` after it, `let` yields no statement and exactly one error; with both, it yields a statement named by the identifier with no value, ends on the first semicolon, and loops exactly when none follows |
| ParserProperties.ReturnStatementOutcome | parser/parser.ts:144-151 | `return` yields a statement without a value, ending on the first semicolon after it, and loops exactly when none follows |
| ParserProperties.ReturnWithoutSemicolonLoops | parser/parser.ts:144-151 | a return statement with no semicolon after it makes the program loop forever |
| ParserProperties.LetWithoutSemicolonLoops | parser/parser.ts:133-139 | `let x =` with no semicolon after it makes the program loop forever |
| ParserProperties.ExpressionStatementTurn | parser/parser.ts:182-191 | an expression statement is kept and consumes one optional semicolon, and the loop goes on after it |
| ParserProperties.LastExpressionStatement | parser/parser.ts:233-243 | an expression statement at the end of the stream ends the program with it |
| ParserProperties.OneExpressionProgram | parser/parser.ts:182-191 | one expression, with or without a semicolon, is a program of one statement that renders as the expression |
| ParserProperties.OneStatementProgram | parser/parser.ts:233-243 | a statement that ends just before EOF makes a program of that statement alone, with its errors |
| ParserProperties.NegTimesParse | parser/parser.test.ts:209-212 | `-a * b` parses as `*` applied to `-a` and `b`, with no errors |
| ParserProperties.NegTimesRendering | parser/parser.test.ts:209-212 | that tree renders `((-a) * b)` |
| ParserProperties.TightOperand | parser/parser.ts:206-220 | a tighter `leaf op leaf` is parsed as a single operand |
| ParserProperties.LoopTakesTight | parser/parser.ts:169-178 | after a looser operator, a tighter one takes the middle operand |
| ParserProperties.DigitLeaf | parser/parser.ts:153-156 | a one-digit literal is an integer node with that digit's value |
| ParserProperties.TwoStatementsTokens | parser/parser.test.ts:241-244 | the token stream of `3 + 4; -5 * 5` |
| ParserProperties.FirstSumExpression | parser/parser.ts:162-180 | the first expression of that stream is `3 + 4`, ending before the semicolon |
| ParserProperties.SecondProductExpression | parser/parser.ts:162-180 | the second expression is `-5 * 5`, ending at the last token |
| ParserProperties.FirstSumTurn | parser/parser.ts:233-243 | the first turn keeps `3 + 4` and goes on after the semicolon |
| ParserProperties.SecondProductTurn | parser/parser.ts:233-243 | the second turn keeps `-5 * 5` and ends the program |
| ParserProperties.TwoStatementsProgram | parser/parser.ts:233-243 | that stream is a program of the two expression statements, in order, with no errors |
| ParserProperties.TwoStatementsParse | parser/parser.test.ts:241-244 | the tokens of `3 + 4; -5 * 5` are the statements `(3 + 4)` and `((-5) * 5)`, with no errors |
| ParserProperties.SumRendering | parser/parser.test.ts:241-244 | `3 + 4` renders `(3 + 4)` |
| ParserProperties.ProductRendering | parser/parser.test.ts:241-244 | `-5 * 5` renders `((-5) * 5)` |
| ParserProperties.TwoStatementsRendering | parser/parser.test.ts:241-244 | the program renders `(3 + 4)((-5) * 5)`, with no separator |
| ParserProperties.MissingAssignProgram | parser/parser.ts:122-135 | `let IDENT INT ;` drops the let statement with one error and goes on from the name, so the integer becomes an expression statement |
| ParserProperties.MissingAssignParse | parser/parser.ts:122-135 | `let x 5;` is the single statement `5` and the error that `=` was expected where INT stood |
| ParserProperties.MissingAssignMessage | parser/parser.ts:98-102 | that error reads `expected next token to be =, got INT instead` |
| ParserProperties.ReturnFiveLoops | parser/parser.ts:144-151 | `return 5` with no semicolon loops forever |
| ParserProperties.LetShapeProgram | parser/parser.test.ts:45-75 | `let IDENT = v;` is one let statement named by the identifier, with its value skipped and no errors |
| ParserProperties.LetShapeStatement | parser/parser.ts:122-142 | `let IDENT = v;` is a let statement named by the identifier, without a value, ending on the semicolon, with no errors |
| ParserProperties.LetFiveProgram | lexer/lexer.test.ts:32-36 | the tokens of `let five = 5;` are one let statement named `five`, with no errors |
| ParserProperties.LetFiveParse | lexer/lexer.test.ts:7 | lexing and parsing `let five = 5;` gives one let statement named `five`, with no errors |
| PrecedenceExamples.HeadLeaf | parser/parser.ts:169-178 | an expression that starts `a op b`, with `op` tighter than the context and the next operator no tighter than `op`, goes on with the loop from the node `(a op b)` |
| PrecedenceExamples.HeadTight | parser/parser.ts:169-178 | an expression that starts `a op b op' c` with `op'` tighter than `op` goes on with the loop from `(a op (b op' c))` |
| PrecedenceExamples.TailLeaf | parser/parser.ts:169-178 | the loop takes `op b` and stops when nothing after `b` binds tighter than the context |
| PrecedenceExamples.TailTight | parser/parser.ts:169-178 | the loop takes `op (b op' c)` with `op'` tighter, and stops after `c` |
| PrecedenceExamples.TailWith | parser/parser.ts:169-178 | the loop takes `op` and whatever right operand parses at `op`'s precedence, and stops after it |
| PrecedenceExamples.LooseBetweenTight | parser/parser.ts:162-220 | `a op b op' c op'' d` with `op'` looser than both neighbours groups as `((a op b) op' (c op'' d))` |
| PrecedenceExamples.MixedTail | parser/parser.ts:169-178 | the loop over `o3 d o4 e o5 f` with `o4` tighter and `o5` equal to `o3` builds `((left o3 (d o4 e)) o5 f)` |
| PrecedenceExamples.MixedGroups | parser/parser.ts:162-220 | `a o1 b o2 c o3 d o4 e o5 f` with `o1`, `o3`, `o5` equal and `o2`, `o4` tighter groups as `(((a o1 (b o2 c)) o3 (d o4 e)) o5 f)` |
| PrecedenceExamples.SumsTail | parser/parser.ts:169-178 | the loop over `o3 d o4 e o5 f o6 g` with `o3` loosest and `o4`, `o6` tighter than `o5` builds `(left o3 ((d o4 e) o5 (f o6 g)))` |
| PrecedenceExamples.EqualityOfSums | parser/parser.ts:162-220 | a seven-leaf chain with the loosest operator in the middle groups as `((a o1 (b o2 c)) o3 ((d o4 e) o5 (f o6 g)))` |
| PrecedenceExamples.SumSumParse | parser/parser.test.ts:217-220 | the tokens of `a + b + c` are `((a + b) + c)`, with no errors |
| PrecedenceExamples.SumSumRendering | parser/parser.test.ts:217-220 | that tree renders `((a + b) + c)` |
| PrecedenceExamples.SumDifferenceParse | parser/parser.test.ts:221-224 | the tokens of `a + b - c` are `((a + b) - c)`, with no errors |
| PrecedenceExamples.SumDifferenceRendering | parser/parser.test.ts:221-224 | that tree renders `((a + b) - c)` |
| PrecedenceExamples.ProductProductParse | parser/parser.test.ts:225-228 | the tokens of `a * b * c` are `((a * b) * c)`, with no errors |
| PrecedenceExamples.ProductProductRendering | parser/parser.test.ts:225-228 | that tree renders `((a * b) * c)` |
| PrecedenceExamples.ProductQuotientParse | parser/parser.test.ts:229-232 | the tokens of `a * b / c` are `((a * b) / c)`, with no errors |
| PrecedenceExamples.ProductQuotientRendering | parser/parser.test.ts:229-232 | that tree renders `((a * b) / c)` |
| PrecedenceExamples.SumQuotientParse | parser/parser.test.ts:233-236 | the tokens of `a + b / c` are `(a + (b / c))`, with no errors |
| PrecedenceExamples.SumQuotientRendering | parser/parser.test.ts:233-236 | that tree renders `(a + (b / c))` |
| PrecedenceExamples.MixedOperatorsParse | parser/parser.test.ts:237-240 | the tokens of `a + b * c + d / e - f` are one expression through the last token, `(((a + (b * c)) + (d / e)) - f)`, with no errors |
| PrecedenceExamples.MixedOperatorsRendering | parser/parser.test.ts:237-240 | that tree renders `(((a + (b * c)) + (d / e)) - f)` |
| PrecedenceExamples.ComparisonsEqualParse | parser/parser.test.ts:245-248 | the tokens of `5 > 4 == 3 < 4` are `((5 > 4) == (3 < 4))`, with no errors |
| PrecedenceExamples.ComparisonsEqualRendering | parser/parser.test.ts:245-248 | that tree renders `((5 > 4) == (3 < 4))` |
| PrecedenceExamples.ComparisonsNotEqualParse | parser/parser.test.ts:249-252 | the tokens of `5 < 4 != 3 > 4` are `((5 < 4) != (3 > 4))`, with no errors |
| PrecedenceExamples.ComparisonsNotEqualRendering | parser/parser.test.ts:249-252 | that tree renders `((5 < 4) != (3 > 4))` |
| PrecedenceExamples.SumsEqualParse | parser/parser.test.ts:253-256 | the tokens of `3 + 4 * 5 == 3 * 1 + 4 * 5` are one expression through the last token, `((3 + (4 * 5)) == ((3 * 1) + (4 * 5)))`, with no errors |
| PrecedenceExamples.SumsEqualRendering | parser/parser.test.ts:253-256 | that tree renders `((3 + (4 * 5)) == ((3 * 1) + (4 * 5)))` |

## Left out

- The read-eval-print loop (`repl/repl.ts`) is not part of this model. It is stdin/stdout plumbing.
- Handler registration through function-valued maps and `fn.bind(this)` (parser/parser.ts:49-50, 57-72, 245-251) is modelled as a dispatch on the token kind (`HasPrefixParseFn`, `InfixKinds`, `Parser.ParsePrefix`).
- The dead `infix === null` branch (parser/parser.ts:173-175) is omitted, and `InfixCoverage` proves it cannot be taken.
- Non-termination: the skip-to-semicolon loops are modelled by the `loops` result (the `Loops` outcome in `ParserSpec`), not by a method that runs forever.
- Loop bodies: the bodies of the skip loop, the infix loop and the program loop are factored into one-turn methods (`SkipTurn`, `InfixTurn`, `ProgramTurn`), so each body has a contract of its own; the order of the source's statements is unchanged.
- The `errors` field holds `ParseError` values rather than strings. `Parser.Errors` and `ParseError.Message` give the exact strings the source pushes.
- Node mutation after construction (`stmt.name = …`, `expression.right = …`, `program.statements.push`) is modelled by building each node once with its final children. The parser never changes a node after returning it, so the resulting trees are the same.
- `ParserSpec.ParseInt`: `parseInt` is modelled as an unbounded `nat` from the leading decimal digits. JavaScript's float precision beyond 2^53 and a NaN result are not modelled. The lexer only produces non-empty digit runs, so NaN cannot arise.
- Rendering a `ReturnStatement` that has a `returnValue` is not modelled. The source reads `.string` without calling it (ast/ast.ts:86), and the parser never sets the field, so only the absent case exists.
- Which kinds `keywords[ident]` finds through JavaScript's object prototype (names such as `constructor`) is not modelled. Only the seven-entry table is.
- The input is a `seq<char>`. UTF-16 code-unit details of `charCodeAt` are not modelled, and non-ASCII characters lex as ILLEGAL like any other unlisted character.
- The unreachable duplicate `case '+'` (lexer/lexer.ts:137-139), the unused `const ch` locals and the empty marker methods `statementNode`/`expressionNode` have no behaviour and are omitted.
- The precedence expectations, including `3 + 4; -5 * 5`, start from their token lists, not from the input strings: lexing strings of that length concretely is costly to prove, and the lemmas of `LexerProperties` state in general which tokens any input gives. Only `LetFiveParse` goes from the input string through the lexer.
- The value `838383` from the let test is not evaluated concretely; `ParserSpec.ParseInt` states the value of any digit string.
- The lexer's full multi-line test input is not lexed concretely; `LetStatementTokens` covers its first statement and the general lemmas cover every token rule.
