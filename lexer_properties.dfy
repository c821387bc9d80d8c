/** What one call of `nextToken` produces, and what a whole token stream spells. */
module LexerProperties {
  import opened Token
  import opened Lexing

  /** The characters that can only come out as tokens of their own. */
  const Operators: string := "=+-!/*<>,;(){}"

  /**
   * A token other than EOF spells exactly the source characters it consumed
   * after the whitespace; EOF consumes one NUL, or steps past the end.
   */
  lemma TokenSpellsSource(input: string, p: nat)
    ensures var s, q := Lex(input, p), WhitespaceEnd(input, p);
      && (s.token.kind != Eof ==> q < s.next <= |input| && s.token.literal == input[q..s.next])
      && (s.token.kind == Eof ==> s.token.literal == "" && s.next == q + 1 && CharAt(input, q) == NUL)
  {
    var s, q := Lex(input, p), WhitespaceEnd(input, p);
    var c := CharAt(input, q);
    if c == '=' || c == '!' {
      if CharAt(input, q + 1) == '=' {
        assert input[q..q + 2] == [c, '='];
      } else {
        assert input[q..q + 1] == [c];
      }
    } else if !IsLetter(c) && !IsDigit(c) && c != NUL {
      assert input[q..q + 1] == [c];
    }
  }

  /** No token literal holds a whitespace character. */
  lemma LiteralHasNoWhitespace(input: string, p: nat)
    ensures var t := Lex(input, p).token;
      forall i :: 0 <= i < |t.literal| ==> !IsWhitespace(t.literal[i])
  {
    var s, q := Lex(input, p), WhitespaceEnd(input, p);
    var c := CharAt(input, q);
    TokenSpellsSource(input, p);
    if s.token.kind != Eof {
      forall i | q <= i < s.next ensures !IsWhitespace(input[i]) {
        if IsLetter(c) {
          LetterRun(input, q);
          assert IsLetter(CharAt(input, i));
        } else if IsDigit(c) {
          DigitRun(input, q);
          assert IsDigit(CharAt(input, i));
        } else if i > q {
          assert input[i] == '=';
        }
      }
    }
  }

  /** `==` and `!=` are single two-character tokens; a lone `=` or `!` is one character. */
  lemma TwoCharacterOperators(input: string, p: nat)
    ensures var s, q := Lex(input, p), WhitespaceEnd(input, p);
      && (CharAt(input, q) == '=' && CharAt(input, q + 1) == '=' ==> s == Step(Token(Eq, "=="), q + 2))
      && (CharAt(input, q) == '!' && CharAt(input, q + 1) == '=' ==> s == Step(Token(NotEq, "!="), q + 2))
      && (CharAt(input, q) == '=' && CharAt(input, q + 1) != '=' ==> s == Step(Token(Assign, "="), q + 1))
      && (CharAt(input, q) == '!' && CharAt(input, q + 1) != '=' ==> s == Step(Token(Bang, "!"), q + 1))
  {
  }

  /**
   * Any other character that starts neither an identifier nor a number, nor
   * ends the input, is a token of its own: its literal is that character,
   * the cursor moves by one, and its kind is `Illegal` exactly when the
   * character is not an operator or delimiter (whose kind's name is then the
   * literal, by `OperatorTokensSpellName`).
   */
  lemma SingleCharacterTokens(input: string, p: nat)
    ensures var s, q := Lex(input, p), WhitespaceEnd(input, p);
      var c := CharAt(input, q);
      !IsLetter(c) && !IsDigit(c) && c != NUL && !((c == '=' || c == '!') && CharAt(input, q + 1) == '=') ==>
        && s.token.literal == [c]
        && s.next == q + 1
        && (s.token.kind == Illegal <==> c !in Operators)
  {
  }

  /** An operator or delimiter token, of one character or two, is spelled by the name of its kind. */
  lemma OperatorTokensSpellName(input: string, p: nat)
    ensures var t := Lex(input, p).token;
      t.kind !in {Illegal, Eof, Ident, Int} && !t.kind.IsKeyword() ==> t.literal == t.kind.Name()
  {
  }

  /**
   * A letter starts an identifier: the maximal run of letters from the cursor,
   * classified by the keyword table; the cursor stops on the first non-letter.
   */
  lemma IdentifierTokens(input: string, p: nat)
    ensures var s, q := Lex(input, p), WhitespaceEnd(input, p);
      IsLetter(CharAt(input, q)) ==>
        && q < s.next <= |input|
        && s.token.literal == input[q..s.next]
        && s.token.kind == LookupIdent(s.token.literal)
        && (forall i :: q <= i < s.next ==> IsLetter(input[i]))
        && !IsLetter(CharAt(input, s.next))
  {
    var q := WhitespaceEnd(input, p);
    if IsLetter(CharAt(input, q)) {
      LetterRun(input, q);
      var e := ScanLetters(input, q);
      forall i | q <= i < e ensures IsLetter(input[i]) {
        assert IsLetter(CharAt(input, i));
      }
    }
  }

  /** A digit starts an integer: the maximal run of digits, of kind `Int`. */
  lemma NumberTokens(input: string, p: nat)
    ensures var s, q := Lex(input, p), WhitespaceEnd(input, p);
      IsDigit(CharAt(input, q)) ==>
        && q < s.next <= |input|
        && s.token == Token(Int, input[q..s.next])
        && (forall i :: q <= i < s.next ==> IsDigit(input[i]))
        && !IsDigit(CharAt(input, s.next))
  {
    var q := WhitespaceEnd(input, p);
    if IsDigit(CharAt(input, q)) {
      DigitRun(input, q);
      var e := ScanDigits(input, q);
      forall i | q <= i < e ensures IsDigit(input[i]) {
        assert IsDigit(CharAt(input, i));
      }
    }
  }

  /** A NUL inside the input gives EOF, and lexing goes on after it. */
  lemma NulInsideInput(input: string, p: nat)
    requires WhitespaceEnd(input, p) < |input| && input[WhitespaceEnd(input, p)] == NUL
    ensures var q := WhitespaceEnd(input, p);
      && Lex(input, p) == Step(Token(Eof, ""), q + 1)
      && LexFrom(input, p) == [Token(Eof, "")] + LexFrom(input, q + 1)
  {
  }

  /** Digits end an identifier. */
  lemma DigitEndsIdentifier()
    ensures Lex("x1", 0) == Step(Token(Ident, "x"), 1)
    ensures Lex("x1", 1) == Step(Token(Int, "1"), 2)
    ensures LexFrom("x1", 0) == [Token(Ident, "x"), Token(Int, "1")]
  {
    assert WhitespaceEnd("x1", 0) == 0;
    assert ScanLetters("x1", 1) == 1;
    assert ScanLetters("x1", 0) == 1;
    assert WhitespaceEnd("x1", 1) == 1;
    assert ScanDigits("x1", 2) == 2;
    assert ScanDigits("x1", 1) == 2;
    assert "x1"[0..1] == "x";
    assert "x1"[1..2] == "1";
  }

  /** The input with whitespace removed. */
  function Strip(s: string): (r: string)
    ensures forall c :: c in r ==> c in s && !IsWhitespace(c)
  {
    if s == [] then []
    else (if IsWhitespace(s[0]) then [] else [s[0]]) + Strip(s[1..])
  }

  /** The literals of a token sequence, concatenated. */
  function Spelling(toks: seq<Token>): string {
    if toks == [] then [] else toks[0].literal + Spelling(toks[1..])
  }

  lemma {:induction false} StripAppend(a: string, b: string)
    ensures Strip(a + b) == Strip(a) + Strip(b)
  {
    if a == [] {
      assert a + b == b;
    } else {
      assert (a + b)[0] == a[0];
      assert (a + b)[1..] == a[1..] + b;
      StripAppend(a[1..], b);
    }
  }

  lemma {:induction false} StripWhitespace(s: string)
    requires forall i :: 0 <= i < |s| ==> IsWhitespace(s[i])
    ensures Strip(s) == []
  {
    if s != [] {
      StripWhitespace(s[1..]);
    }
  }

  lemma {:induction false} StripNoWhitespace(s: string)
    requires forall i :: 0 <= i < |s| ==> !IsWhitespace(s[i])
    ensures Strip(s) == s
  {
    if s != [] {
      StripNoWhitespace(s[1..]);
    }
  }

  /** Stripping skips the whitespace in front of a token. */
  lemma StripLeadingWhitespace(input: string, p: nat)
    requires p <= |input|
    ensures WhitespaceEnd(input, p) <= |input|
    ensures Strip(input[p..]) == Strip(input[WhitespaceEnd(input, p)..])
  {
    var q := WhitespaceEnd(input, p);
    WhitespaceRun(input, p);
    assert input[p..] == input[p..q] + input[q..];
    StripAppend(input[p..q], input[q..]);
    forall i | 0 <= i < q - p ensures IsWhitespace(input[p..q][i]) {
      assert IsWhitespace(CharAt(input, p + i));
    }
    StripWhitespace(input[p..q]);
  }

  /** Stripping keeps a token other than EOF as it stands in the input. */
  lemma StripToken(input: string, p: nat)
    requires p <= |input| && Lex(input, p).token.kind != Eof
    ensures Lex(input, p).next <= |input|
    ensures Strip(input[WhitespaceEnd(input, p)..])
      == Lex(input, p).token.literal + Strip(input[Lex(input, p).next..])
  {
    var s, q := Lex(input, p), WhitespaceEnd(input, p);
    TokenSpellsSource(input, p);
    LiteralHasNoWhitespace(input, p);
    var t := input[q..];
    assert t[..s.next - q] == s.token.literal && t[s.next - q..] == input[s.next..];
    StripPrefix(t, s.next - q);
  }

  /** A prefix without whitespace survives stripping as it is. */
  lemma StripPrefix(t: string, n: nat)
    requires n <= |t| && forall i :: 0 <= i < n ==> !IsWhitespace(t[..n][i])
    ensures Strip(t) == t[..n] + Strip(t[n..])
  {
    assert t == t[..n] + t[n..];
    StripAppend(t[..n], t[n..]);
    StripNoWhitespace(t[..n]);
  }

  /**
   * With no NUL in the input, the token literals spell the input with its
   * whitespace removed.
   */
  lemma {:induction false} LiteralsSpellInput(input: string, p: nat)
    requires p <= |input|
    requires forall i :: p <= i < |input| ==> input[i] != NUL
    ensures Spelling(LexFrom(input, p)) == Strip(input[p..])
    decreases |input| - p
  {
    if p < |input| {
      var s := Lex(input, p);
      StripLeadingWhitespace(input, p);
      assert LexFrom(input, p)[1..] == LexFrom(input, s.next);
      if s.token.kind == Eof {
        TokenSpellsSource(input, p);
        EofForever(input, s.next);
      } else {
        StripToken(input, p);
        LiteralsSpellInput(input, s.next);
      }
    }
  }

  /** With no NUL in the input, EOF can only be the last token before exhaustion. */
  lemma {:induction false} EofOnlyLast(input: string, p: nat, i: nat)
    requires forall j :: p <= j < |input| ==> input[j] != NUL
    requires i + 1 < |LexFrom(input, p)|
    ensures LexFrom(input, p)[i].kind != Eof
    decreases |input| - p
  {
    var s, q := Lex(input, p), WhitespaceEnd(input, p);
    TokenSpellsSource(input, p);
    if q < |input| && i > 0 {
      EofOnlyLast(input, s.next, i - 1);
    }
  }

  /** The first statement of the lexer's test input. */
  lemma LetStatementTokens()
    ensures LexFrom("let five = 5;", 0) ==
      [Token(Let, "let"), Token(Ident, "five"), Token(Assign, "="), Token(Int, "5"), Token(Semicolon, ";")]
  {
    var input := "let five = 5;";
    LetFiveKeyword();
    LetFiveName();
    LetFiveSymbols();
    EofForever(input, 13);
    LexFromStep(input, 12, Token(Semicolon, ";"), 13);
    LexFromStep(input, 10, Token(Int, "5"), 12);
    LexFromStep(input, 8, Token(Assign, "="), 10);
    LexFromStep(input, 3, Token(Ident, "five"), 8);
    LexFromStep(input, 0, Token(Let, "let"), 3);
  }

  /** Lexing from `p` is the token lexed there, then lexing from where it stops. */
  lemma LexFromStep(input: string, p: nat, tok: Token, q: nat)
    requires p < |input| && Lex(input, p) == Step(tok, q)
    ensures LexFrom(input, p) == [tok] + LexFrom(input, q)
  {
  }

  lemma LetFiveKeyword()
    ensures Lex("let five = 5;", 0) == Step(Token(Let, "let"), 3)
  {
    var input := "let five = 5;";
    assert WhitespaceEnd(input, 0) == 0 && ScanLetters(input, 3) == 3 && ScanLetters(input, 0) == 3;
    assert input[0..3] == "let";
  }

  lemma LetFiveName()
    ensures Lex("let five = 5;", 3) == Step(Token(Ident, "five"), 8)
  {
    var input := "let five = 5;";
    assert WhitespaceEnd(input, 4) == 4 && WhitespaceEnd(input, 3) == 4;
    assert ScanLetters(input, 8) == 8 && ScanLetters(input, 4) == 8;
    assert input[4..8] == "five";
  }

  lemma LetFiveSymbols()
    ensures Lex("let five = 5;", 8) == Step(Token(Assign, "="), 10)
    ensures Lex("let five = 5;", 10) == Step(Token(Int, "5"), 12)
    ensures Lex("let five = 5;", 12) == Step(Token(Semicolon, ";"), 13)
  {
    var input := "let five = 5;";
    assert WhitespaceEnd(input, 9) == 9 && WhitespaceEnd(input, 8) == 9;
    assert WhitespaceEnd(input, 11) == 11 && WhitespaceEnd(input, 10) == 11;
    assert ScanDigits(input, 12) == 12 && ScanDigits(input, 11) == 12;
    assert input[11..12] == "5";
    assert WhitespaceEnd(input, 12) == 12;
  }
}
