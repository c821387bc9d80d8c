/**
 * The lexer: a cursor over the input with one character of lookahead.
 * `Lex` states what one call of `nextToken` does from a cursor position;
 * class `Lexer` is the stateful object, proved to follow `Lex`.
 */
module Lexing {
  import opened Token

  /** The character code 0, which stands for "no character" and ends the input. */
  const NUL: char := '\0'

  /** The character at index `i`, or NUL past the end of the input. */
  function CharAt(input: string, i: nat): char {
    if i < |input| then input[i] else NUL
  }

  /** A letter is neither a digit, nor whitespace, nor the end-of-input NUL. */
  predicate IsLetter(c: char)
    ensures IsLetter(c) ==> !IsDigit(c) && !IsWhitespace(c) && c != NUL
  {
    'a' <= c <= 'z' || 'A' <= c <= 'Z' || c == '_'
  }

  /** A digit stands for a value below ten and is neither whitespace nor NUL. */
  predicate IsDigit(c: char)
    ensures IsDigit(c) ==> 0 <= c as int - '0' as int <= 9 && !IsWhitespace(c) && c != NUL
  {
    '0' <= c <= '9'
  }

  /** Whitespace is a control character or the space, and never NUL. */
  predicate IsWhitespace(c: char)
    ensures IsWhitespace(c) ==> NUL < c <= ' '
  {
    c == ' ' || c == '\t' || c == '\n' || c == '\r'
  }

  /** `input.slice(i, j)` for the ranges the lexer uses. */
  function Slice(input: string, i: nat, j: nat): string {
    if i <= j <= |input| then input[i..j] else []
  }

  /** Where the cursor stops when whitespace is skipped from `p`. */
  function WhitespaceEnd(input: string, p: nat): (q: nat)
    ensures p <= q && (q <= |input| || q == p)
    ensures !IsWhitespace(CharAt(input, q))
    decreases |input| - p
  {
    if IsWhitespace(CharAt(input, p)) then WhitespaceEnd(input, p + 1) else p
  }

  /** The end of the run of letters starting at `p`. */
  function ScanLetters(input: string, p: nat): (q: nat)
    ensures p <= q && (q <= |input| || q == p)
    ensures !IsLetter(CharAt(input, q))
    decreases |input| - p
  {
    if IsLetter(CharAt(input, p)) then ScanLetters(input, p + 1) else p
  }

  /** The end of the run of digits starting at `p`. */
  function ScanDigits(input: string, p: nat): (q: nat)
    ensures p <= q && (q <= |input| || q == p)
    ensures !IsDigit(CharAt(input, q))
    ensures p <= |input| && (forall i :: p <= i < |input| ==> IsDigit(input[i])) ==> q == |input|
    decreases |input| - p
  {
    if IsDigit(CharAt(input, p)) then ScanDigits(input, p + 1) else p
  }

  /** Every character skipped as whitespace is whitespace. */
  lemma {:induction false} WhitespaceRun(input: string, p: nat)
    ensures forall i :: p <= i < WhitespaceEnd(input, p) ==> IsWhitespace(CharAt(input, i))
    decreases |input| - p
  {
    if IsWhitespace(CharAt(input, p)) {
      WhitespaceRun(input, p + 1);
    }
  }

  /** Every character of a run of letters is a letter. */
  lemma {:induction false} LetterRun(input: string, p: nat)
    ensures forall i :: p <= i < ScanLetters(input, p) ==> IsLetter(CharAt(input, i))
    decreases |input| - p
  {
    if IsLetter(CharAt(input, p)) {
      LetterRun(input, p + 1);
    }
  }

  /** Every character of a run of digits is a digit. */
  lemma {:induction false} DigitRun(input: string, p: nat)
    ensures forall i :: p <= i < ScanDigits(input, p) ==> IsDigit(CharAt(input, i))
    decreases |input| - p
  {
    if IsDigit(CharAt(input, p)) {
      DigitRun(input, p + 1);
    }
  }

  /** The token one call produces and the cursor position after it. */
  datatype Step = Step(token: Token, next: nat)

  /** One call of `nextToken` with the cursor at position `p`. */
  function Lex(input: string, p: nat): (s: Step)
    ensures s.next > p
  {
    var q := WhitespaceEnd(input, p);
    var c := CharAt(input, q);
    match c
    case '=' =>
      if CharAt(input, q + 1) == '=' then Step(Token(Eq, "=="), q + 2)
      else Step(Token(Assign, [c]), q + 1)
    case '+' => Step(Token(Plus, [c]), q + 1)
    case '-' => Step(Token(Minus, [c]), q + 1)
    case '!' =>
      if CharAt(input, q + 1) == '=' then Step(Token(NotEq, "!="), q + 2)
      else Step(Token(Bang, [c]), q + 1)
    case '/' => Step(Token(Slash, [c]), q + 1)
    case '*' => Step(Token(Asterisk, [c]), q + 1)
    case '<' => Step(Token(Lt, [c]), q + 1)
    case '>' => Step(Token(Gt, [c]), q + 1)
    case ',' => Step(Token(Comma, [c]), q + 1)
    case ';' => Step(Token(Semicolon, [c]), q + 1)
    case '(' => Step(Token(LParen, [c]), q + 1)
    case ')' => Step(Token(RParen, [c]), q + 1)
    case '{' => Step(Token(LBrace, [c]), q + 1)
    case '}' => Step(Token(RBrace, [c]), q + 1)
    case '\0' => Step(Token(Eof, ""), q + 1)
    case _ =>
      if IsLetter(c) then
        var e := ScanLetters(input, q);
        var literal := Slice(input, q, e);
        Step(Token(LookupIdent(literal), literal), e)
      else if IsDigit(c) then
        var e := ScanDigits(input, q);
        Step(Token(Int, Slice(input, q, e)), e)
      else
        Step(Token(Illegal, [c]), q + 1)
  }

  /** The tokens produced from position `p` until the input is exhausted. */
  function LexFrom(input: string, p: nat): (toks: seq<Token>)
    ensures p < |input| ==> |toks| > 0
    decreases |input| - p
  {
    if p >= |input| then []
    else
      var s := Lex(input, p);
      [s.token] + LexFrom(input, s.next)
  }

  /** The token `toks` hold at index `i`; the lexer keeps returning EOF after them. */
  function At(toks: seq<Token>, i: nat): Token {
    if i < |toks| then toks[i] else Token(Eof, "")
  }

  /** Once the input is exhausted, every call gives EOF and the input stays exhausted. */
  lemma EofForever(input: string, p: nat)
    requires p >= |input|
    ensures Lex(input, p) == Step(Token(Eof, ""), p + 1)
    ensures LexFrom(input, p) == []
  {
  }

  /**
   * A lexer at `p` yields the tokens of `toks` from index `j` on: each call
   * returns the next of them, and once they run out the input is exhausted.
   */
  predicate Yields(input: string, p: nat, toks: seq<Token>, j: nat)
    decreases |input| - p, 1
  {
    YieldsNext(input, p, toks, j)
  }

  /** The test `Yields` makes at one lexer position: exhausted, or the next token matches and the rest follows. */
  predicate YieldsNext(input: string, p: nat, toks: seq<Token>, j: nat)
    decreases |input| - p, 0
  {
    if p >= |input| then |toks| <= j
    else j < |toks| && toks[j] == Lex(input, p).token && Yields(input, Lex(input, p).next, toks, j + 1)
  }

  /** A lexer yields the tokens `LexFrom` lists from its position. */
  lemma {:induction false} YieldsLexFrom(input: string, p: nat, toks: seq<Token>, j: nat)
    requires j <= |toks| && toks[j..] == LexFrom(input, p)
    ensures Yields(input, p, toks, j)
    decreases |input| - p
  {
    if p < |input| {
      var s := Lex(input, p);
      assert toks[j] == toks[j..][0] == s.token;
      assert toks[j + 1..] == toks[j..][1..] == LexFrom(input, s.next);
      YieldsLexFrom(input, s.next, toks, j + 1);
    }
  }

  /** One call on a lexer yielding `toks` from `j` returns token `j` (EOF past the end) and yields from `j + 1`. */
  lemma LexStep(input: string, p: nat, toks: seq<Token>, j: nat, tok: Token, q: nat)
    requires Yields(input, p, toks, j)
    requires Step(tok, q) == Lex(input, p)
    ensures tok == At(toks, j) && Yields(input, q, toks, j + 1)
  {
    if p >= |input| {
      EofForever(input, p);
    }
  }

  /** Such a lexer is exhausted exactly when no token of `toks` is left from `j` on. */
  lemma ExhaustedYields(input: string, p: nat, toks: seq<Token>, j: nat)
    requires Yields(input, p, toks, j)
    ensures p >= |input| <==> |toks| <= j
  {
  }

  class Lexer {
    const input: string
    var position: nat
    var readPosition: nat
    var ch: char

    /** `ch` is the character under the cursor and `readPosition` the next one. */
    ghost predicate Valid()
      reads this
    {
      readPosition == position + 1 && ch == CharAt(input, position)
    }

    /** True once every further call can only produce EOF. */
    predicate Exhausted()
      reads this
    {
      position >= |input|
    }

    constructor (input: string)
      ensures Valid() && this.input == input && position == 0
    {
      this.input := input;
      position := 0;
      readPosition := 0;
      ch := NUL;
      new;
      ReadChar();
    }

    /** Moves the cursor to `readPosition`. */
    method ReadChar()
      modifies this
      ensures position == old(readPosition) && readPosition == position + 1
      ensures ch == CharAt(input, position)
      ensures Valid()
    {
      if readPosition >= |input| {
        ch := NUL;
      } else {
        ch := input[readPosition];
      }
      position := readPosition;
      readPosition := readPosition + 1;
    }

    /** The character after the cursor, without moving. */
    method PeekChar() returns (c: char)
      requires Valid()
      ensures c == CharAt(input, position + 1)
    {
      if readPosition >= |input| {
        c := NUL;
      } else {
        c := input[readPosition];
      }
    }

    method ReadIdentifier() returns (literal: string)
      requires Valid()
      modifies this
      ensures Valid()
      ensures position == ScanLetters(input, old(position))
      ensures literal == Slice(input, old(position), position)
    {
      var start := position;
      while IsLetter(ch)
        invariant Valid() && start <= position
        invariant ScanLetters(input, position) == ScanLetters(input, start)
        decreases |input| - position
      {
        ReadChar();
      }
      literal := Slice(input, start, position);
    }

    method SkipWhitespace()
      requires Valid()
      modifies this
      ensures Valid()
      ensures position == WhitespaceEnd(input, old(position))
    {
      while IsWhitespace(ch)
        invariant Valid() && old(position) <= position
        invariant WhitespaceEnd(input, position) == WhitespaceEnd(input, old(position))
        decreases |input| - position
      {
        ReadChar();
      }
    }

    method ReadNumber() returns (literal: string)
      requires Valid()
      modifies this
      ensures Valid()
      ensures position == ScanDigits(input, old(position))
      ensures literal == Slice(input, old(position), position)
    {
      var start := position;
      while IsDigit(ch)
        invariant Valid() && start <= position
        invariant ScanDigits(input, position) == ScanDigits(input, start)
        decreases |input| - position
      {
        ReadChar();
      }
      literal := Slice(input, start, position);
    }

    /** Skips whitespace and produces the next token. */
    method NextToken() returns (tok: Token)
      requires Valid()
      modifies this
      ensures Valid()
      ensures Step(tok, position) == Lex(input, old(position))
    {
      SkipWhitespace();
      match ch {
      case '=' =>
        var next := PeekChar();
        if next == '=' {
          ReadChar();
          tok := Token(Eq, [ch, ch]);
        } else {
          tok := Token(Assign, [ch]);
        }
      case '+' => tok := Token(Plus, [ch]);
      case '-' => tok := Token(Minus, [ch]);
      case '!' =>
        var next := PeekChar();
        if next == '=' {
          var first := ch;
          ReadChar();
          tok := Token(NotEq, [first, ch]);
        } else {
          tok := Token(Bang, [ch]);
        }
      case '/' => tok := Token(Slash, [ch]);
      case '*' => tok := Token(Asterisk, [ch]);
      case '<' => tok := Token(Lt, [ch]);
      case '>' => tok := Token(Gt, [ch]);
      case ',' => tok := Token(Comma, [ch]);
      case ';' => tok := Token(Semicolon, [ch]);
      case '(' => tok := Token(LParen, [ch]);
      case ')' => tok := Token(RParen, [ch]);
      case '{' => tok := Token(LBrace, [ch]);
      case '}' => tok := Token(RBrace, [ch]);
      case '\0' => tok := Token(Eof, "");
      case _ =>
        if IsLetter(ch) {
          var literal := ReadIdentifier();
          tok := Token(LookupIdent(literal), literal);
          return;
        } else if IsDigit(ch) {
          var literal := ReadNumber();
          tok := Token(Int, literal);
          return;
        } else {
          tok := Token(Illegal, [ch]);
        }
      }
      ReadChar();
    }
  }
}
