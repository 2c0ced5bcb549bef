/**
 * Concrete runs of the lexer on small inputs, each worked through one `nextToken`
 * at a time.
 */
module Examples {
  import opened Optional
  import opened Tokens
  import opened Lexing

  /** `!=` from the start: the pair is NOT_EQ, and the cursor stops on the `=`. */
  lemma LexBangEqualStep0()
    ensures NextToken(New("!=")) == (Token(NOT_EQ, "!="), Lexer("!=", 1, 2, "="))
  {
    var l := New("!=");
    assert l == Lexer("!=", 0, 1, "!");
    assert SkipWhitespace(l) == l;
    SingleCharKeys();
    DoubleCharTable();
    assert IsSingleCharToken("!");
    assert "!" + "=" == "!=";
    assert PeekChar(l) == "=";
    assert IsDoubleCharToken("!=");
  }

  /** The `=` alone, with nothing after it: ASSIGN, and the cursor moves past the end. */
  lemma LexBangEqualStep1()
    ensures NextToken(Lexer("!=", 1, 2, "=")) == (Token(ASSIGN, "="), Lexer("!=", 2, 3, ""))
  {
    var l := Lexer("!=", 1, 2, "=");
    assert SkipWhitespace(l) == l;
    SingleCharKeys();
    SingleCharTable();
    LookupDistinct(SingleCharTokens, 0);
    assert IsSingleCharToken("=");
    assert PeekChar(l) == "";
    assert "=" + "" == "=";
  }

  /** Past the end: EOF. */
  lemma LexBangEqualStep2()
    ensures NextToken(Lexer("!=", 2, 3, "")) == (Token(EOF, ""), Lexer("!=", 3, 4, ""))
  {
    NextTokenAtEnd(Lexer("!=", 2, 3, ""));
  }

  /** After the `!` of `!=`, the cursor is on the `=`, which lexes again as ASSIGN, then EOF. */
  lemma LexAfterBang()
    ensures Tokenize(Lexer("!=", 1, 2, "=")) == [Token(ASSIGN, "="), Token(EOF, "")]
  {
    LexBangEqualStep1();
    TokenizeStep(Lexer("!=", 1, 2, "="), Token(ASSIGN, "="), Lexer("!=", 2, 3, ""));
    LexBangEqualStep2();
    TokenizeStep(Lexer("!=", 2, 3, ""), Token(EOF, ""), Lexer("!=", 3, 4, ""));
  }

  /** `!=` followed by nothing: NOT_EQ, and then, because the cursor moved only one character,
      the `=` is read again as ASSIGN before EOF. */
  lemma LexNotEqualRereadsSecondCharacter()
    ensures Tokenize(New("!=")) == [Token(NOT_EQ, "!="), Token(ASSIGN, "="), Token(EOF, "")]
  {
    LexBangEqualStep0();
    TokenizeStep(New("!="), Token(NOT_EQ, "!="), Lexer("!=", 1, 2, "="));
    LexAfterBang();
  }

  /** `x1`: the letter run stops at the digit, so the first token is the identifier `x`. */
  lemma LexIdentifierStopsAtDigit()
    ensures NextToken(New("x1")) == (Token(IDENT, "x"), Lexer("x1", 1, 2, "1"))
  {
    var l := New("x1");
    assert l == Lexer("x1", 0, 1, "x");
    assert SkipWhitespace(l) == l;
    NextTokenWord(l);
    var r := NextToken(l);
    assert !IsLetter(["x1"[1]]);
    assert r.1.position == 1;
    assert r.0.literal == "x";
    assert LookupIdentifier("x") == None;
  }

  /** ... and the digit that follows is a separate INT token. */
  lemma LexDigitAfterIdentifier()
    ensures NextToken(Lexer("x1", 1, 2, "1")) == (Token(INT, "1"), Lexer("x1", 2, 3, ""))
  {
    var l := Lexer("x1", 1, 2, "1");
    assert SkipWhitespace(l) == l;
    NextTokenNumber(l);
    var r := NextToken(l);
    assert r.1.position == 2;
    assert r.0.literal == "1";
  }
}
