/**
 * The scanner of src/lexer.ts.
 *
 * The lexer is the source's record of cursor state: the input, `position` (the
 * index of the current character), `readPosition` (the index of the next one)
 * and `ch` (the current character as a string, or "" once the input is used up).
 * Each method that mutates the record becomes a function from the old record to
 * the new one.
 */
module Lexing {
  import opened Optional
  import opened Tokens

  datatype Lexer = Lexer(input: string, position: nat, readPosition: nat, ch: string)

  /** The character at index i as a one-character string, or "" past the end. */
  function CharAt(input: string, i: nat): string {
    if i < |input| then [input[i]] else ""
  }

  /** The cursor invariant: `readPosition` is one past `position`, and `ch` is the character there. */
  predicate Valid(l: Lexer) {
    l.readPosition == l.position + 1 && l.ch == CharAt(l.input, l.position)
  }

  /** JavaScript's `String.prototype.slice(from, to)` for non-negative indices: clamped, empty when reversed. */
  function Slice(s: string, from: nat, to: nat): (r: string)
    ensures from <= to <= |s| ==> r == s[from..to]
    ensures |r| <= |s|
  {
    var a := if from < |s| then from else |s|;
    var b := if to < |s| then to else |s|;
    if b <= a then "" else s[a..b]
  }

  /** `isLetter`: an ASCII letter or underscore. `ch` is always "" or one character, so the
      source's string comparisons against "a", "z", "A", "Z" compare that one character. */
  predicate IsLetter(ch: string) {
    |ch| == 1 && (('a' <= ch[0] <= 'z') || ('A' <= ch[0] <= 'Z') || ch[0] == '_')
  }

  /** `isDigit`: an ASCII decimal digit. */
  predicate IsDigit(ch: string) {
    |ch| == 1 && '0' <= ch[0] <= '9'
  }

  /** The four characters `skipWhitespace` passes over. */
  predicate IsWhitespace(ch: string) {
    ch == " " || ch == "\t" || ch == "\n" || ch == "\r"
  }

  /** The end-of-input "" is in none of the three character classes, and no character is in two
      of them, so `nextToken`'s branches and the reading loops never overlap. */
  lemma CharacterClasses(ch: string)
    ensures IsLetter(ch) || IsDigit(ch) || IsWhitespace(ch) ==> |ch| == 1
    ensures !(IsLetter(ch) && IsDigit(ch))
    ensures !(IsLetter(ch) && IsWhitespace(ch))
    ensures !(IsDigit(ch) && IsWhitespace(ch))
  {
  }

  /** The two classes of character that `readIdentifier` and `readNumber` collect runs of. */
  datatype CharClass = Letters | Digits

  predicate InClass(kind: CharClass, ch: string) {
    match kind
    case Letters => IsLetter(ch)
    case Digits => IsDigit(ch)
  }

  /** The constructor: a fresh cursor on the first character. */
  function New(input: string): (l: Lexer)
    ensures Valid(l) && l.input == input && l.position == 0
    ensures l.ch == (if |input| == 0 then "" else [input[0]])
  {
    ReadChar(Lexer(input, 0, 0, ""))
  }

  /** `readChar`: moves to `readPosition`, whatever state the cursor was in. */
  function ReadChar(l: Lexer): (r: Lexer)
    ensures Valid(r)
    ensures r.input == l.input && r.position == l.readPosition
  {
    var ch := if l.readPosition >= |l.input| then "" else [l.input[l.readPosition]];
    Lexer(l.input, l.readPosition, l.readPosition + 1, ch)
  }

  /** `peekChar`: the character after the current one, or "" past the end. */
  function PeekChar(l: Lexer): (s: string)
    requires Valid(l)
    ensures s == CharAt(l.input, l.position + 1)
  {
    if l.readPosition >= |l.input| then "" else [l.input[l.readPosition]]
  }

  /** `skipWhitespace`: advances over spaces, tabs, newlines and carriage returns. */
  function SkipWhitespace(l: Lexer): (r: Lexer)
    requires Valid(l)
    ensures Valid(r) && r.input == l.input
    ensures l.position <= r.position
    ensures !IsWhitespace(r.ch)
    ensures r.position == l.position || r.position <= |l.input|
    ensures forall i :: l.position <= i < r.position ==> IsWhitespace([l.input[i]])
    decreases |l.input| - l.position
  {
    if IsWhitespace(l.ch) then SkipWhitespace(ReadChar(l)) else l
  }

  /** The loop shared by `readIdentifier` and `readNumber`: advances while `ch` is in the kind. */
  function SkipRun(l: Lexer, kind: CharClass): (r: Lexer)
    requires Valid(l)
    ensures Valid(r) && r.input == l.input
    ensures l.position <= r.position
    ensures !InClass(kind, r.ch)
    ensures r.position == l.position || r.position <= |l.input|
    ensures forall i :: l.position <= i < r.position ==> InClass(kind, [l.input[i]])
    decreases |l.input| - l.position
  {
    if InClass(kind, l.ch) then SkipRun(ReadChar(l), kind) else l
  }

  /** `readIdentifier` and `readNumber`: the maximal run of the kind starting at the
      current character, and the cursor just past it. */
  function ReadRun(l: Lexer, kind: CharClass): (r: (string, Lexer))
    requires Valid(l)
    ensures Valid(r.1) && r.1.input == l.input
    ensures r.1.position == l.position + |r.0|
    ensures r.1.position == l.position || r.1.position <= |l.input|
    ensures r.1.position <= |l.input| ==> r.0 == l.input[l.position..r.1.position]
    ensures forall i :: 0 <= i < |r.0| ==> r.0[i] == l.input[l.position + i] && InClass(kind, [r.0[i]])
    ensures !InClass(kind, r.1.ch)
    ensures InClass(kind, l.ch) ==> |r.0| > 0
  {
    var e := SkipRun(l, kind);
    (Slice(l.input, l.position, e.position), e)
  }

  /** `nextToken`: skips whitespace and reads one token. */
  function NextToken(l: Lexer): (r: (Token, Lexer))
    requires Valid(l)
    ensures Valid(r.1) && r.1.input == l.input
    ensures l.position < r.1.position
    ensures r.0.tokenType != EOF ==> r.1.position <= |l.input|
    ensures r.0.tokenType == EOF <==> SkipWhitespace(l).position >= |l.input|
  {
    var s := SkipWhitespace(l);
    if IsSingleCharToken(s.ch) then ReadOperator(s)
    else if s.ch == "" then (Token(EOF, ""), ReadChar(s))
    else if IsLetter(s.ch) then ReadWord(s)
    else if IsDigit(s.ch) then
      var (literal, e) := ReadRun(s, Digits);
      (Token(INT, literal), e)
    else
      (Token(ILLEGAL, ""), ReadChar(s))
  }

  /** The operator branch of `nextToken`: the double-character token when the current and next
      characters form one, else the single-character token; either way the cursor moves one character. */
  function ReadOperator(s: Lexer): (r: (Token, Lexer))
    requires Valid(s) && IsSingleCharToken(s.ch)
    ensures r.1 == ReadChar(s)
    ensures !IsGeneric(r.0.tokenType)
  {
    var temp := s.ch + PeekChar(s);
    TablesNameNoGenericCategory(s.ch);
    TablesNameNoGenericCategory(temp);
    var tok :=
      if IsDoubleCharToken(temp) then Token(Lookup(DoubleCharTokens, temp).value, temp)
      else Token(Lookup(SingleCharTokens, s.ch).value, s.ch);
    (tok, ReadChar(s))
  }

  /** The letter branch of `nextToken`: the run of letters, as its keyword's category or as IDENT. */
  function ReadWord(s: Lexer): (r: (Token, Lexer))
    requires Valid(s) && IsLetter(s.ch)
    ensures r.0.literal == ReadRun(s, Letters).0 && r.1 == ReadRun(s, Letters).1
    ensures r.0.tokenType != EOF
  {
    var (literal, e) := ReadRun(s, Letters);
    TablesNameNoGenericCategory(literal);
    (Token(if IsKeyword(literal) then Lookup(Keywords, literal).value else IDENT, literal), e)
  }

  /** Calls `nextToken` until it returns the first EOF, and collects the tokens. */
  function Tokenize(l: Lexer): (ts: seq<Token>)
    requires Valid(l) && l.position <= |l.input|
    ensures 1 <= |ts| <= |l.input| - l.position + 1
    ensures ts[|ts| - 1].tokenType == EOF
    ensures forall i :: 0 <= i < |ts| - 1 ==> ts[i].tokenType != EOF
    decreases |l.input| - l.position
  {
    var (tok, next) := NextToken(l);
    if tok.tokenType == EOF then [tok] else [tok] + Tokenize(next)
  }

  /** One round of `Tokenize`: the token `nextToken` returns, then the rest from where it left the cursor. */
  lemma TokenizeStep(l: Lexer, tok: Token, next: Lexer)
    requires Valid(l) && l.position <= |l.input| && NextToken(l) == (tok, next)
    ensures tok.tokenType == EOF ==> Tokenize(l) == [tok]
    ensures tok.tokenType != EOF ==> next.position <= |next.input| && Tokenize(l) == [tok] + Tokenize(next)
  {
  }

  /** The token stream as the parser sees it: past the collected tokens, the lexer keeps answering EOF. */
  function TokenAt(ts: seq<Token>, i: nat): Token {
    if i < |ts| then ts[i] else Token(EOF, "")
  }

  /** A token list that ends with its first and only EOF, as `Tokenize` produces. */
  predicate EofTerminated(ts: seq<Token>) {
    && |ts| > 0
    && ts[|ts| - 1].tokenType == EOF
    && forall i :: 0 <= i < |ts| - 1 ==> ts[i].tokenType != EOF
  }

  /** What the lexer produces from a fresh lexer is EOF-terminated. */
  lemma TokenizeEofTerminated(input: string)
    ensures EofTerminated(Tokenize(New(input)))
  {
  }

  /** In such a list, EOF is absorbing: once the stream reads EOF, it reads EOF forever. */
  lemma EofAbsorbs(ts: seq<Token>, i: nat, j: nat)
    requires EofTerminated(ts) && TokenAt(ts, i).tokenType == EOF && i <= j
    ensures TokenAt(ts, j).tokenType == EOF
  {
  }

  /** The token returned by the (n+1)-th consecutive call of `nextToken`. */
  function NthToken(l: Lexer, n: nat): Token
    requires Valid(l)
    decreases n
  {
    var (tok, next) := NextToken(l);
    if n == 0 then tok else NthToken(next, n - 1)
  }

  /** Where the next token starts: the first non-whitespace index at or after the cursor. */
  function Start(l: Lexer): nat
    requires Valid(l)
  {
    SkipWhitespace(l).position
  }

  /** At the end of the input (after any trailing whitespace) `nextToken` returns EOF with an empty literal. */
  lemma NextTokenAtEnd(l: Lexer)
    requires Valid(l) && Start(l) >= |l.input|
    ensures NextToken(l).0 == Token(EOF, "")
    ensures NextToken(l).1.position == Start(l) + 1
  {
  }

  /** Once the input is used up, every later call returns EOF again. */
  lemma {:induction false} EofForever(l: Lexer, n: nat)
    requires Valid(l) && l.position >= |l.input|
    ensures NthToken(l, n) == Token(EOF, "")
    decreases n
  {
    NextTokenAtEnd(l);
    if n > 0 {
      EofForever(NextToken(l).1, n - 1);
    }
  }

  /** An operator character yields the double-character token when it and the following character
      form one, and the single-character token otherwise; in both cases the cursor moves one character. */
  lemma NextTokenOperator(l: Lexer)
    requires Valid(l)
    requires Start(l) < |l.input| && IsSingleCharToken([l.input[Start(l)]])
    ensures var p := Start(l);
      var pair := if p + 1 < |l.input| then l.input[p..p + 2] else [l.input[p]];
      && NextToken(l).1.position == p + 1
      && (IsDoubleCharToken(pair) ==> NextToken(l).0 == Token(Lookup(DoubleCharTokens, pair).value, pair))
      && (!IsDoubleCharToken(pair) ==>
            NextToken(l).0 == Token(Lookup(SingleCharTokens, [l.input[p]]).value, [l.input[p]]))
  {
    var p := Start(l);
    if p + 1 < |l.input| {
      assert [l.input[p]] + [l.input[p + 1]] == l.input[p..p + 2];
    } else {
      assert [l.input[p]] + "" == [l.input[p]];
    }
  }

  /** A letter or underscore starts a maximal run of letters and underscores; its literal is exactly
      that slice of the input, and its category is the keyword's if it is a keyword, else IDENT. */
  lemma NextTokenWord(l: Lexer)
    requires Valid(l)
    requires Start(l) < |l.input| && IsLetter([l.input[Start(l)]])
    ensures var p, q, tok := Start(l), NextToken(l).1.position, NextToken(l).0;
      && p < q <= |l.input|
      && tok.literal == l.input[p..q]
      && (forall i :: p <= i < q ==> IsLetter([l.input[i]]))
      && (q == |l.input| || !IsLetter([l.input[q]]))
      && tok.tokenType == LookupIdentifier(tok.literal).GetOr(IDENT)
  {
    NextTokenIsWord(l);
    RunBounds(SkipWhitespace(l), Letters);
    WordCategory(SkipWhitespace(l));
  }

  /** A word's category is its keyword's, or IDENT. */
  lemma WordCategory(s: Lexer)
    requires Valid(s) && IsLetter(s.ch)
    ensures ReadWord(s).0.tokenType == LookupIdentifier(ReadWord(s).0.literal).GetOr(IDENT)
  {
  }

  /** A letter is not an operator, so `nextToken` takes its letter branch. */
  lemma NextTokenIsWord(l: Lexer)
    requires Valid(l)
    requires Start(l) < |l.input| && IsLetter([l.input[Start(l)]])
    ensures NextToken(l) == ReadWord(SkipWhitespace(l))
  {
    LettersAreNotOperators(SkipWhitespace(l).ch);
  }

  /** No letter or digit is a key of the single-character table. */
  lemma LettersAreNotOperators(ch: string)
    requires IsLetter(ch) || IsDigit(ch)
    ensures !IsSingleCharToken(ch)
  {
    SingleCharKeys();
  }

  /** A run that starts on a character of its class ends past it, at the first character outside the class. */
  lemma RunBounds(s: Lexer, kind: CharClass)
    requires Valid(s) && s.position < |s.input| && InClass(kind, s.ch)
    ensures var q := ReadRun(s, kind).1.position;
      && s.position < q <= |s.input|
      && ReadRun(s, kind).0 == s.input[s.position..q]
      && (forall i :: s.position <= i < q ==> InClass(kind, [s.input[i]]))
      && (q == |s.input| || !InClass(kind, [s.input[q]]))
  {
    var e := SkipRun(s, kind);
    assert e == ReadRun(s, kind).1;
  }

  /** A digit starts a maximal run of digits, returned as INT with that slice as its literal. */
  lemma NextTokenNumber(l: Lexer)
    requires Valid(l)
    requires Start(l) < |l.input| && IsDigit([l.input[Start(l)]])
    ensures var p, q, tok := Start(l), NextToken(l).1.position, NextToken(l).0;
      && p < q <= |l.input|
      && tok == Token(INT, l.input[p..q])
      && (forall i :: p <= i < q ==> IsDigit([l.input[i]]))
      && (q == |l.input| || !IsDigit([l.input[q]]))
  {
    var s := SkipWhitespace(l);
    assert !IsLetter(s.ch);
    assert !IsSingleCharToken(s.ch);
  }

  /** Any other character yields ILLEGAL with an empty literal and moves the cursor one character. */
  lemma NextTokenIllegal(l: Lexer)
    requires Valid(l)
    requires Start(l) < |l.input|
    requires var c := [l.input[Start(l)]]; !IsSingleCharToken(c) && !IsLetter(c) && !IsDigit(c)
    ensures NextToken(l) .0 == Token(ILLEGAL, "")
    ensures NextToken(l).1.position == Start(l) + 1
  {
  }

  /** No character of the string is one `skipWhitespace` passes over. */
  predicate NoWhitespace(s: string) {
    forall i :: 0 <= i < |s| ==> !IsWhitespace([s[i]])
  }

  /** No token literal contains whitespace. */
  lemma NextTokenLiteralHasNoWhitespace(l: Lexer)
    requires Valid(l)
    ensures NoWhitespace(NextToken(l).0.literal)
  {
    var s := SkipWhitespace(l);
    if IsSingleCharToken(s.ch) {
      OperatorLiteralHasNoWhitespace(s);
    } else if s.ch != "" && IsLetter(s.ch) {
      RunHasNoWhitespace(s, Letters);
    } else if s.ch != "" && IsDigit(s.ch) {
      RunHasNoWhitespace(s, Digits);
    }
  }

  lemma OperatorLiteralHasNoWhitespace(s: Lexer)
    requires Valid(s) && IsSingleCharToken(s.ch) && !IsWhitespace(s.ch)
    ensures NoWhitespace(ReadOperator(s).0.literal)
  {
    var temp := s.ch + PeekChar(s);
    if IsDoubleCharToken(temp) {
      DoubleCharContents();
      assert temp == "==" || temp == "!=";
    } else {
      assert [s.ch[0]] == s.ch;
    }
  }

  lemma RunHasNoWhitespace(s: Lexer, kind: CharClass)
    requires Valid(s)
    ensures NoWhitespace(ReadRun(s, kind).0)
  {
  }

  /** The collected tokens are exactly what consecutive `nextToken` calls return, and past them
      the stream reads as EOF, just as the lexer keeps answering. */
  lemma {:induction false} TokenizeIsStream(l: Lexer, n: nat)
    requires Valid(l) && l.position <= |l.input|
    ensures TokenAt(Tokenize(l), n) == NthToken(l, n)
    decreases n
  {
    var r := NextToken(l);
    if r.0.tokenType == EOF {
      StreamAtEof(l, n);
    } else if n > 0 {
      TokenizeStep(l, r.0, r.1);
      TokenizeIsStream(r.1, n - 1);
      TokenAtCons(r.0, Tokenize(r.1), n);
    }
  }

  /** When the next call returns EOF, the collected list is that one token and the stream reads EOF after it. */
  lemma StreamAtEof(l: Lexer, n: nat)
    requires Valid(l) && l.position <= |l.input| && NextToken(l).0.tokenType == EOF
    ensures TokenAt(Tokenize(l), n) == NthToken(l, n)
  {
    NextTokenAtEnd(l);
    if n > 0 {
      EofForever(NextToken(l).1, n - 1);
    }
  }

  /** Dropping the first token of a stream shifts every later position back by one. */
  lemma TokenAtCons(tok: Token, ts: seq<Token>, n: nat)
    requires n > 0
    ensures TokenAt([tok] + ts, n) == TokenAt(ts, n - 1)
  {
  }
}
