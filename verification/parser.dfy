/**
 * The Pratt parser of src/parser.ts.
 *
 * The parser reads the token stream the lexer produces; any index past the
 * collected tokens reads as EOF, just as the lexer keeps answering EOF. Its
 * mutable state (the stream position and the growing error list) is threaded
 * through the parse functions as a `Parser` value. The prefix and infix handler
 * registries become `match` on the token category.
 *
 * Several loops of the source never end on some inputs (the infix loop when the
 * next token is `(`, the semicolon scans when EOF comes first, the block loop
 * when EOF follows `{`). The mutually recursive parse functions therefore take a
 * `fuel` bound and answer `Diverged` when it runs out, rather than claiming that
 * parsing always ends.
 */
module Parsing {
  import opened Optional
  import opened Tokens
  import opened Lexing
  import opened Ast

  // The `Precedence` enum.
  const LOWEST: int := 1
  const EQUALS: int := 2
  const LESSGREATER: int := 3
  const SUM: int := 4
  const PRODUCT: int := 5
  const PREFIX: int := 6
  const CALL: int := 7

  /** `precedences`, keyed by category name. Its product entry is spelled "ASTERISK",
      a name no category has: `*` is read as ASTERIX. */
  const Precedences: seq<(string, int)> := [
    ("EQ", EQUALS), ("NOT_EQ", EQUALS), ("LT", LESSGREATER), ("GT", LESSGREATER),
    ("PLUS", SUM), ("MINUS", SUM), ("SLASH", PRODUCT), ("ASTERISK", PRODUCT), ("LPAREN", CALL)
  ]

  /** `infixOperators`: the names handled by `parseInfixExpresion`. LPAREN is not among them. */
  const InfixOperators: seq<string> := ["PLUS", "MINUS", "SLASH", "ASTERISK", "EQ", "NOT_EQ", "LT", "GT"]

  /** The names `precedences` lists, distinct and in the table's order. */
  lemma PrecedenceKeys()
    ensures Keys(Precedences) == ["EQ", "NOT_EQ", "LT", "GT", "PLUS", "MINUS", "SLASH", "ASTERISK", "LPAREN"]
    ensures Distinct(Keys(Precedences))
  {
  }

  /** `isInfixOperator`. */
  predicate IsInfixOperator(name: string) {
    name in InfixOperators
  }

  /** Every name `isInfixOperator` accepts has a precedence above LOWEST, ASTERISK included. */
  lemma InfixOperatorHasPrecedence(name: string)
    requires IsInfixOperator(name)
    ensures PrecedenceOf(name) > LOWEST
  {
    PrecedenceKeys();
  }

  /** A table lookup that defaults to LOWEST for an unlisted name (`precedences[t] ?? LOWEST`). */
  function PrecedenceOf(name: string): (r: int)
    ensures LOWEST <= r <= CALL
  {
    Lookup(Precedences, name).GetOr(LOWEST)
  }

  /** The level the `precedences` table gives each category, read category by category: the
      parser consults this form, and `ParserFacts.PrecedenceByCategory` shows that it agrees with
      looking the category's name up in the table. ASTERIX falls to LOWEST like every unlisted
      category. */
  function CategoryPrecedence(t: TokenType): (r: int)
    ensures LOWEST <= r <= CALL
  {
    match t
    case EQ => EQUALS
    case NOT_EQ => EQUALS
    case LT => LESSGREATER
    case GT => LESSGREATER
    case PLUS => SUM
    case MINUS => SUM
    case SLASH => PRODUCT
    case LPAREN => CALL
    case _ => LOWEST
  }

  /** The categories whose names are in `infixOperators`, read category by category (see
      `ParserFacts.InfixOperatorByCategory`). ASTERIX and LPAREN are not among them. */
  predicate IsInfixCategory(t: TokenType) {
    t == PLUS || t == MINUS || t == SLASH || t == EQ || t == NOT_EQ || t == LT || t == GT
  }

  /** The infix registry read category by category. */
  function InfixParseFnForCategory(t: TokenType): (r: Option<InfixParseFn>)
    ensures r.Some? <==> CategoryPrecedence(t) > LOWEST
  {
    if t == LPAREN then Some(CallExpressionFn)
    else if IsInfixCategory(t) then Some(InfixExpressionFn)
    else None
  }

  /** The prefix handlers the constructor registers. */
  datatype PrefixParseFn =
    | IntegerLiteralFn | BooleanLiteralFn | GroupedExpressionFn | IfExpressionFn
    | FunctionLiteralFn | PrefixExpressionFn

  /** The prefix registry: INT, TRUE, FALSE, LPAREN, IF, FUNCTION, and BANG, MINUS and IDENT
      (all three to `parsePrefixExpression`). */
  function PrefixParseFnFor(t: TokenType): Option<PrefixParseFn> {
    match t
    case INT => Some(IntegerLiteralFn)
    case TRUE => Some(BooleanLiteralFn)
    case FALSE => Some(BooleanLiteralFn)
    case LPAREN => Some(GroupedExpressionFn)
    case IF => Some(IfExpressionFn)
    case FUNCTION => Some(FunctionLiteralFn)
    case BANG => Some(PrefixExpressionFn)
    case MINUS => Some(PrefixExpressionFn)
    case IDENT => Some(PrefixExpressionFn)
    case _ => None
  }

  /** The infix handlers the constructor registers. */
  datatype InfixParseFn = InfixExpressionFn | CallExpressionFn

  /** The infix registry, keyed by name: LPAREN to `parseCallExpression`, every infix operator
      to `parseInfixExpresion`. */
  function InfixParseFnFor(name: string): (r: Option<InfixParseFn>)
    ensures r.Some? ==> PrecedenceOf(name) > LOWEST
  {
    PrecedenceKeys();
    if name == "LPAREN" then Some(CallExpressionFn)
    else if IsInfixOperator(name) then Some(InfixExpressionFn)
    else None
  }

  /** The parser's state: the token stream, the index of `curToken` in it, and the errors so far. */
  datatype Parser = Parser(tokens: seq<Token>, index: nat, errors: seq<string>) {

    function Cur(): Token {
      TokenAt(tokens, index)
    }

    function Peek(): Token {
      TokenAt(tokens, index + 1)
    }

    /** `nextToken`: the old peek token becomes the current one, and one new token is pulled. */
    function NextToken(): (q: Parser)
      ensures q.Cur() == Peek()
      ensures q.tokens == tokens && q.errors == errors && q.index == index + 1
    {
      this.(index := index + 1)
    }

    predicate CurTokenIs(t: TokenType) {
      Cur().tokenType == t
    }

    predicate PeekTokenIs(t: TokenType) {
      Peek().tokenType == t
    }

    function AddError(message: string): Parser {
      this.(errors := errors + [message])
    }

    function CurPrecedence(): int {
      CategoryPrecedence(Cur().tokenType)
    }

    function PeekPrecedence(): int {
      CategoryPrecedence(Peek().tokenType)
    }
  }

  /** The constructor: lexes the input and reads the first two tokens. */
  function NewParser(input: string): (p: Parser)
    ensures p.index == 0 && p.errors == []
    ensures p.Cur() == NthToken(New(input), 0) && p.Peek() == NthToken(New(input), 1)
  {
    var l := New(input);
    TokenizeIsStream(l, 0);
    TokenizeIsStream(l, 1);
    Parser(Tokenize(l), 0, [])
  }

  /** The result of a parse function: its value and the state after it, or divergence. */
  datatype Step<T> = Done(value: T, state: Parser) | Diverged

  /** What every parse step preserves: the same tokens, the index never moves back, and
      errors are only ever appended. */
  predicate Advances(p: Parser, q: Parser) {
    q.tokens == p.tokens && p.index <= q.index && p.errors <= q.errors
  }

  /** A parse step that yields nothing has recorded at least one error. */
  predicate FailureReported<T>(p: Parser, r: Step<Option<T>>) {
    r.Done? && r.value.None? ==> |p.errors| < |r.state.errors|
  }

  function PeekErrorMessage(expected: TokenType, got: TokenType): string {
    "Expected next token to be " + expected.Name() + ", got " + got.Name() + " instead"
  }

  function NoPrefixMessage(t: TokenType): string {
    "No prefix parse function for " + t.Name() + " found"
  }

  const IdentifierAfterLetMessage: string := "Expected identifier after let"

  /** The outcome of `expectPeek`: whether the peek token matched, and the state after. */
  datatype Expectation = Expectation(ok: bool, state: Parser)

  /** `expectPeek` with `peekError`: advances once if the peek token has category t; otherwise
      records exactly one error naming t and the category found, and changes nothing else. */
  function ExpectPeek(p: Parser, t: TokenType): (r: Expectation)
    ensures r.ok <==> p.Peek().tokenType == t
    ensures r.ok ==> r.state.Cur() == p.Peek() && r.state.index == p.index + 1 && r.state.errors == p.errors
    ensures !r.ok ==> r.state.index == p.index
    ensures !r.ok ==> r.state.errors == p.errors + [PeekErrorMessage(t, p.Peek().tokenType)]
    ensures r.state.tokens == p.tokens
  {
    if p.PeekTokenIs(t) then Expectation(true, p.NextToken())
    else Expectation(false, p.AddError(PeekErrorMessage(t, p.Peek().tokenType)))
  }

  /** The decimal value of a string of digits. */
  function DecimalValue(digits: string): nat
    requires forall i :: 0 <= i < |digits| ==> '0' <= digits[i] <= '9'
  {
    if |digits| == 0 then 0
    else 10 * DecimalValue(digits[..|digits| - 1]) + (digits[|digits| - 1] - '0') as nat
  }

  /** The longest prefix of s made of decimal digits. */
  function LeadingDigits(s: string): (d: string)
    ensures |d| <= |s| && d == s[..|d|]
    ensures forall i :: 0 <= i < |d| ==> '0' <= d[i] <= '9'
    ensures |d| == |s| || !('0' <= s[|d|] <= '9')
  {
    if |s| > 0 && '0' <= s[0] <= '9' then [s[0]] + LeadingDigits(s[1..]) else ""
  }

  /** `parseInt` with radix 10: the value of the leading digits. */
  function ParseInt(s: string): nat {
    DecimalValue(LeadingDigits(s))
  }

  /** `parseIntegerLiteral`. */
  function ParseIntegerLiteral(p: Parser): Expression {
    IntegerLiteral(p.Cur(), ParseInt(p.Cur().literal))
  }

  /** `parseBooleanLiteral`. */
  function ParseBooleanLiteral(p: Parser): Expression {
    Boolean(p.Cur(), p.CurTokenIs(TRUE))
  }

  /** `parseIdentifier`: an identifier built from the current token, whatever its category. */
  function ParseIdentifier(p: Parser): Identifier {
    Identifier(p.Cur(), p.Cur().literal)
  }

  /** `parseExpression`: a prefix handler for the current token, then the precedence-climbing loop. */
  function ParseExpression(p: Parser, precedence: int, fuel: nat): (r: Step<Option<Expression>>)
    ensures r.Done? ==> Advances(p, r.state)
    ensures FailureReported(p, r)
    decreases fuel
  {
    if fuel == 0 then Diverged
    else match PrefixParseFnFor(p.Cur().tokenType)
      case None => Done(None, p.AddError(NoPrefixMessage(p.Cur().tokenType)))
      case Some(prefixFn) =>
        var left := ApplyPrefix(prefixFn, p, fuel - 1);
        if left.Diverged? then Diverged
        else ExpressionLoop(left.state, precedence, left.value, fuel - 1)
  }

  /** The `while` loop of `parseExpression`. When the peek token binds tighter than `precedence`
      but is not an infix operator, the body does nothing and the loop runs again unchanged. */
  function ExpressionLoop(p: Parser, precedence: int, left: Option<Expression>, fuel: nat)
    : (r: Step<Option<Expression>>)
    ensures r.Done? ==> Advances(p, r.state)
    ensures r.Done? && r.value.None? ==> left.None? || |p.errors| < |r.state.errors|
    decreases fuel
  {
    if fuel == 0 then Diverged
    else if p.PeekTokenIs(SEMICOLON) || !(precedence < p.PeekPrecedence()) then Done(left, p)
    else if !IsInfixCategory(p.Peek().tokenType) then ExpressionLoop(p, precedence, left, fuel - 1)
    else match InfixParseFnForCategory(p.Peek().tokenType)
      case None => Done(left, p)
      case Some(infixFn) =>
        var q := p.NextToken();
        if left.None? then ExpressionLoop(q, precedence, left, fuel - 1)
        else
          var combined := ApplyInfix(infixFn, q, left.value, fuel - 1);
          if combined.Diverged? then Diverged
          else ExpressionLoop(combined.state, precedence, combined.value, fuel - 1)
  }

  /** Calls the registered prefix handler. */
  function ApplyPrefix(prefixFn: PrefixParseFn, p: Parser, fuel: nat): (r: Step<Option<Expression>>)
    ensures r.Done? ==> Advances(p, r.state)
    ensures FailureReported(p, r)
    decreases fuel
  {
    if fuel == 0 then Diverged
    else match prefixFn
      case IntegerLiteralFn => Done(Some(ParseIntegerLiteral(p)), p)
      case BooleanLiteralFn => Done(Some(ParseBooleanLiteral(p)), p)
      case GroupedExpressionFn => ParseGroupedExpression(p, fuel - 1)
      case IfExpressionFn => ParseIfExpression(p, fuel - 1)
      case FunctionLiteralFn => ParseFunctionLiteral(p, fuel - 1)
      case PrefixExpressionFn => ParsePrefixExpression(p, fuel - 1)
  }

  /** Calls the registered infix handler on the left operand. */
  function ApplyInfix(infixFn: InfixParseFn, p: Parser, left: Expression, fuel: nat)
    : (r: Step<Option<Expression>>)
    ensures r.Done? ==> Advances(p, r.state)
    ensures infixFn == InfixExpressionFn ==> FailureReported(p, r)
    decreases fuel
  {
    if fuel == 0 then Diverged
    else match infixFn
      case InfixExpressionFn => ParseInfixExpression(p, left, fuel - 1)
      case CallExpressionFn => ParseCallExpression(p, left, fuel - 1)
  }

  /** `parsePrefixExpression`: the operator is the current token's literal; the node is built
      only if the operand parses. */
  function ParsePrefixExpression(p: Parser, fuel: nat): (r: Step<Option<Expression>>)
    ensures r.Done? ==> Advances(p, r.state)
    ensures FailureReported(p, r)
    decreases fuel
  {
    if fuel == 0 then Diverged
    else
      var token := p.Cur();
      var right := ParseExpression(p.NextToken(), PREFIX, fuel - 1);
      if right.Diverged? then Diverged
      else if right.value.None? then Done(None, right.state)
      else Done(Some(Prefix(token, token.literal, right.value.value)), right.state)
  }

  /** `parseInfixExpresion`: the right operand is parsed at the operator's own precedence; the
      node is built only if it parses. */
  function ParseInfixExpression(p: Parser, left: Expression, fuel: nat): (r: Step<Option<Expression>>)
    ensures r.Done? ==> Advances(p, r.state)
    ensures FailureReported(p, r)
    decreases fuel
  {
    if fuel == 0 then Diverged
    else
      var token := p.Cur();
      var right := ParseExpression(p.NextToken(), p.CurPrecedence(), fuel - 1);
      if right.Diverged? then Diverged
      else if right.value.None? then Done(None, right.state)
      else Done(Some(Infix(token, left, token.literal, right.value.value)), right.state)
  }

  /** `parseGroupedExpression`: the inner expression itself, or nothing if `)` does not follow. */
  function ParseGroupedExpression(p: Parser, fuel: nat): (r: Step<Option<Expression>>)
    ensures r.Done? ==> Advances(p, r.state)
    ensures FailureReported(p, r)
    decreases fuel
  {
    if fuel == 0 then Diverged
    else
      var inner := ParseExpression(p.NextToken(), LOWEST, fuel - 1);
      if inner.Diverged? then Diverged
      else
        var close := ExpectPeek(inner.state, RPAREN);
        if !close.ok then Done(None, close.state) else Done(inner.value, close.state)
  }

  /** `parseIfExpression`: `if`, the parenthesised condition, then `ParseIfBlocks`. */
  function ParseIfExpression(p: Parser, fuel: nat): (r: Step<Option<Expression>>)
    ensures r.Done? ==> Advances(p, r.state)
    ensures FailureReported(p, r)
    decreases fuel
  {
    if fuel == 0 then Diverged
    else
      var token := p.Cur();
      var open := ExpectPeek(p, LPAREN);
      if !open.ok then Done(None, open.state)
      else
        var condition := ParseExpression(open.state.NextToken(), LOWEST, fuel - 1);
        if condition.Diverged? then Diverged
        else if condition.value.None? then Done(None, condition.state)
        else ParseIfBlocks(condition.state, token, condition.value.value, fuel)
  }

  /** The rest of `parseIfExpression` once the condition is parsed: the closing parenthesis,
      the consequence block, and the block after `else` when the next token is ELSE. */
  function ParseIfBlocks(p: Parser, token: Token, condition: Expression, fuel: nat): (r: Step<Option<Expression>>)
    ensures r.Done? ==> Advances(p, r.state)
    ensures FailureReported(p, r)
    decreases fuel, 0
  {
    if fuel == 0 then Diverged
    else
      var close := ExpectPeek(p, RPAREN);
      if !close.ok then Done(None, close.state)
      else
        var brace := ExpectPeek(close.state, LBRACE);
        if !brace.ok then Done(None, brace.state)
        else
          var consequence := ParseBlockStatement(brace.state, fuel - 1);
          if consequence.Diverged? then Diverged
          else if !consequence.state.PeekTokenIs(ELSE) then
            Done(Some(If(token, condition, consequence.value, None)), consequence.state)
          else
            var elseBrace := ExpectPeek(consequence.state.NextToken(), LBRACE);
            if !elseBrace.ok then Done(None, elseBrace.state)
            else
              var alternative := ParseBlockStatement(elseBrace.state, fuel - 1);
              if alternative.Diverged? then Diverged
              else Done(Some(If(token, condition, consequence.value, Some(alternative.value))), alternative.state)
  }

  /** `parseFunctionLiteral`: a failed parameter list counts as no parameters (`?? []`). */
  function ParseFunctionLiteral(p: Parser, fuel: nat): (r: Step<Option<Expression>>)
    ensures r.Done? ==> Advances(p, r.state)
    ensures FailureReported(p, r)
    decreases fuel
  {
    if fuel == 0 then Diverged
    else
      var token := p.Cur();
      var open := ExpectPeek(p, LPAREN);
      if !open.ok then Done(None, open.state)
      else
        var parameters := ParseFunctionParameters(open.state);
        var brace := ExpectPeek(parameters.state, LBRACE);
        if !brace.ok then Done(None, brace.state)
        else
          var body := ParseBlockStatement(brace.state, fuel - 1);
          if body.Diverged? then Diverged
          else Done(Some(Function(FunctionLiteral(token, parameters.value.GetOr([]), body.value))), body.state)
  }

  /** `parseFunctionParameters`: each parameter is whatever token stands there, of any category. */
  function ParseFunctionParameters(p: Parser): (r: Step<Option<seq<Identifier>>>)
    ensures r.Done? && Advances(p, r.state)
    ensures r.state.errors == p.errors || r.value.None?
  {
    if p.PeekTokenIs(RPAREN) then Done(Some([]), p.NextToken())
    else
      var first := p.NextToken();
      var rest := ParameterLoop(first, [ParseIdentifier(first)]);
      var close := ExpectPeek(rest.state, RPAREN);
      if !close.ok then Done(None, close.state) else Done(Some(rest.value), close.state)
  }

  /** The `while (peek is COMMA)` loop of `parseFunctionParameters`. */
  function ParameterLoop(p: Parser, identifiers: seq<Identifier>): (r: Step<seq<Identifier>>)
    ensures r.Done? && Advances(p, r.state) && r.state.errors == p.errors
    ensures identifiers <= r.value
    ensures !r.state.PeekTokenIs(COMMA)
    decreases |p.tokens| - p.index
  {
    if !p.PeekTokenIs(COMMA) then Done(identifiers, p)
    else
      var next := p.NextToken().NextToken();
      ParameterLoop(next, identifiers + [ParseIdentifier(next)])
  }

  /** `parseBlockStatement`. Its loop condition is `!cur is RBRACE && cur is EOF`, so the loop
      body runs only while the current token is EOF. */
  function ParseBlockStatement(p: Parser, fuel: nat): (r: Step<BlockStatement>)
    ensures r.Done? ==> Advances(p, r.state)
    decreases fuel
  {
    if fuel == 0 then Diverged
    else
      var loop := BlockLoop(p.NextToken(), [], fuel - 1);
      if loop.Diverged? then Diverged else Done(BlockStatement(loop.value), loop.state)
  }

  /** The `while` loop of `parseBlockStatement`. */
  function BlockLoop(p: Parser, statements: seq<Statement>, fuel: nat): (r: Step<seq<Statement>>)
    ensures r.Done? ==> Advances(p, r.state) && statements <= r.value
    decreases fuel
  {
    if fuel == 0 then Diverged
    else if !(!p.CurTokenIs(RBRACE) && p.CurTokenIs(EOF)) then Done(statements, p)
    else
      var s := ParseStatement(p, fuel - 1);
      if s.Diverged? then Diverged
      else BlockLoop(s.state.NextToken(), statements + s.value.ToSeq(), fuel - 1)
  }

  /** `parseStatement`: dispatch on the current token. */
  function ParseStatement(p: Parser, fuel: nat): (r: Step<Option<Statement>>)
    ensures r.Done? ==> Advances(p, r.state)
    ensures FailureReported(p, r)
    decreases fuel
  {
    if fuel == 0 then Diverged
    else match p.Cur().tokenType
      case LET => ParseLetStatement(p, fuel - 1)
      case RETURN => ParseReturnStatement(p, fuel - 1)
      case _ => ParseExpressionStatement(p, fuel - 1)
  }

  /** `while (!curTokenIs("SEMICOLON")) nextToken()`. Past the end of the tokens the current
      token is EOF forever, so the scan never ends if no SEMICOLON remains. */
  function SkipToSemicolon(p: Parser): (r: Step<()>)
    ensures r.Done? ==> Advances(p, r.state) && r.state.errors == p.errors && r.state.CurTokenIs(SEMICOLON)
    decreases |p.tokens| - p.index
  {
    if p.CurTokenIs(SEMICOLON) then Done((), p)
    else if p.index >= |p.tokens| then Diverged
    else SkipToSemicolon(p.NextToken())
  }

  /** `parseLetStatement`. */
  function ParseLetStatement(p: Parser, fuel: nat): (r: Step<Option<Statement>>)
    ensures r.Done? ==> Advances(p, r.state)
    ensures FailureReported(p, r)
    decreases fuel
  {
    if fuel == 0 then Diverged
    else
      var token := p.Cur();
      var ident := ExpectPeek(p, IDENT);
      if !ident.ok then Done(None, ident.state.AddError(IdentifierAfterLetMessage))
      else
        var name := Identifier(ident.state.Cur(), ident.state.Cur().literal);
        var assign := ExpectPeek(ident.state, ASSIGN);
        if !assign.ok then Done(None, assign.state)
        else
          var value := ParseExpression(assign.state.NextToken(), LOWEST, fuel - 1);
          if value.Diverged? then Diverged
          else
            var end := SkipToSemicolon(value.state);
            if end.Diverged? then Diverged
            else Done(Some(LetStatement(token, name, value.value)), end.state)
  }

  /** `parseReturnStatement`. */
  function ParseReturnStatement(p: Parser, fuel: nat): (r: Step<Option<Statement>>)
    ensures r.Done? ==> Advances(p, r.state)
    ensures FailureReported(p, r)
    decreases fuel
  {
    if fuel == 0 then Diverged
    else
      var token := p.Cur();
      var value := ParseExpression(p.NextToken(), LOWEST, fuel - 1);
      if value.Diverged? then Diverged
      else
        var end := SkipToSemicolon(value.state);
        if end.Diverged? then Diverged
        else if value.value.None? then Done(None, end.state)
        else Done(Some(ReturnStatement(token, value.value.value)), end.state)
  }

  /** `parseExpressionStatement`: an optional trailing semicolon is consumed. */
  function ParseExpressionStatement(p: Parser, fuel: nat): (r: Step<Option<Statement>>)
    ensures r.Done? ==> Advances(p, r.state)
    ensures FailureReported(p, r)
    decreases fuel
  {
    if fuel == 0 then Diverged
    else
      var token := p.Cur();
      var e := ParseExpression(p, LOWEST, fuel - 1);
      if e.Diverged? then Diverged
      else
        var after := if e.state.PeekTokenIs(SEMICOLON) then e.state.NextToken() else e.state;
        if e.value.None? then Done(None, after)
        else Done(Some(ExpressionStatement(token, e.value.value)), after)
  }

  /** `parseCallExpression`: only an identifier or a function literal is called; any other
      left operand gives nothing, consuming nothing. The node's token is the current token
      after the arguments. */
  function ParseCallExpression(p: Parser, fn: Expression, fuel: nat): (r: Step<Option<Expression>>)
    ensures r.Done? ==> Advances(p, r.state)
    decreases fuel
  {
    if fuel == 0 then Diverged
    else if !(fn.Ident? || fn.Function?) then Done(None, p)
    else
      var callee := if fn.Ident? then CalleeIdentifier(fn.id) else CalleeFunction(fn.fn);
      var args := ParseCallArguments(p, fuel - 1);
      if args.Diverged? then Diverged
      else if args.value.None? then Done(None, args.state)
      else Done(Some(Call(args.state.Cur(), callee, args.value.value)), args.state)
  }

  /** `parseCallArguments`: arguments that fail to parse are left out of the list. */
  function ParseCallArguments(p: Parser, fuel: nat): (r: Step<Option<seq<Expression>>>)
    ensures r.Done? ==> Advances(p, r.state)
    ensures FailureReported(p, r)
    decreases fuel
  {
    if fuel == 0 then Diverged
    else if p.PeekTokenIs(RPAREN) then Done(Some([]), p.NextToken())
    else
      var first := ParseExpression(p.NextToken(), LOWEST, fuel - 1);
      if first.Diverged? then Diverged
      else
        var rest := ArgumentLoop(first.state, first.value.ToSeq(), fuel - 1);
        if rest.Diverged? then Diverged
        else
          var close := ExpectPeek(rest.state, RPAREN);
          if !close.ok then Done(None, close.state) else Done(Some(rest.value), close.state)
  }

  /** The `while (peek is COMMA)` loop of `parseCallArguments`. */
  function ArgumentLoop(p: Parser, args: seq<Expression>, fuel: nat): (r: Step<seq<Expression>>)
    ensures r.Done? ==> Advances(p, r.state) && args <= r.value
    decreases fuel
  {
    if fuel == 0 then Diverged
    else if !p.PeekTokenIs(COMMA) then Done(args, p)
    else
      var e := ParseExpression(p.NextToken().NextToken(), LOWEST, fuel - 1);
      if e.Diverged? then Diverged
      else ArgumentLoop(e.state, args + e.value.ToSeq(), fuel - 1)
  }

  /** `parse`: statements until the current token is EOF; statements that fail are dropped. */
  function ParseProgram(p: Parser, fuel: nat): (r: Step<Program>)
    ensures r.Done? ==> Advances(p, r.state) && r.state.CurTokenIs(EOF)
  {
    var loop := ProgramLoop(p, EmptyProgram().statements, fuel);
    if loop.Diverged? then Diverged else Done(Program(loop.value), loop.state)
  }

  /** The `while` loop of `parse`. */
  function ProgramLoop(p: Parser, statements: seq<Statement>, fuel: nat): (r: Step<seq<Statement>>)
    ensures r.Done? ==> Advances(p, r.state) && statements <= r.value && r.state.CurTokenIs(EOF)
    decreases fuel
  {
    if fuel == 0 then Diverged
    else if p.CurTokenIs(EOF) then Done(statements, p)
    else
      var s := ParseStatement(p, fuel - 1);
      if s.Diverged? then Diverged
      else ProgramLoop(s.state.NextToken(), statements + s.value.ToSeq(), fuel - 1)
  }

  /** Lexes and parses a whole input: the program and the error list, or divergence. */
  function Parse(input: string, fuel: nat): (r: Step<Program>)
    ensures r.Done? ==> r.state.tokens == Tokenize(New(input)) && r.state.CurTokenIs(EOF)
  {
    ParseProgram(NewParser(input), fuel)
  }
}
