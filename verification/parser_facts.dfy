/**
 * Properties of the parser model: the precedence and dispatch tables, the
 * statement and expression parsers' outcomes, and the inputs on which the
 * source's loops never end.
 */
module ParserFacts {
  import opened Optional
  import opened Tokens
  import opened Lexing
  import opened Ast
  import opened Parsing

  /** Reading back the table's names gives the listed categories, and nothing for "ASTERISK". */
  lemma FromNameOfKeys()
    ensures FromName("EQ") == Some(EQ) && FromName("NOT_EQ") == Some(NOT_EQ)
    ensures FromName("LT") == Some(LT) && FromName("GT") == Some(GT)
    ensures FromName("PLUS") == Some(PLUS) && FromName("MINUS") == Some(MINUS)
    ensures FromName("SLASH") == Some(SLASH) && FromName("LPAREN") == Some(LPAREN)
    ensures FromName("ASTERISK") == None
  {
  }

  /** The precedence levels rise strictly from LOWEST = 1 to CALL = 7. */
  lemma PrecedenceLevels()
    ensures LOWEST == 1 && CALL == 7
    ensures LOWEST < EQUALS < LESSGREATER < SUM < PRODUCT < PREFIX < CALL
  {
  }

  /** The categories the precedence table lists under their own names. */
  predicate HasPrecedenceEntry(t: TokenType) {
    t in {EQ, NOT_EQ, LT, GT, PLUS, MINUS, SLASH, LPAREN}
  }

  lemma PrecedenceOfListed(t: TokenType)
    requires HasPrecedenceEntry(t)
    ensures PrecedenceOf(t.Name()) == CategoryPrecedence(t)
  {
    PrecedenceKeys();
    match t
    case EQ => LookupDistinct(Precedences, 0);
    case NOT_EQ => LookupDistinct(Precedences, 1);
    case LT => LookupDistinct(Precedences, 2);
    case GT => LookupDistinct(Precedences, 3);
    case PLUS => LookupDistinct(Precedences, 4);
    case MINUS => LookupDistinct(Precedences, 5);
    case SLASH => LookupDistinct(Precedences, 6);
    case LPAREN => LookupDistinct(Precedences, 8);
  }

  lemma PrecedenceOfUnlisted(t: TokenType)
    requires !HasPrecedenceEntry(t)
    ensures PrecedenceOf(t.Name()) == LOWEST
  {
    PrecedenceKeys();
    FromNameOfKeys();
    NameRoundTrip(t);
    assert t.Name() !in Keys(Precedences);
  }

  /** Looking a category up by name gives its table entry, or LOWEST when it has none; ASTERIX
      has none, because the table spells its entry "ASTERISK". */
  lemma PrecedenceByCategory(t: TokenType)
    ensures PrecedenceOf(t.Name()) == CategoryPrecedence(t)
    ensures t in {ASTERIX, RPAREN, SEMICOLON, EOF} ==> PrecedenceOf(t.Name()) == LOWEST
  {
    if HasPrecedenceEntry(t) {
      PrecedenceOfListed(t);
    } else {
      PrecedenceOfUnlisted(t);
    }
  }

  /** Only PLUS, MINUS, SLASH, EQ, NOT_EQ, LT and GT are infix operators: not ASTERIX (the list
      says "ASTERISK") and not LPAREN, so the call handler is never chosen. */
  lemma InfixOperatorByCategory(t: TokenType)
    ensures IsInfixOperator(t.Name()) <==> IsInfixCategory(t)
    ensures InfixParseFnFor(t.Name()) == InfixParseFnForCategory(t)
  {
    InfixNameOnlyIfCategory(t);
    InfixCategoryHasName(t);
  }

  lemma InfixNameOnlyIfCategory(t: TokenType)
    ensures IsInfixOperator(t.Name()) ==> IsInfixCategory(t)
  {
  }

  lemma InfixCategoryHasName(t: TokenType)
    ensures IsInfixCategory(t) ==> IsInfixOperator(t.Name())
    ensures t.Name() == "LPAREN" <==> t == LPAREN
  {
  }

  /** The prefix registry in full: only INT, TRUE, FALSE, LPAREN, IF, FUNCTION, BANG, MINUS and
      IDENT have handlers, each category's handler is named, and IDENT's is the prefix-operator
      handler. */
  lemma PrefixRegistry(t: TokenType)
    ensures PrefixParseFnFor(t).Some? <==> t in {INT, TRUE, FALSE, LPAREN, IF, FUNCTION, BANG, MINUS, IDENT}
    ensures t == INT <==> PrefixParseFnFor(t) == Some(IntegerLiteralFn)
    ensures t in {TRUE, FALSE} <==> PrefixParseFnFor(t) == Some(BooleanLiteralFn)
    ensures t == LPAREN <==> PrefixParseFnFor(t) == Some(GroupedExpressionFn)
    ensures t == IF <==> PrefixParseFnFor(t) == Some(IfExpressionFn)
    ensures t == FUNCTION <==> PrefixParseFnFor(t) == Some(FunctionLiteralFn)
    ensures t in {BANG, MINUS, IDENT} <==> PrefixParseFnFor(t) == Some(PrefixExpressionFn)
  {
  }

  /** The three kinds of diagnostic can be told apart: no `expectPeek` error reads like a
      missing prefix handler or a missing let name, and those two differ from each other. */
  lemma ErrorMessagesDistinct(expected: TokenType, got: TokenType, t: TokenType)
    ensures PeekErrorMessage(expected, got) != NoPrefixMessage(t)
    ensures PeekErrorMessage(expected, got) != IdentifierAfterLetMessage
    ensures NoPrefixMessage(t) != IdentifierAfterLetMessage
  {
    assert PeekErrorMessage(expected, got)[0] == 'E' && NoPrefixMessage(t)[0] == 'N';
    assert PeekErrorMessage(expected, got)[9] == 'n' && IdentifierAfterLetMessage[9] == 'i';
  }

  /** With no prefix handler for the current token, `parseExpression` records exactly one error,
      consumes nothing and yields nothing. */
  lemma NoPrefixHandler(p: Parser, precedence: int, fuel: nat)
    requires fuel > 0 && PrefixParseFnFor(p.Cur().tokenType).None?
    ensures ParseExpression(p, precedence, fuel) == Done(None, p.AddError(NoPrefixMessage(p.Cur().tokenType)))
  {
  }

  /** The precedence-climbing loop stops at a peeked semicolon, whatever its threshold. */
  lemma LoopStopsAtSemicolon(p: Parser, precedence: int, left: Option<Expression>, fuel: nat)
    requires fuel > 0 && p.PeekTokenIs(SEMICOLON)
    ensures ExpressionLoop(p, precedence, left, fuel) == Done(left, p)
  {
  }

  /** The loop also stops when the peek token does not bind tighter than the threshold. */
  lemma LoopStopsAtWeakerOperator(p: Parser, precedence: int, left: Option<Expression>, fuel: nat)
    requires fuel > 0 && CategoryPrecedence(p.Peek().tokenType) <= precedence
    ensures ExpressionLoop(p, precedence, left, fuel) == Done(left, p)
  {
  }

  /** Proof step, one unfolding: when the peek token is an infix operator that binds tighter than
      the threshold, the loop moves onto it, lets `parseInfixExpresion` combine the left operand
      with what follows, and goes round again with the combined expression. */
  lemma LoopAppliesTighterOperator(p: Parser, precedence: int, left: Expression, fuel: nat)
    requires fuel >= 3 && precedence < CategoryPrecedence(p.Peek().tokenType)
    requires IsInfixCategory(p.Peek().tokenType)
    ensures var c := ParseInfixExpression(p.NextToken(), left, fuel - 2);
      ExpressionLoop(p, precedence, Some(left), fuel)
        == if c.Diverged? then Diverged else ExpressionLoop(c.state, precedence, c.value, fuel - 1)
  {
  }

  /** Proof step: `LoopAppliesTighterOperator` once the infix handler's outcome is known. */
  lemma LoopAppliesOperatorTo(p: Parser, precedence: int, left: Expression, fuel: nat,
                              combined: Option<Expression>, q: Parser)
    requires fuel >= 3 && precedence < CategoryPrecedence(p.Peek().tokenType)
    requires IsInfixCategory(p.Peek().tokenType)
    requires ParseInfixExpression(p.NextToken(), left, fuel - 2) == Done(combined, q)
    ensures ExpressionLoop(p, precedence, Some(left), fuel) == ExpressionLoop(q, precedence, combined, fuel - 1)
  {
    LoopAppliesTighterOperator(p, precedence, left, fuel);
  }

  /** Proof step, one unfolding: an expression that starts with an integer literal continues
      with the loop from that literal. */
  lemma IntegerPrefix(p: Parser, precedence: int, fuel: nat)
    requires fuel >= 2 && p.CurTokenIs(INT)
    ensures ParseExpression(p, precedence, fuel) == ExpressionLoop(p, precedence, Some(ParseIntegerLiteral(p)), fuel - 1)
  {
  }

  /** Proof step: `IntegerPrefix` once the loop's outcome is known. */
  lemma IntegerStartsWith(p: Parser, precedence: int, fuel: nat, r: Step<Option<Expression>>)
    requires fuel >= 2 && p.CurTokenIs(INT)
    requires ExpressionLoop(p, precedence, Some(ParseIntegerLiteral(p)), fuel - 1) == r
    ensures ParseExpression(p, precedence, fuel) == r
  {
    IntegerPrefix(p, precedence, fuel);
  }

  /** An integer literal followed by an operator that does not bind tighter than the threshold
      (or by a semicolon, `)`, EOF or any other non-operator) is a whole operand by itself. */
  lemma IntegerOperand(p: Parser, precedence: int, fuel: nat)
    requires fuel >= 2 && p.CurTokenIs(INT) && CategoryPrecedence(p.Peek().tokenType) <= precedence
    ensures ParseExpression(p, precedence, fuel) == Done(Some(ParseIntegerLiteral(p)), p)
  {
    IntegerPrefix(p, precedence, fuel);
    LoopStopsAtWeakerOperator(p, precedence, Some(ParseIntegerLiteral(p)), fuel - 1);
  }

  /** `a op b` where `b` is an integer followed by an operator that binds no tighter than `op`:
      the infix handler builds the node with `b` as its whole right operand and stops on `b`. */
  lemma InfixWithIntegerOperand(p: Parser, left: Expression, fuel: nat)
    requires fuel >= 3 && p.Peek().tokenType == INT
    requires CategoryPrecedence(TokenAt(p.tokens, p.index + 2).tokenType) <= p.CurPrecedence()
    ensures ParseInfixExpression(p, left, fuel)
      == Done(Some(Infix(p.Cur(), left, p.Cur().literal, ParseIntegerLiteral(p.NextToken()))), p.NextToken())
  {
    IntegerOperand(p.NextToken(), p.CurPrecedence(), fuel - 1);
    InfixWithOperand(p, left, fuel, ParseIntegerLiteral(p.NextToken()), p.NextToken());
  }

  /** Left association: in `left op1 b op2 ...` with `op2` binding no tighter than `op1`, the
      loop first forms `(left op1 b)` and only then looks at `op2`. */
  lemma LoopGroupsLeft(p: Parser, precedence: int, left: Expression, fuel: nat)
    requires fuel >= 5 && IsInfixCategory(p.Peek().tokenType)
    requires precedence < CategoryPrecedence(p.Peek().tokenType)
    requires TokenAt(p.tokens, p.index + 2).tokenType == INT
    requires CategoryPrecedence(TokenAt(p.tokens, p.index + 3).tokenType) <= CategoryPrecedence(p.Peek().tokenType)
    ensures var q := p.NextToken().NextToken();
      ExpressionLoop(p, precedence, Some(left), fuel)
        == ExpressionLoop(q, precedence, Some(Infix(p.Peek(), left, p.Peek().literal, ParseIntegerLiteral(q))), fuel - 1)
  {
    LoopAppliesTighterOperator(p, precedence, left, fuel);
    InfixWithIntegerOperand(p.NextToken(), left, fuel - 2);
  }

  /** Tighter binding on the right: in `op1 b op2 c` with `op2` binding tighter than `op1` and
      nothing after `c` binding tighter than `op1`, the right operand of `op1` is `(b op2 c)`. */
  lemma InfixGroupsRight(p: Parser, left: Expression, fuel: nat)
    requires fuel >= 7
    requires TokenAt(p.tokens, p.index + 1).tokenType == INT
    requires IsInfixCategory(TokenAt(p.tokens, p.index + 2).tokenType)
    requires p.CurPrecedence() < CategoryPrecedence(TokenAt(p.tokens, p.index + 2).tokenType)
    requires TokenAt(p.tokens, p.index + 3).tokenType == INT
    requires CategoryPrecedence(TokenAt(p.tokens, p.index + 4).tokenType) <= p.CurPrecedence()
    ensures var b, op, c := p.NextToken(), p.NextToken().NextToken(), p.NextToken().NextToken().NextToken();
      ParseInfixExpression(p, left, fuel)
        == Done(Some(Infix(p.Cur(), left, p.Cur().literal,
                           Infix(op.Cur(), ParseIntegerLiteral(b), op.Cur().literal, ParseIntegerLiteral(c)))), c)
  {
    var b := p.NextToken();
    var c := b.NextToken().NextToken();
    RightOperandGroups(p, fuel);
    InfixWithOperand(p, left, fuel, Infix(b.Peek(), ParseIntegerLiteral(b), b.Peek().literal, ParseIntegerLiteral(c)), c);
  }

  /** The right operand of `InfixGroupsRight`: `b op c` at the outer operator's precedence. */
  lemma RightOperandGroups(p: Parser, fuel: nat)
    requires fuel >= 7
    requires TokenAt(p.tokens, p.index + 1).tokenType == INT
    requires IsInfixCategory(TokenAt(p.tokens, p.index + 2).tokenType)
    requires p.CurPrecedence() < CategoryPrecedence(TokenAt(p.tokens, p.index + 2).tokenType)
    requires TokenAt(p.tokens, p.index + 3).tokenType == INT
    requires CategoryPrecedence(TokenAt(p.tokens, p.index + 4).tokenType) <= p.CurPrecedence()
    ensures var b := p.NextToken();
      var c := b.NextToken().NextToken();
      ParseExpression(b, p.CurPrecedence(), fuel - 1)
        == Done(Some(Infix(b.Peek(), ParseIntegerLiteral(b), b.Peek().literal, ParseIntegerLiteral(c))), c)
  {
    var b := p.NextToken();
    assert b.Cur() == TokenAt(p.tokens, p.index + 1);
    assert b.Peek() == TokenAt(p.tokens, p.index + 2);
    assert TokenAt(b.tokens, b.index + 2) == TokenAt(p.tokens, p.index + 3);
    assert TokenAt(b.tokens, b.index + 3) == TokenAt(p.tokens, p.index + 4);
    TighterOperand(b, p.CurPrecedence(), fuel - 1);
  }

  /** Proof step, one unfolding: once the right operand parses, `parseInfixExpresion` builds the
      node from the operator token, the left operand and that right operand, and leaves the parser
      where the operand ended. */
  lemma InfixWithOperand(p: Parser, left: Expression, fuel: nat, right: Expression, q: Parser)
    requires fuel >= 1 && ParseExpression(p.NextToken(), p.CurPrecedence(), fuel - 1) == Done(Some(right), q)
    ensures ParseInfixExpression(p, left, fuel) == Done(Some(Infix(p.Cur(), left, p.Cur().literal, right)), q)
  {
  }

  /** `b op c` where `op` binds tighter than the threshold and what follows `c` does not: the
      expression is `(b op c)`, ending on `c`. */
  lemma TighterOperand(b: Parser, precedence: int, fuel: nat)
    requires fuel >= 6 && b.CurTokenIs(INT) && OneTighterOperatorAhead(b, precedence)
    ensures var c := b.NextToken().NextToken();
      ParseExpression(b, precedence, fuel)
        == Done(Some(Infix(b.Peek(), ParseIntegerLiteral(b), b.Peek().literal, ParseIntegerLiteral(c))), c)
  {
    var c := b.NextToken().NextToken();
    LoopTakesOneOperator(b, precedence, ParseIntegerLiteral(b), fuel - 1);
    IntegerStartsWith(b, precedence, fuel,
      Done(Some(Infix(b.Peek(), ParseIntegerLiteral(b), b.Peek().literal, ParseIntegerLiteral(c))), c));
  }

  /** The tokens after the current one are `op INT t`, where `op` is an infix operator binding
      tighter than the threshold and `t` binds no tighter. */
  predicate OneTighterOperatorAhead(p: Parser, precedence: int) {
    && IsInfixCategory(p.Peek().tokenType)
    && precedence < CategoryPrecedence(p.Peek().tokenType)
    && TokenAt(p.tokens, p.index + 2).tokenType == INT
    && CategoryPrecedence(TokenAt(p.tokens, p.index + 3).tokenType) <= precedence
  }

  /** The loop applies one tighter operator to an integer operand and then stops, because the
      token after that operand binds no tighter than the threshold. */
  lemma LoopTakesOneOperator(p: Parser, precedence: int, left: Expression, fuel: nat)
    requires fuel >= 5 && OneTighterOperatorAhead(p, precedence)
    ensures var c := p.NextToken().NextToken();
      ExpressionLoop(p, precedence, Some(left), fuel)
        == Done(Some(Infix(p.Peek(), left, p.Peek().literal, ParseIntegerLiteral(c))), c)
  {
    var c := p.NextToken().NextToken();
    assert c.Peek() == TokenAt(p.tokens, p.index + 3);
    var combined := Infix(p.Peek(), left, p.Peek().literal, ParseIntegerLiteral(c));
    LoopGroupsLeft(p, precedence, left, fuel);
    LoopStopsAtWeakerOperator(c, precedence, Some(combined), fuel - 1);
  }

  /** `-b` or `!b` where `b` is an integer followed by any binary operator: the prefix binds
      tighter, so the node is the operator applied to `b` alone, ending on `b`. */
  lemma PrefixWithIntegerOperand(p: Parser, fuel: nat)
    requires fuel >= 3 && p.Peek().tokenType == INT
    requires CategoryPrecedence(TokenAt(p.tokens, p.index + 2).tokenType) <= PREFIX
    ensures ParsePrefixExpression(p, fuel)
      == Done(Some(Prefix(p.Cur(), p.Cur().literal, ParseIntegerLiteral(p.NextToken()))), p.NextToken())
  {
    IntegerOperand(p.NextToken(), PREFIX, fuel - 1);
  }

  /** The tokens from the current one on are `INT op1 INT op2 INT t`, where `op1` and `op2` are
      infix operators and `t` (a semicolon, `)`, EOF, ...) binds no tighter than LOWEST. */
  predicate TwoOperatorsAhead(p: Parser) {
    && p.CurTokenIs(INT)
    && IsInfixCategory(p.Peek().tokenType)
    && TokenAt(p.tokens, p.index + 2).tokenType == INT
    && IsInfixCategory(TokenAt(p.tokens, p.index + 3).tokenType)
    && TokenAt(p.tokens, p.index + 4).tokenType == INT
    && CategoryPrecedence(TokenAt(p.tokens, p.index + 5).tokenType) == LOWEST
  }

  /** `1 + 2 + 3;` as a whole: with the second operator binding no tighter than the first, the
      expression is `((1 + 2) + 3)`, ending on the last integer. */
  lemma SumGroupsLeft(p: Parser, fuel: nat)
    requires fuel >= 7 && TwoOperatorsAhead(p)
    requires CategoryPrecedence(TokenAt(p.tokens, p.index + 3).tokenType) <= CategoryPrecedence(p.Peek().tokenType)
    ensures var b := p.NextToken().NextToken();
      var c := b.NextToken().NextToken();
      ParseExpression(p, LOWEST, fuel)
        == Done(Some(Infix(b.Peek(), Infix(p.Peek(), ParseIntegerLiteral(p), p.Peek().literal, ParseIntegerLiteral(b)),
                           b.Peek().literal, ParseIntegerLiteral(c))), c)
  {
    IntegerPrefix(p, LOWEST, fuel);
    SumLoopGroupsLeft(p, fuel - 1);
  }

  /** Proof step: the loop of `SumGroupsLeft` after the first integer. */
  lemma SumLoopGroupsLeft(p: Parser, fuel: nat)
    requires fuel >= 6 && TwoOperatorsAhead(p)
    requires CategoryPrecedence(TokenAt(p.tokens, p.index + 3).tokenType) <= CategoryPrecedence(p.Peek().tokenType)
    ensures var b := p.NextToken().NextToken();
      var c := b.NextToken().NextToken();
      ExpressionLoop(p, LOWEST, Some(ParseIntegerLiteral(p)), fuel)
        == Done(Some(Infix(b.Peek(), Infix(p.Peek(), ParseIntegerLiteral(p), p.Peek().literal, ParseIntegerLiteral(b)),
                           b.Peek().literal, ParseIntegerLiteral(c))), c)
  {
    var b := p.NextToken().NextToken();
    InfixCategoryAboveLowest(p.Peek().tokenType);
    LoopGroupsLeft(p, LOWEST, ParseIntegerLiteral(p), fuel);
    SecondOperatorAhead(p);
    LoopTakesOneOperator(b, LOWEST, Infix(p.Peek(), ParseIntegerLiteral(p), p.Peek().literal, ParseIntegerLiteral(b)), fuel - 1);
  }

  /** Proof step: after `INT op1`, the rest of `TwoOperatorsAhead` is one operator binding tighter than LOWEST. */
  lemma SecondOperatorAhead(p: Parser)
    requires TwoOperatorsAhead(p)
    ensures OneTighterOperatorAhead(p.NextToken().NextToken(), LOWEST)
  {
    var b := p.NextToken().NextToken();
    assert b.Peek() == TokenAt(p.tokens, p.index + 3);
    InfixCategoryAboveLowest(b.Peek().tokenType);
    assert TokenAt(b.tokens, b.index + 2) == TokenAt(p.tokens, p.index + 4);
    assert TokenAt(b.tokens, b.index + 3) == TokenAt(p.tokens, p.index + 5);
  }

  /** `1 + 2 / 3;` as a whole: with the second operator binding tighter than the first, the
      expression is `(1 + (2 / 3))`, ending on the last integer. */
  lemma ProductGroupsFirst(p: Parser, fuel: nat)
    requires fuel >= 10 && TwoOperatorsAhead(p)
    requires CategoryPrecedence(p.Peek().tokenType) < CategoryPrecedence(TokenAt(p.tokens, p.index + 3).tokenType)
    ensures var b := p.NextToken().NextToken();
      var c := b.NextToken().NextToken();
      ParseExpression(p, LOWEST, fuel)
        == Done(Some(Infix(p.Peek(), ParseIntegerLiteral(p), p.Peek().literal,
                           Infix(b.Peek(), ParseIntegerLiteral(b), b.Peek().literal, ParseIntegerLiteral(c)))), c)
  {
    IntegerPrefix(p, LOWEST, fuel);
    ProductLoopGroupsFirst(p, fuel - 1);
  }

  /** Proof step: the loop of `ProductGroupsFirst` after the first integer. */
  lemma ProductLoopGroupsFirst(p: Parser, fuel: nat)
    requires fuel >= 9 && TwoOperatorsAhead(p)
    requires CategoryPrecedence(p.Peek().tokenType) < CategoryPrecedence(TokenAt(p.tokens, p.index + 3).tokenType)
    ensures var b := p.NextToken().NextToken();
      var c := b.NextToken().NextToken();
      ExpressionLoop(p, LOWEST, Some(ParseIntegerLiteral(p)), fuel)
        == Done(Some(Infix(p.Peek(), ParseIntegerLiteral(p), p.Peek().literal,
                           Infix(b.Peek(), ParseIntegerLiteral(b), b.Peek().literal, ParseIntegerLiteral(c)))), c)
  {
    var b := p.NextToken().NextToken();
    var c := b.NextToken().NextToken();
    var whole := Infix(p.Peek(), ParseIntegerLiteral(p), p.Peek().literal,
                       Infix(b.Peek(), ParseIntegerLiteral(b), b.Peek().literal, ParseIntegerLiteral(c)));
    InfixCategoryAboveLowest(p.Peek().tokenType);
    ProductRightOperand(p, fuel - 2);
    LoopAppliesOperatorTo(p, LOWEST, ParseIntegerLiteral(p), fuel, Some(whole), c);
    assert c.Peek() == TokenAt(p.tokens, p.index + 5);
    LoopStopsAtWeakerOperator(c, LOWEST, Some(whole), fuel - 1);
  }

  /** Proof step: the first operator's handler in `ProductGroupsFirst` takes `2 / 3` whole. */
  lemma ProductRightOperand(p: Parser, fuel: nat)
    requires fuel >= 7 && TwoOperatorsAhead(p)
    requires CategoryPrecedence(p.Peek().tokenType) < CategoryPrecedence(TokenAt(p.tokens, p.index + 3).tokenType)
    ensures var b := p.NextToken().NextToken();
      var c := b.NextToken().NextToken();
      ParseInfixExpression(p.NextToken(), ParseIntegerLiteral(p), fuel)
        == Done(Some(Infix(p.Peek(), ParseIntegerLiteral(p), p.Peek().literal,
                           Infix(b.Peek(), ParseIntegerLiteral(b), b.Peek().literal, ParseIntegerLiteral(c)))), c)
  {
    var op := p.NextToken();
    assert TokenAt(op.tokens, op.index + 1) == TokenAt(p.tokens, p.index + 2);
    assert TokenAt(op.tokens, op.index + 2) == TokenAt(p.tokens, p.index + 3);
    assert TokenAt(op.tokens, op.index + 3) == TokenAt(p.tokens, p.index + 4);
    assert TokenAt(op.tokens, op.index + 4) == TokenAt(p.tokens, p.index + 5);
    InfixGroupsRight(op, ParseIntegerLiteral(p), fuel);
  }

  /** `-1 + 2;` as a whole: the prefix operator takes the first integer alone, so the
      expression is `((-1) + 2)`, ending on the last integer. */
  lemma PrefixGroupsFirst(p: Parser, fuel: nat)
    requires fuel >= 6 && (p.CurTokenIs(MINUS) || p.CurTokenIs(BANG))
    requires p.Peek().tokenType == INT && IsInfixCategory(TokenAt(p.tokens, p.index + 2).tokenType)
    requires TokenAt(p.tokens, p.index + 3).tokenType == INT
    requires CategoryPrecedence(TokenAt(p.tokens, p.index + 4).tokenType) == LOWEST
    ensures var a := p.NextToken();
      var c := a.NextToken().NextToken();
      ParseExpression(p, LOWEST, fuel)
        == Done(Some(Infix(a.Peek(), Prefix(p.Cur(), p.Cur().literal, ParseIntegerLiteral(a)),
                           a.Peek().literal, ParseIntegerLiteral(c))), c)
  {
    var a := p.NextToken();
    var negated := Prefix(p.Cur(), p.Cur().literal, ParseIntegerLiteral(a));
    assert PrefixParseFnFor(p.Cur().tokenType) == Some(PrefixExpressionFn);
    NegatedOperandStart(p, fuel);
    OperatorAfterOperand(p);
    LoopTakesOneOperator(a, LOWEST, negated, fuel - 1);
  }

  /** Proof step: a prefix operator before an integer and an infix operator returns `(op b)`,
      and the loop goes on from the integer. */
  lemma NegatedOperandStart(p: Parser, fuel: nat)
    requires fuel >= 5 && PrefixParseFnFor(p.Cur().tokenType) == Some(PrefixExpressionFn)
    requires p.Peek().tokenType == INT && IsInfixCategory(TokenAt(p.tokens, p.index + 2).tokenType)
    ensures var a := p.NextToken();
      ParseExpression(p, LOWEST, fuel)
        == ExpressionLoop(a, LOWEST, Some(Prefix(p.Cur(), p.Cur().literal, ParseIntegerLiteral(a))), fuel - 1)
  {
    var a := p.NextToken();
    InfixCategoryAboveLowest(a.Peek().tokenType);
    PrefixWithIntegerOperand(p, fuel - 2);
    PrefixOperatorStartsWith(p, LOWEST, fuel, Some(Prefix(p.Cur(), p.Cur().literal, ParseIntegerLiteral(a))), a);
  }

  /** Proof step: after `op INT`, an infix operator, an integer and a token binding no tighter
      than LOWEST make one operator binding tighter than LOWEST. */
  lemma OperatorAfterOperand(p: Parser)
    requires IsInfixCategory(TokenAt(p.tokens, p.index + 2).tokenType)
    requires TokenAt(p.tokens, p.index + 3).tokenType == INT
    requires CategoryPrecedence(TokenAt(p.tokens, p.index + 4).tokenType) == LOWEST
    ensures OneTighterOperatorAhead(p.NextToken(), LOWEST)
  {
    var a := p.NextToken();
    InfixCategoryAboveLowest(a.Peek().tokenType);
    assert TokenAt(a.tokens, a.index + 2) == TokenAt(p.tokens, p.index + 3);
    assert TokenAt(a.tokens, a.index + 3) == TokenAt(p.tokens, p.index + 4);
  }

  /** Every infix category binds tighter than LOWEST and no tighter than PRODUCT. */
  lemma InfixCategoryAboveLowest(t: TokenType)
    requires IsInfixCategory(t)
    ensures LOWEST < CategoryPrecedence(t) <= PRODUCT
  {
  }

  /** `true` and `false` followed by nothing that binds tighter are Boolean nodes whose value
      is whether the token is TRUE. */
  lemma BooleanOperand(p: Parser, precedence: int, fuel: nat)
    requires fuel >= 2 && (p.CurTokenIs(TRUE) || p.CurTokenIs(FALSE))
    requires CategoryPrecedence(p.Peek().tokenType) <= precedence
    ensures ParseExpression(p, precedence, fuel) == Done(Some(Boolean(p.Cur(), p.CurTokenIs(TRUE))), p)
  {
    LoopStopsAtWeakerOperator(p, precedence, Some(ParseBooleanLiteral(p)), fuel - 1);
  }

  /** An identifier is parsed as a prefix operator applied to what follows it, so `x;` is no
      expression at all: the `;` has no prefix handler, and that is the one error recorded.
      (What comes after the `;` must not bind tighter than the threshold, or the loop goes on.) */
  lemma IdentifierNeedsOperand(p: Parser, precedence: int, fuel: nat)
    requires fuel >= 5 && p.CurTokenIs(IDENT) && p.PeekTokenIs(SEMICOLON)
    requires CategoryPrecedence(TokenAt(p.tokens, p.index + 2).tokenType) <= precedence
    ensures ParseExpression(p, precedence, fuel) == Done(None, p.NextToken().AddError(NoPrefixMessage(SEMICOLON)))
  {
    var q := p.NextToken().AddError(NoPrefixMessage(SEMICOLON));
    assert q.Peek() == TokenAt(p.tokens, p.index + 2);
    PrefixOperatorStart(p, precedence, fuel);
    NoPrefixHandler(p.NextToken(), PREFIX, fuel - 3);
    LoopStopsAtWeakerOperator(q, precedence, None, fuel - 1);
  }

  /** Proof step, one unfolding: an expression that starts with a token registered to the
      prefix-operator handler continues with the loop from whatever that handler returns. */
  lemma PrefixOperatorStart(p: Parser, precedence: int, fuel: nat)
    requires fuel >= 3 && PrefixParseFnFor(p.Cur().tokenType) == Some(PrefixExpressionFn)
    ensures var left := ParsePrefixExpression(p, fuel - 2);
      ParseExpression(p, precedence, fuel)
        == if left.Diverged? then Diverged else ExpressionLoop(left.state, precedence, left.value, fuel - 1)
  {
  }

  /** Proof step: `PrefixOperatorStart` once the prefix handler's outcome is known. */
  lemma PrefixOperatorStartsWith(p: Parser, precedence: int, fuel: nat, left: Option<Expression>, q: Parser)
    requires fuel >= 3 && PrefixParseFnFor(p.Cur().tokenType) == Some(PrefixExpressionFn)
    requires ParsePrefixExpression(p, fuel - 2) == Done(left, q)
    ensures ParseExpression(p, precedence, fuel) == ExpressionLoop(q, precedence, left, fuel - 1)
  {
    PrefixOperatorStart(p, precedence, fuel);
  }

  /** When the peek token is `(`, its precedence CALL exceeds every threshold below CALL, but it
      is not an infix operator: the loop body does nothing and the loop never ends. */
  lemma {:induction false} LoopSpinsOnParen(p: Parser, precedence: int, left: Option<Expression>, fuel: nat)
    requires p.PeekTokenIs(LPAREN) && precedence < CALL
    ensures ExpressionLoop(p, precedence, left, fuel) == Diverged
    decreases fuel
  {
    if fuel > 0 {
      LoopSpinsOnParen(p, precedence, left, fuel - 1);
    }
  }

  /** A statement that starts with neither `let` nor `return` is an expression statement: it
      finishes exactly when its expression does. */
  lemma ExpressionStatementDispatch(p: Parser, fuel: nat)
    requires fuel >= 2 && !p.CurTokenIs(LET) && !p.CurTokenIs(RETURN)
    ensures ParseStatement(p, fuel).Diverged? <==> ParseExpression(p, LOWEST, fuel - 2).Diverged?
  {
  }

  /** So an expression that starts with an integer directly followed by `(`, such as `1(2)`,
      never finishes parsing. */
  lemma CallSyntaxExpressionDiverges(p: Parser, precedence: int, fuel: nat)
    requires p.CurTokenIs(INT) && p.PeekTokenIs(LPAREN) && precedence < CALL
    ensures ParseExpression(p, precedence, fuel) == Diverged
  {
    if fuel >= 2 {
      IntegerPrefix(p, precedence, fuel);
      LoopSpinsOnParen(p, precedence, Some(ParseIntegerLiteral(p)), fuel - 1);
    }
  }

  /** Nor does a statement that starts that way. */
  lemma CallSyntaxDiverges(p: Parser, fuel: nat)
    requires p.CurTokenIs(INT) && p.PeekTokenIs(LPAREN)
    ensures ParseStatement(p, fuel) == Diverged
  {
    if fuel >= 2 {
      CallSyntaxExpressionDiverges(p, LOWEST, fuel - 2);
      ExpressionStatementDispatch(p, fuel);
    }
  }

  /** Nor does a program that starts that way. */
  lemma ProgramWithCallSyntaxDiverges(p: Parser, fuel: nat)
    requires p.CurTokenIs(INT) && p.PeekTokenIs(LPAREN)
    ensures ParseProgram(p, fuel) == Diverged
  {
    if fuel >= 1 {
      CallSyntaxDiverges(p, fuel - 1);
    }
  }

  /** The semicolon scan ends exactly when a SEMICOLON remains at or after the current token,
      and then stops at the first one. */
  lemma {:induction false} SkipToSemicolonEnds(p: Parser)
    ensures SkipToSemicolon(p).Done? <==> exists i :: p.index <= i < |p.tokens| && p.tokens[i].tokenType == SEMICOLON
    ensures SkipToSemicolon(p).Done? ==>
      forall i :: p.index <= i < SkipToSemicolon(p).state.index ==> p.tokens[i].tokenType != SEMICOLON
    decreases |p.tokens| - p.index
  {
    if !p.CurTokenIs(SEMICOLON) && p.index < |p.tokens| {
      SkipToSemicolonEnds(p.NextToken());
      if SkipToSemicolon(p).Done? {
        var j := SkipToSemicolon(p).state.index;
        forall i | p.index <= i < j
          ensures p.tokens[i].tokenType != SEMICOLON
        {
          if i > p.index {
            assert p.NextToken().index <= i;
          }
        }
      } else {
        forall i | p.index <= i < |p.tokens|
          ensures p.tokens[i].tokenType != SEMICOLON
        {
          if i > p.index {
            assert p.NextToken().index <= i;
          }
        }
      }
    }
  }

  /** A parser over what the lexer produced. */
  predicate OverLexedTokens(p: Parser) {
    EofTerminated(p.tokens)
  }

  /** `parseBlockStatement` returns an empty block, one token on, whenever the token after `{`
      is not EOF: its loop condition requires the current token to be EOF. */
  lemma BlockEmptyUnlessEof(p: Parser, fuel: nat)
    requires fuel >= 2 && !p.PeekTokenIs(EOF)
    ensures ParseBlockStatement(p, fuel) == Done(BlockStatement([]), p.NextToken())
  {
  }

  /** A statement at EOF records the missing-prefix error for EOF and yields nothing. */
  lemma StatementAtEof(p: Parser, fuel: nat)
    requires OverLexedTokens(p) && p.CurTokenIs(EOF) && fuel >= 3
    ensures ParseStatement(p, fuel) == Done(None, p.AddError(NoPrefixMessage(EOF)))
  {
    EofAbsorbs(p.tokens, p.index, p.index + 1);
    NoPrefixHandler(p, LOWEST, fuel - 2);
  }

  /** With too little fuel for the expression parser, a statement at EOF diverges; with enough,
      it records the missing-prefix error. */
  lemma StatementAtEofOutcome(p: Parser, fuel: nat)
    requires OverLexedTokens(p) && p.CurTokenIs(EOF)
    ensures var s := ParseStatement(p, fuel);
      s.Diverged? || s == Done(None, p.AddError(NoPrefixMessage(EOF)))
  {
    if fuel >= 3 {
      StatementAtEof(p, fuel);
    }
  }

  /** The block loop at EOF never ends: every round records an error and stays at EOF. */
  lemma {:induction false} BlockLoopAtEof(p: Parser, statements: seq<Statement>, fuel: nat)
    requires OverLexedTokens(p) && p.CurTokenIs(EOF)
    ensures BlockLoop(p, statements, fuel) == Diverged
    decreases fuel
  {
    if fuel > 0 {
      StatementAtEofOutcome(p, fuel - 1);
      var q := p.AddError(NoPrefixMessage(EOF)).NextToken();
      EofAbsorbs(p.tokens, p.index, q.index);
      BlockLoopAtEof(q, statements + [], fuel - 1);
      assert statements + [] == statements;
    }
  }

  /** So a block whose `{` is the last token before EOF never finishes parsing. */
  lemma BlockAtEofDiverges(p: Parser, fuel: nat)
    requires OverLexedTokens(p) && p.PeekTokenIs(EOF)
    ensures ParseBlockStatement(p, fuel) == Diverged
  {
    if fuel > 0 {
      BlockLoopAtEof(p.NextToken(), [], fuel - 1);
    }
  }

  /** `let` not followed by an identifier: two errors (the peek error, then the let error),
      nothing consumed, nothing returned. */
  lemma LetWithoutName(p: Parser, fuel: nat)
    requires fuel > 0 && !p.PeekTokenIs(IDENT)
    ensures ParseLetStatement(p, fuel)
         == Done(None, p.(errors := p.errors + [PeekErrorMessage(IDENT, p.Peek().tokenType), IdentifierAfterLetMessage]))
  {
  }

  /** `let x` not followed by `=`: exactly one error, naming ASSIGN; the name has been consumed. */
  lemma LetWithoutAssign(p: Parser, fuel: nat)
    requires fuel > 0 && p.PeekTokenIs(IDENT) && !p.NextToken().PeekTokenIs(ASSIGN)
    ensures ParseLetStatement(p, fuel)
         == Done(None, p.NextToken().AddError(PeekErrorMessage(ASSIGN, TokenAt(p.tokens, p.index + 2).tokenType)))
  {
  }

  /** `let x =` followed by anything: if parsing ends, a let statement named by the identifier
      token is returned whose value is whatever the expression after `=` parsed to, present or
      not, and the parser stands on a semicolon. */
  lemma LetKeepsFailedValue(p: Parser, fuel: nat)
    requires p.PeekTokenIs(IDENT) && p.NextToken().PeekTokenIs(ASSIGN)
    ensures var r := ParseLetStatement(p, fuel);
      r.Done? ==> && fuel > 0
                  && r.value.Some?
                  && r.value.value.LetStatement?
                  && r.value.value.token == p.Cur()
                  && r.value.value.name == Identifier(p.Peek(), p.Peek().literal)
                  && r.value.value.value == ParseExpression(p.NextToken().NextToken().NextToken(), LOWEST, fuel - 1).value
                  && r.state.CurTokenIs(SEMICOLON)
  {
  }

  /** A return statement is returned exactly when its value parsed, and then it holds the
      `return` token and that value; either way the parser ends on a semicolon. */
  lemma ReturnNeedsValue(p: Parser, fuel: nat)
    requires fuel > 0
    ensures var r, e := ParseReturnStatement(p, fuel), ParseExpression(p.NextToken(), LOWEST, fuel - 1);
      r.Done? ==> && e.Done?
                  && (r.value.Some? <==> e.value.Some?)
                  && (r.value.Some? ==> r.value.value == ReturnStatement(p.Cur(), e.value.value))
                  && r.state.CurTokenIs(SEMICOLON)
  {
  }

  /** An expression statement finishes exactly when its expression does, and holds a statement
      exactly when the expression parsed: the statement keeps the first token and wraps that
      expression. Only a `;` directly after the expression is consumed; the errors are the
      expression's. */
  lemma ExpressionStatementWraps(p: Parser, fuel: nat)
    requires fuel > 0
    ensures var r, e := ParseExpressionStatement(p, fuel), ParseExpression(p, LOWEST, fuel - 1);
      && (r.Diverged? <==> e.Diverged?)
      && (r.Done? ==>
            && (r.value.Some? <==> e.value.Some?)
            && (r.value.Some? ==> r.value.value == ExpressionStatement(p.Cur(), e.value.value))
            && r.state.errors == e.state.errors
            && r.state.tokens == e.state.tokens
            && (e.state.PeekTokenIs(SEMICOLON) ==> r.state.index == e.state.index + 1)
            && (!e.state.PeekTokenIs(SEMICOLON) ==> r.state.index == e.state.index))
  {
  }

  /** `5;` as a statement: an expression statement wrapping the integer, ending on the `;`. */
  lemma IntegerStatement(p: Parser, fuel: nat)
    requires fuel >= 4 && p.CurTokenIs(INT) && p.PeekTokenIs(SEMICOLON)
    ensures ParseStatement(p, fuel) == Done(Some(ExpressionStatement(p.Cur(), ParseIntegerLiteral(p))), p.NextToken())
  {
    StatementIsExpressionStatement(p, fuel);
    IntegerOperand(p, LOWEST, fuel - 2);
    ExpressionStatementWraps(p, fuel - 1);
  }

  /** Proof step, one unfolding: a statement that is neither let nor return is an expression
      statement. */
  lemma StatementIsExpressionStatement(p: Parser, fuel: nat)
    requires fuel > 0 && !p.CurTokenIs(LET) && !p.CurTokenIs(RETURN)
    ensures ParseStatement(p, fuel) == ParseExpressionStatement(p, fuel - 1)
  {
  }

  /** A grouped expression is the inner expression itself, with no wrapper node; without `)`
      it is nothing, with one more error. */
  lemma GroupedIsTransparent(p: Parser, fuel: nat)
    requires fuel > 0
    ensures var inner, r := ParseExpression(p.NextToken(), LOWEST, fuel - 1), ParseGroupedExpression(p, fuel);
      inner.Done? ==>
        && r.Done?
        && (inner.state.PeekTokenIs(RPAREN) ==> r == Done(inner.value, inner.state.NextToken()))
        && (!inner.state.PeekTokenIs(RPAREN) ==>
              r == Done(None, inner.state.AddError(PeekErrorMessage(RPAREN, inner.state.Peek().tokenType))))
  {
  }

  /** A prefix node is built exactly when its operand parses, with the operator token's literal. */
  lemma PrefixNeedsOperand(p: Parser, fuel: nat)
    requires fuel > 0
    ensures var right, r := ParseExpression(p.NextToken(), PREFIX, fuel - 1), ParsePrefixExpression(p, fuel);
      right.Done? ==>
        && r.Done? && r.state == right.state
        && (r.value.Some? <==> right.value.Some?)
        && (r.value.Some? ==> r.value.value == Prefix(p.Cur(), p.Cur().literal, right.value.value))
  {
  }

  /** An infix node is built exactly when its right operand parses, at the operator's precedence. */
  lemma InfixNeedsOperand(p: Parser, left: Expression, fuel: nat)
    requires fuel > 0
    ensures var right, r := ParseExpression(p.NextToken(), CategoryPrecedence(p.Cur().tokenType), fuel - 1),
                            ParseInfixExpression(p, left, fuel);
      right.Done? ==>
        && r.Done? && r.state == right.state
        && (r.value.Some? <==> right.value.Some?)
        && (r.value.Some? ==> r.value.value == Infix(p.Cur(), left, p.Cur().literal, right.value.value))
  {
  }

  /** `parseCallExpression` calls only identifiers and function literals: for any other left
      operand it yields nothing, consumes nothing and records nothing. */
  lemma CallNeedsCallable(p: Parser, fn: Expression, fuel: nat)
    requires fuel > 0
    ensures !(fn.Ident? || fn.Function?) ==> ParseCallExpression(p, fn, fuel) == Done(None, p)
    ensures var r := ParseCallExpression(p, fn, fuel);
      r.Done? && r.value.Some? ==> r.value.value.Call? && CalleeExpression(r.value.value.callee) == fn
  {
  }

  /** An immediate `)` gives an empty argument list. */
  lemma CallWithoutArguments(p: Parser, fuel: nat)
    requires fuel > 0 && p.PeekTokenIs(RPAREN)
    ensures ParseCallArguments(p, fuel) == Done(Some([]), p.NextToken())
  {
  }

  /** `if (c) { … }` with no ELSE after the block: an `If` without alternative. The block is empty
      whenever the token after `{` is not EOF. */
  lemma IfWithoutElse(p: Parser, token: Token, condition: Expression, fuel: nat)
    requires fuel >= 3
    requires TokenAt(p.tokens, p.index + 1).tokenType == RPAREN && TokenAt(p.tokens, p.index + 2).tokenType == LBRACE
    requires TokenAt(p.tokens, p.index + 3).tokenType != EOF && TokenAt(p.tokens, p.index + 4).tokenType != ELSE
    ensures ParseIfBlocks(p, token, condition, fuel)
         == Done(Some(If(token, condition, BlockStatement([]), None)), p.(index := p.index + 3))
  {
    var brace := p.NextToken().NextToken();
    assert brace.Peek() == TokenAt(p.tokens, p.index + 3);
    BlockEmptyUnlessEof(brace, fuel - 1);
    assert brace.NextToken().Peek() == TokenAt(p.tokens, p.index + 4);
  }

  /** `if (c) { … } else { … }`: both blocks, the state after the second one. */
  lemma IfWithElse(p: Parser, token: Token, condition: Expression, fuel: nat)
    requires fuel >= 3
    requires TokenAt(p.tokens, p.index + 1).tokenType == RPAREN && TokenAt(p.tokens, p.index + 2).tokenType == LBRACE
    requires TokenAt(p.tokens, p.index + 3).tokenType != EOF && TokenAt(p.tokens, p.index + 4).tokenType == ELSE
    requires TokenAt(p.tokens, p.index + 5).tokenType == LBRACE && TokenAt(p.tokens, p.index + 6).tokenType != EOF
    ensures ParseIfBlocks(p, token, condition, fuel)
         == Done(Some(If(token, condition, BlockStatement([]), Some(BlockStatement([])))), p.(index := p.index + 6))
  {
    var brace := p.NextToken().NextToken();
    BlockEmptyUnlessEof(brace, fuel - 1);
    var elseBrace := brace.NextToken().NextToken().NextToken();
    assert elseBrace.Peek() == TokenAt(p.tokens, p.index + 6);
    BlockEmptyUnlessEof(elseBrace, fuel - 1);
  }

  /** `if` not followed by `(`: the peek error naming LPAREN, nothing consumed, no expression. */
  lemma IfWithoutOpenParen(p: Parser, fuel: nat)
    requires fuel > 0 && !p.PeekTokenIs(LPAREN)
    ensures ParseIfExpression(p, fuel) == Done(None, p.AddError(PeekErrorMessage(LPAREN, p.Peek().tokenType)))
  {
  }

  /** `if (1) { … } else { … }` as a whole: the node takes the `if` token, the integer after `(`
      as its condition and two empty blocks, and ends on the closing brace of the else block. */
  lemma IfElseWithIntegerCondition(p: Parser, fuel: nat)
    requires fuel >= 6 && p.CurTokenIs(IF)
    requires TokenAt(p.tokens, p.index + 1).tokenType == LPAREN && TokenAt(p.tokens, p.index + 2).tokenType == INT
    requires TokenAt(p.tokens, p.index + 3).tokenType == RPAREN && TokenAt(p.tokens, p.index + 4).tokenType == LBRACE
    requires TokenAt(p.tokens, p.index + 5).tokenType != EOF && TokenAt(p.tokens, p.index + 6).tokenType == ELSE
    requires TokenAt(p.tokens, p.index + 7).tokenType == LBRACE && TokenAt(p.tokens, p.index + 8).tokenType != EOF
    ensures ParseIfExpression(p, fuel)
         == Done(Some(If(p.Cur(), ParseIntegerLiteral(p.(index := p.index + 2)), BlockStatement([]), Some(BlockStatement([])))),
                 p.(index := p.index + 8))
  {
    var c := p.NextToken().NextToken();
    IntegerOperand(c, LOWEST, fuel - 1);
    IfWithElse(c, p.Cur(), ParseIntegerLiteral(c), fuel);
  }

  /** A condition not followed by `)`: the peek error and no expression. */
  lemma IfWithoutCloseParen(p: Parser, token: Token, condition: Expression, fuel: nat)
    requires fuel >= 1 && !p.PeekTokenIs(RPAREN)
    ensures ParseIfBlocks(p, token, condition, fuel)
         == Done(None, p.AddError(PeekErrorMessage(RPAREN, p.Peek().tokenType)))
  {
  }

  /** An argument that fails to parse is left out of the list without a trace in the loop
      itself: the loop goes on from where that argument's parse stopped. */
  lemma ArgumentsDropFailures(p: Parser, args: seq<Expression>, q: Parser, fuel: nat)
    requires fuel >= 1 && p.PeekTokenIs(COMMA)
    requires ParseExpression(p.NextToken().NextToken(), LOWEST, fuel - 1) == Done(None, q)
    ensures ArgumentLoop(p, args, fuel) == ArgumentLoop(q, args, fuel - 1)
  {
    assert args + None.ToSeq() == args;
  }

  /** A function literal that is built carries the parameter list's result, and no parameters
      when that list failed (as with `fn(a {`, see `SingleParameterUnclosed`); its token is `fn`. */
  lemma FunctionDefaultsParameters(p: Parser, fuel: nat)
    ensures var r := ParseFunctionLiteral(p, fuel);
      r.Done? && r.value.Some? ==>
        && r.value.value.Function?
        && r.value.value.fn.token == p.Cur()
        && r.value.value.fn.parameters == ParseFunctionParameters(p.NextToken()).value.GetOr([])
  {
  }

  /** A single parameter followed by `{` instead of `)` or a comma: the parameter list fails. */
  lemma SingleParameterUnclosed(p: Parser)
    requires TokenAt(p.tokens, p.index + 1).tokenType != RPAREN && TokenAt(p.tokens, p.index + 2).tokenType == LBRACE
    ensures ParseFunctionParameters(p) == Done(None, Parser(p.tokens, p.index + 1, p.errors + [PeekErrorMessage(RPAREN, LBRACE)]))
  {
    assert p.NextToken().Peek() == TokenAt(p.tokens, p.index + 2);
  }

  /** A statement that fails is left out of the program, but its errors stay, and parsing goes
      on from the token after where it stopped. */
  lemma ProgramDropsFailedStatement(p: Parser, statements: seq<Statement>, q: Parser, fuel: nat)
    requires fuel >= 1 && !p.CurTokenIs(EOF) && ParseStatement(p, fuel - 1) == Done(None, q)
    ensures |p.errors| < |q.errors|
    ensures ProgramLoop(p, statements, fuel) == ProgramLoop(q.NextToken(), statements, fuel - 1)
  {
    assert statements + None.ToSeq() == statements;
  }

  /** A statement that parses is appended after the ones before it, and parsing goes on from the
      token after where it stopped. */
  lemma ProgramAppendsStatement(p: Parser, statements: seq<Statement>, s: Statement, q: Parser, fuel: nat)
    requires fuel >= 1 && !p.CurTokenIs(EOF) && ParseStatement(p, fuel - 1) == Done(Some(s), q)
    ensures ProgramLoop(p, statements, fuel) == ProgramLoop(q.NextToken(), statements + [s], fuel - 1)
    ensures var r := ProgramLoop(p, statements, fuel);
      r.Done? ==> r.value[..|statements| + 1] == statements + [s]
  {
    var r := ProgramLoop(p, statements, fuel);
    if r.Done? {
      assert statements + [s] <= r.value;
    }
  }

  /** In a program, `let x` not followed by `=` is dropped with its one error, and parsing goes
      on from the token after the name. */
  lemma ProgramDropsLetWithoutAssign(p: Parser, statements: seq<Statement>, fuel: nat)
    requires fuel >= 3 && p.CurTokenIs(LET) && p.PeekTokenIs(IDENT) && !p.NextToken().PeekTokenIs(ASSIGN)
    ensures ProgramLoop(p, statements, fuel)
         == ProgramLoop(Parser(p.tokens, p.index + 2, p.errors + [PeekErrorMessage(ASSIGN, TokenAt(p.tokens, p.index + 2).tokenType)]),
                        statements, fuel - 1)
  {
    var q := p.NextToken().AddError(PeekErrorMessage(ASSIGN, TokenAt(p.tokens, p.index + 2).tokenType));
    LetWithoutAssign(p, fuel - 2);
    assert ParseStatement(p, fuel - 1) == Done(None, q);
    ProgramDropsFailedStatement(p, statements, q, fuel);
    assert q.NextToken() == Parser(p.tokens, p.index + 2, q.errors);
  }

  /** In a program, `5;` is appended as an expression statement and parsing goes on after the `;`. */
  lemma ProgramAppendsIntegerStatement(p: Parser, statements: seq<Statement>, fuel: nat)
    requires fuel >= 5 && p.CurTokenIs(INT) && p.PeekTokenIs(SEMICOLON)
    ensures ProgramLoop(p, statements, fuel)
         == ProgramLoop(p.NextToken().NextToken(), statements + [ExpressionStatement(p.Cur(), ParseIntegerLiteral(p))], fuel - 1)
  {
    IntegerStatement(p, fuel - 1);
    ProgramAppendsStatement(p, statements, ExpressionStatement(p.Cur(), ParseIntegerLiteral(p)), p.NextToken(), fuel);
  }

  /** An empty input parses, with any positive fuel, to the empty program with no errors. */
  lemma EmptyInputParses(fuel: nat)
    requires fuel >= 1
    ensures Parse("", fuel) == Done(EmptyProgram(), NewParser(""))
    ensures NewParser("").errors == []
  {
    EmptyInputStartsAtEof();
    ProgramAtEof(NewParser(""), fuel);
  }

  /** The parser for an empty input starts on EOF. */
  lemma EmptyInputStartsAtEof()
    ensures NewParser("").CurTokenIs(EOF)
  {
    NextTokenAtEnd(New(""));
  }

  /** A parser standing on EOF finishes at once, with no statements. */
  lemma ProgramAtEof(p: Parser, fuel: nat)
    requires fuel >= 1 && p.CurTokenIs(EOF)
    ensures ParseProgram(p, fuel) == Done(EmptyProgram(), p)
  {
  }

  /** Function parameters: whatever token follows `(` (or a comma) becomes a parameter, whatever
      its category; with `)` right away there are none. */
  lemma ParametersAcceptAnyToken(p: Parser)
    ensures p.PeekTokenIs(RPAREN) ==> ParseFunctionParameters(p) == Done(Some([]), p.NextToken())
    ensures var r := ParseFunctionParameters(p);
      !p.PeekTokenIs(RPAREN) && r.value.Some? ==> |r.value.value| >= 1 && r.value.value[0] == Identifier(p.Peek(), p.Peek().literal)
  {
  }

  /** `let x = …` with no SEMICOLON anywhere after `let` never finishes: the trailing scan
      runs past the end of the tokens. */
  lemma LetWithoutSemicolonDiverges(p: Parser, fuel: nat)
    requires p.PeekTokenIs(IDENT) && p.NextToken().PeekTokenIs(ASSIGN)
    requires forall i :: p.index <= i < |p.tokens| ==> p.tokens[i].tokenType != SEMICOLON
    ensures ParseLetStatement(p, fuel) == Diverged
  {
    if fuel > 0 {
      var q := p.NextToken().NextToken().NextToken();
      var value := ParseExpression(q, LOWEST, fuel - 1);
      if value.Done? {
        SkipToSemicolonEnds(value.state);
      }
    }
  }

  /** Likewise `return …` with no SEMICOLON anywhere after `return` never finishes. */
  lemma ReturnWithoutSemicolonDiverges(p: Parser, fuel: nat)
    requires forall i :: p.index <= i < |p.tokens| ==> p.tokens[i].tokenType != SEMICOLON
    ensures ParseReturnStatement(p, fuel) == Diverged
  {
    if fuel > 0 {
      var value := ParseExpression(p.NextToken(), LOWEST, fuel - 1);
      if value.Done? {
        SkipToSemicolonEnds(value.state);
      }
    }
  }

  /** The decimal digit for 0 <= d < 10. */
  function Digit(d: nat): char
    requires d < 10
  {
    ('0' as int + d) as char
  }

  /** The shortest decimal spelling of n, as the lexer would read it. */
  function DecimalString(n: nat): (s: string)
    ensures |s| > 0
    ensures forall i :: 0 <= i < |s| ==> '0' <= s[i] <= '9'
    decreases n
  {
    if n < 10 then [Digit(n)] else DecimalString(n / 10) + [Digit(n % 10)]
  }

  /** A string of digits is its own leading digits. */
  lemma {:induction false} LeadingDigitsOfDigits(d: string)
    requires forall i :: 0 <= i < |d| ==> '0' <= d[i] <= '9'
    ensures LeadingDigits(d) == d
    decreases |d|
  {
    if |d| > 0 {
      LeadingDigitsOfDigits(d[1..]);
      assert d == [d[0]] + d[1..];
    }
  }

  /** `parseInt` reads back the value of a decimal spelling. */
  lemma ParseIntRoundTrip(n: nat)
    ensures ParseInt(DecimalString(n)) == n
  {
    LeadingDigitsOfDigits(DecimalString(n));
    DecimalValueOfString(n);
  }

  /** `parseInt` reads only the leading digits: whatever follows them, from the first non-digit
      on, is ignored, and a string with no leading digit reads as 0. */
  lemma {:induction false} ParseIntReadsLeadingDigits(d: string, rest: string)
    requires forall i :: 0 <= i < |d| ==> '0' <= d[i] <= '9'
    requires |rest| == 0 || !('0' <= rest[0] <= '9')
    ensures LeadingDigits(d + rest) == d
    ensures ParseInt(d + rest) == DecimalValue(d)
    decreases |d|
  {
    if |d| > 0 {
      assert (d + rest)[1..] == d[1..] + rest;
      ParseIntReadsLeadingDigits(d[1..], rest);
      assert [d[0]] + d[1..] == d;
    } else {
      assert d + rest == rest;
    }
  }

  /** The value of the decimal spelling of n is n. */
  lemma {:induction false} DecimalValueOfString(n: nat)
    ensures DecimalValue(DecimalString(n)) == n
    decreases n
  {
    if n >= 10 {
      DecimalValueOfString(n / 10);
      DecimalValueStep(n);
    } else {
      assert DecimalString(n)[..0] == "";
    }
  }

  /** The last digit of a spelling of two or more digits contributes n % 10. */
  lemma DecimalValueStep(n: nat)
    requires n >= 10
    ensures DecimalValue(DecimalString(n)) == 10 * DecimalValue(DecimalString(n / 10)) + n % 10
  {
    var s := DecimalString(n);
    assert s[..|s| - 1] == DecimalString(n / 10);
    assert s[|s| - 1] == Digit(n % 10);
  }

  /** `*` ends an expression: its category ASTERIX has no precedence entry (the table spells it
      "ASTERISK"), so in `2 * 3` the loop stops after `2` at any threshold. */
  lemma ProductEndsExpression(p: Parser, precedence: int, fuel: nat)
    requires fuel >= 2 && p.CurTokenIs(INT) && p.PeekTokenIs(ASTERIX) && precedence >= LOWEST
    ensures ParseExpression(p, precedence, fuel) == Done(Some(ParseIntegerLiteral(p)), p)
  {
    IntegerOperand(p, precedence, fuel);
  }

  /** And a statement cannot start with `*`: no prefix handler is registered for ASTERIX, so
      the `*` of `2 * 3` is reported and skipped. */
  lemma ProductStartsNothing(p: Parser, fuel: nat)
    requires fuel >= 3 && p.CurTokenIs(ASTERIX)
    ensures ParseStatement(p, fuel).Done? && ParseStatement(p, fuel).value.None?
    ensures ParseStatement(p, fuel).state.errors == p.errors + [NoPrefixMessage(ASTERIX)]
  {
    NoPrefixHandler(p, LOWEST, fuel - 2);
  }
}
