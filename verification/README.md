# Monkey front end: tokens, lexer, AST and Pratt parser

This project models the front end of the Monkey interpreter in TypeScript: the token tables
(`src/token.ts`), the cursor lexer (`src/lexer.ts`), the AST (`src/ast.ts`) and the Pratt parser
(`src/parser.ts`). It proves properties of that model in Dafny.

- `option.dfy` (module `Optional`): `Option`. It stands for `undefined` and the `??` operator.
- `token.dfy` (module `Tokens`) holds:
  - the 27 token categories;
  - the three lexeme tables, as ordered `(lexeme, category)` sequences;
  - table lookup;
  - `isSingleCharToken`, `isDoubleCharToken`, `isKeyword` and `lookupIdentifier`;
  - the category names, as the strings the parser tables are keyed by.
- `lexer.ts` is modelled in `lexer.dfy` (module `Lexing`):
  - the lexer is a record `(input, position, readPosition, ch)`, with the cursor invariant `Valid`;
  - every method becomes a pure function from one record to the next;
  - `Tokenize` calls `nextToken` up to and including the first EOF.
- `ast.dfy` (module `Ast`) holds the expression and statement unions as datatypes. A call's callee has its own two-variant type.
- `parser.dfy` (module `Parsing`) holds the parser over the lexed token sequence.
  - Past the end of the sequence the stream reads EOF, as the lexer keeps answering EOF.
  - The state is `(tokens, index, errors)`, threaded through the parse functions.
  - The prefix and infix registries are `match` on the category.
  - Several loops of the source never end on some inputs. So the mutually recursive parse functions take a `fuel` bound and return `Done(value, state)` or `Diverged`.
- `parser_facts.dfy` (module `ParserFacts`) holds the lemmas about the parser.
- `examples.dfy` (module `Examples`) holds concrete lexer runs.

The model follows the code as written, including its defects:

- `*` lexes as ASTERIX, while `precedences` and `infixOperators` spell it ASTERISK. So `*` has precedence LOWEST and no infix handler. An expression stops in front of it (`ProductEndsExpression`). A statement starting with it has no prefix handler (`ProductStartsNothing`).
- A double-character operator moves the cursor one character only. So `!=` lexes as NOT_EQ, then ASSIGN `=`, then EOF (`Examples.LexNotEqualRereadsSecondCharacter`).
- IDENT is registered to `parsePrefixExpression`, and `parseIdentifier` is never registered. So an identifier is read as a prefix operator applied to what follows it (`IdentifierNeedsOperand`).
- LPAREN has precedence CALL but is not in `infixOperators`. So the infix loop spins when the next token is `(`, and call parsing is unreachable from `parseExpression` (`LoopSpinsOnParen`, `CallSyntaxDiverges`). The call parsers are still modelled and given their own contracts.
- The scans `while (!curTokenIs("SEMICOLON"))` after `let` and `return` never end when no SEMICOLON remains (`SkipToSemicolonEnds`, `LetWithoutSemicolonDiverges`, `ReturnWithoutSemicolonDiverges`).
- The block loop condition is `!cur is RBRACE && cur is EOF`. So a block is empty whenever the token after `{` is not EOF (`BlockEmptyUnlessEof`). When that token is EOF, the block never finishes (`BlockAtEofDiverges`).

Where the code departs from the usual Monkey behaviour, the model follows the code:

- an unknown character gives ILLEGAL with an empty literal, as initialised at `src/lexer.ts:33`;
- a double-character operator advances the cursor one character, not two;
- the block loop condition is the inverted one at `src/parser.ts:322`;
- `*` is ASTERIX, so the parser's ASTERISK entries never apply;
- an identifier in expression position goes to `parsePrefixExpression`, not `parseIdentifier`.

The parser reads precedences and infix membership by category (`CategoryPrecedence`, `IsInfixCategory`). These are proved equal to looking the category's NAME up in the source's name-keyed tables (`ParserFacts.PrecedenceByCategory`, `ParserFacts.InfixOperatorByCategory`). So the ASTERISK misspelling is carried by the tables themselves.

## Model

| member | source | states |
|---|---|---|
| `Tokens.Lookup` | src/token.ts:3-36 | indexing a table gives a value exactly when the key is one of its keys, and the value is paired with that key in the table |
| `Tokens.LookupDistinct` | src/token.ts:3-36 | in a table with distinct keys, looking up any entry's key gives that entry's value |
| `Tokens.LookupInValues` | src/token.ts:3-36 | a looked-up value is one of the table's values |
| `Tokens.SingleCharKeys` | src/token.ts:3-18 | the single-character table's keys, in declaration order |
| `Tokens.SingleCharValues` | src/token.ts:3-18 | the single-character table's categories, in declaration order, with ASTERIX for `*` |
| `Tokens.DoubleCharContents` | src/token.ts:22-25 | the double-character table is exactly `==` to EQ and `!=` to NOT_EQ |
| `Tokens.KeywordContents` | src/token.ts:28-36 | the keyword table is exactly fn, let, true, false, if, else, return with their seven categories |
| `Tokens.SingleCharTable` | src/token.ts:3-18 | exactly 14 entries, with distinct one-character keys and distinct categories |
| `Tokens.SingleCharKeysDistinct` | src/token.ts:3-18 | no single-character lexeme is listed twice |
| `Tokens.SingleCharValuesDistinct` | src/token.ts:3-18 | no two single-character lexemes share a category |
| `Tokens.AsteriskIsAsterix` | src/token.ts:8 | `*` maps to ASTERIX |
| `Tokens.DoubleCharTable` | src/token.ts:22-25 | `==` maps to EQ and `!=` to NOT_EQ, and the first character of each is a single-character lexeme |
| `Tokens.KeywordTable` | src/token.ts:28-36 | the seven keywords map to seven distinct categories |
| `Tokens.KeysDisjoint` | src/token.ts:3-36 | no lexeme appears in two tables |
| `Tokens.ValuesDisjoint` | src/token.ts:3-36 | no category is produced by two tables |
| `Tokens.TablesNameNoGenericCategory` | src/token.ts:3-46 | no table produces ILLEGAL, INT, IDENT or EOF |
| `Tokens.NoGenericValues` | src/token.ts:3-46 | none of ILLEGAL, INT, IDENT or EOF is a value of any table |
| `Tokens.TokenType.Name` | src/token.ts:39-46 | the string each category is spelled as, the key the parser's tables use; `NameRoundTrip` and `NamesDistinct` state that it is injective and read back by `FromName` |
| `Tokens.FromName` | src/token.ts:39-46 | reads a category back from its spelling, and gives nothing for "ASTERISK"; `NameRoundTrip` and `FromNameOfKeys` state its values |
| `Tokens.NameRoundTrip` | src/token.ts:39-46 | every category's name reads back as that category |
| `Tokens.NamesDistinct` | src/token.ts:39-46 | the 27 category names are pairwise distinct, and none is "ASTERISK" |
| `Tokens.IsSingleCharToken` | src/token.ts:48-50 | only a one-character string is a single-character lexeme, so not the empty EOF sentinel |
| `Tokens.IsDoubleCharToken` | src/token.ts:52-54 | a double-character lexeme has two characters and starts with a single-character lexeme |
| `Tokens.IsKeyword` | src/token.ts:56-57 | holds exactly for the seven keyword strings |
| `Tokens.LookupIdentifier` | src/token.ts:59-61 | a category exactly for keywords, and that category is the keyword's table entry |
| `Tokens.LookupIdentifierExact` | src/token.ts:59-61 | `lookupIdentifier(s)` is `t` if and only if `(s, t)` is in the keyword table |
| `Tokens.KeywordKeysDistinct` | src/token.ts:28-36 | no keyword is listed twice |
| `Tokens.LookupFindsPair` | src/token.ts:3-36 | in a table with distinct keys, a listed pair is what lookup returns |
| `Tokens.Keys` | src/utils.ts:3-5 | `objectKeys`: one key per table entry, the entry's lexeme, in declaration order |
| `Tokens.Values` | src/utils.ts:7-9 | `objectValues`: one value per table entry, the entry's category, in declaration order |
| `Lexing.Slice` | src/lexer.ts:70 | `String.prototype.slice` is the subsequence when the bounds are in order, and never longer than the input |
| `Lexing.New` | src/lexer.ts:17-20 | the constructed cursor satisfies the invariant, at position 0, on the first character or "" |
| `Lexing.ReadChar` | src/lexer.ts:22-30 | after `readChar`, `readPosition` is `position + 1` and `ch` is the character at `position`, or "" past the end |
| `Lexing.PeekChar` | src/lexer.ts:92-98 | the character after the current one, or "" past the end |
| `Lexing.SkipWhitespace` | src/lexer.ts:81-90 | only spaces, tabs, newlines and carriage returns are passed over, and the cursor ends on something else |
| `Lexing.IsLetter` | src/lexer.ts:101-103 | an ASCII letter or `_`; `CharacterClasses` states that it is one character and in no other class |
| `Lexing.IsDigit` | src/lexer.ts:105-107 | an ASCII decimal digit; `CharacterClasses` states that it is one character and in no other class |
| `Lexing.IsWhitespace` | src/lexer.ts:81-90 | the four characters `skipWhitespace` passes over; `CharacterClasses` states that they are single characters |
| `Lexing.CharacterClasses` | src/lexer.ts:81-107 | the end-of-input "" is in no character class, and no character is a letter and a digit, or either of them and whitespace |
| `Lexing.SkipRun` | src/lexer.ts:65-79 | the reading loop passes only characters of its class and stops on the first one outside it |
| `Lexing.ReadRun` | src/lexer.ts:65-79 | `readIdentifier`/`readNumber` return the maximal run of the class as the input slice, non-empty when the cursor starts on that class |
| `Lexing.NextToken` | src/lexer.ts:32-63 | every call moves the cursor forward; EOF is returned exactly when only whitespace remains |
| `Lexing.ReadOperator` | src/lexer.ts:36-42 | the operator branch moves one character, whichever token it returns, and never returns a generic category |
| `Lexing.ReadWord` | src/lexer.ts:47-54 | the letter branch returns the letter run as the literal and is never EOF |
| `Lexing.Tokenize` | src/lexer.ts:61 | repeated `nextToken` ends with its first EOF and gives at most one token per input character plus EOF |
| `Lexing.TokenizeStep` | src/lexer.ts:32-63 | the collected tokens are the first token followed by the tokens from where it left the cursor |
| `Lexing.TokenizeEofTerminated` | src/lexer.ts:43-45 | a fresh lexer's tokens end with their only EOF |
| `Lexing.EofAbsorbs` | src/lexer.ts:22-30 | in such a stream, once EOF is read it is read at every later position |
| `Lexing.NextTokenAtEnd` | src/lexer.ts:43-45 | at the end of input the token is EOF with an empty literal |
| `Lexing.EofForever` | src/lexer.ts:22-30 | once the input is used up, every later call returns EOF |
| `Lexing.NextTokenOperator` | src/lexer.ts:36-42 | an operator character gives the double-character token when it and the next character form one, else its single-character token; either way the cursor moves exactly one character |
| `Lexing.NextTokenWord` | src/lexer.ts:47-54 | a letter starts a maximal run of letters whose literal is that input slice, with the keyword's category or IDENT |
| `Lexing.WordCategory` | src/lexer.ts:50 | a word's category is its keyword category, or IDENT |
| `Lexing.NextTokenIsWord` | src/lexer.ts:47-54 | a letter after the whitespace selects the letter branch |
| `Lexing.LettersAreNotOperators` | src/lexer.ts:36 | no letter or digit is an operator character |
| `Lexing.RunBounds` | src/lexer.ts:65-79 | a run starting on its class is non-empty, is exactly the slice, and ends at the first character outside the class |
| `Lexing.NextTokenNumber` | src/lexer.ts:55-58 | a digit starts a maximal run of digits, returned as INT with that slice as its literal |
| `Lexing.NextTokenIllegal` | src/lexer.ts:33 | any other character gives ILLEGAL with an empty literal and moves one character |
| `Lexing.NextTokenLiteralHasNoWhitespace` | src/lexer.ts:34 | no token literal contains whitespace |
| `Lexing.OperatorLiteralHasNoWhitespace` | src/lexer.ts:36-42 | operator literals contain no whitespace |
| `Lexing.RunHasNoWhitespace` | src/lexer.ts:65-79 | letter and digit runs contain no whitespace |
| `Lexing.TokenizeIsStream` | src/lexer.ts:32-63 | the collected tokens, read past their end as EOF, are exactly what consecutive `nextToken` calls return |
| `Lexing.StreamAtEof` | src/lexer.ts:43-45 | when the next call returns EOF, the stream reads EOF from there on |
| `Ast.CalleeExpression` | src/ast.ts:59-64 | a call's callee is only ever an identifier or a function literal |
| `Ast.EmptyProgram` | src/ast.ts:3-7 | a new program has no statements |
| `Ast.ExpressionTagsDistinct` | src/ast.ts:66-74 | the eight `type` tags are distinct, so the tag determines the variant |
| `Ast.StatementTagsDistinct` | src/ast.ts:83-102 | the three statement `type` tags are distinct, so the tag determines the variant |
| `Parsing.Parser.NextToken` | src/parser.ts:127-130 | the old peek token becomes the current one; nothing else changes |
| `Parsing.NewParser` | src/parser.ts:75-80 | the parser starts with no errors, on the lexer's first two tokens |
| `Parsing.Parser.CurTokenIs` | src/parser.ts:191-193 | the current token has the given category; the lemmas' preconditions are written with it |
| `Parsing.Parser.PeekTokenIs` | src/parser.ts:195-197 | the peek token has the given category; `ExpectPeek` advances exactly when it holds |
| `Parsing.PrecedenceKeys` | src/parser.ts:36-46 | the keys of `precedences`, distinct and in order |
| `Parsing.PrecedenceOf` | src/parser.ts:349-355 | `precedences[name] ?? LOWEST` always lies between LOWEST and CALL |
| `Parsing.CategoryPrecedence` | src/parser.ts:36-46 | the level of each category always lies between LOWEST and CALL; `PrecedenceByCategory` states that it equals the lookup by name |
| `Parsing.Parser.CurPrecedence` | src/parser.ts:353-355 | the current token's level; `PrecedenceByCategory` states that it equals `precedences[cur.type] ?? LOWEST` |
| `Parsing.Parser.PeekPrecedence` | src/parser.ts:349-351 | the peek token's level; `PrecedenceByCategory` states that it equals `precedences[peek.type] ?? LOWEST` |
| `Parsing.IsInfixOperator` | src/parser.ts:60-62 | membership in `infixOperators`; `InfixOperatorByCategory` states which categories pass |
| `Parsing.IsInfixCategory` | src/parser.ts:370 | the test the expression loop applies to the peek token's category; `InfixOperatorByCategory` states that it equals `isInfixOperator` of the category's name, so ASTERIX and LPAREN fail it |
| `Parsing.InfixOperatorHasPrecedence` | src/parser.ts:36-62 | every name in `infixOperators` has a precedence above LOWEST, ASTERISK included |
| `Parsing.PrefixParseFnFor` | src/parser.ts:82-90 | the prefix registry: which handler the constructor registers for each category, IDENT going to `parsePrefixExpression`; `PrefixRegistry` names each category's handler. The handlers' effects are pinned by `IntegerOperand` (INT), `BooleanOperand` (TRUE, FALSE), `GroupedIsTransparent` (LPAREN), `IfElseWithIntegerCondition`, `IfWithElse` and `IfWithoutElse` (IF), `FunctionDefaultsParameters` (FUNCTION), and `PrefixWithIntegerOperand` and `IdentifierNeedsOperand` (BANG, MINUS, IDENT) |
| `Parsing.InfixParseFnFor` | src/parser.ts:92-95 | the infix registry by name: a handler is registered only for names whose precedence is above LOWEST |
| `Parsing.InfixParseFnForCategory` | src/parser.ts:92-95 | a category has an infix handler exactly when its precedence is above LOWEST |
| `Parsing.ExpectPeek` | src/parser.ts:199-213 | advances once exactly when the peek token has the expected category; otherwise it appends exactly one error naming both categories and changes nothing else |
| `Parsing.PeekErrorMessage` | src/parser.ts:209-213 | the `peekError` text, naming the expected and the found category; `ErrorMessagesDistinct` states it cannot be mistaken for the other diagnostics |
| `Parsing.NoPrefixMessage` | src/parser.ts:360-362 | the text recorded when the current category has no prefix handler; `NoPrefixHandler` states when it is appended |
| `Parsing.IdentifierAfterLetMessage` | src/parser.ts:159 | the text recorded after `let` without a name; `LetWithoutName` states when it is appended |
| `ParserFacts.ErrorMessagesDistinct` | src/parser.ts:159-213 | the three kinds of diagnostic are pairwise different strings |
| `Parsing.LeadingDigits` | src/parser.ts:340 | on a digit-led string such as the lexer's INT literals, `parseInt` reads the longest prefix of decimal digits |
| `Parsing.DecimalValue` | src/parser.ts:340 | the base-10 value of a digit string; `DecimalValueOfString` states that it inverts `DecimalString` |
| `Parsing.ParseInt` | src/parser.ts:340 | `parseInt(s)` on a digit string, as the value of the leading digits; `ParseIntReadsLeadingDigits` and `ParseIntRoundTrip` state what it reads |
| `ParserFacts.ParseIntReadsLeadingDigits` | src/parser.ts:340 | on a string that starts with digits, `parseInt` reads exactly those digits and ignores everything from the first non-digit on |
| `Parsing.ParseIntegerLiteral` | src/parser.ts:337-347 | an integer node from the current token and its literal read by `parseInt`, consuming nothing; `ParseIntRoundTrip` and `IntegerOperand` state its result |
| `Parsing.ParseBooleanLiteral` | src/parser.ts:223-229 | a boolean node from the current token, true exactly for TRUE; `BooleanOperand` states its use |
| `Parsing.ParseIdentifier` | src/parser.ts:215-221 | an identifier node from the current token; no registry entry leads to it, which `PrefixRegistry` and `IdentifierNeedsOperand` state |
| `Parsing.ParseExpression` | src/parser.ts:357-378 | the index never moves back, errors are only appended, and nothing is returned only after an error |
| `Parsing.ExpressionLoop` | src/parser.ts:366-377 | the loop never moves back and drops a left operand only after recording an error |
| `Parsing.ApplyPrefix` | src/parser.ts:82-90 | a registered prefix handler keeps the same guarantees: the index never moves back, and nothing is returned only after an error |
| `Parsing.ApplyInfix` | src/parser.ts:92-95 | a registered infix handler never moves back |
| `Parsing.ParsePrefixExpression` | src/parser.ts:98-106 | the index never moves back, and nothing is returned only after an error |
| `Parsing.ParseInfixExpression` | src/parser.ts:108-117 | the index never moves back, and nothing is returned only after an error |
| `Parsing.ParseGroupedExpression` | src/parser.ts:330-335 | the index never moves back, and nothing is returned only after an error |
| `Parsing.ParseIfExpression` | src/parser.ts:231-248 | the index never moves back, and nothing is returned only after an error; `IfWithoutOpenParen` and `IfElseWithIntegerCondition` state its result |
| `Parsing.ParseIfBlocks` | src/parser.ts:238-247 | the index never moves back, and nothing is returned only after an error |
| `Parsing.ParseFunctionLiteral` | src/parser.ts:284-291 | the index never moves back, and nothing is returned only after an error |
| `Parsing.ParseFunctionParameters` | src/parser.ts:293-316 | always finishes and never moves back; it either adds no error or returns nothing |
| `Parsing.ParameterLoop` | src/parser.ts:305-313 | keeps the parameters already read, adds no error, and stops only when the peek token is not a comma |
| `Parsing.ParseBlockStatement` | src/parser.ts:318-328 | never moves back, and always returns a block when it finishes |
| `Parsing.BlockLoop` | src/parser.ts:322-326 | keeps the statements already collected |
| `Parsing.ParseStatement` | src/parser.ts:145-154 | the index never moves back, and nothing is returned only after an error |
| `Parsing.SkipToSemicolon` | src/parser.ts:170 | when the scan ends, it is on a SEMICOLON and has added no error |
| `Parsing.ParseLetStatement` | src/parser.ts:156-172 | the index never moves back, and nothing is returned only after an error; its cases are stated by `LetWithoutName`, `LetWithoutAssign` and `LetKeepsFailedValue` |
| `Parsing.ParseReturnStatement` | src/parser.ts:174-180 | the index never moves back, and nothing is returned only after an error; its result is stated by `ReturnNeedsValue` |
| `Parsing.ParseExpressionStatement` | src/parser.ts:182-189 | the index never moves back, and nothing is returned only after an error; its result, the expression wrapped with the first token and an optional `;` consumed, is stated by `ExpressionStatementWraps` |
| `Parsing.ParseCallExpression` | src/parser.ts:250-261 | never moves back |
| `Parsing.ParseCallArguments` | src/parser.ts:263-282 | the index never moves back, and nothing is returned only after an error |
| `Parsing.ArgumentLoop` | src/parser.ts:273-278 | keeps the arguments already collected |
| `Parsing.ParseProgram` | src/parser.ts:132-143 | when parsing finishes, the current token is EOF |
| `Parsing.ProgramLoop` | src/parser.ts:134-140 | keeps the statements already collected and ends only on EOF |
| `Parsing.Parse` | src/main.ts:9-12 | lexing then parsing an input: when it finishes, the parser stands on EOF of the token list that lexing the input gives; `EmptyInputParses` states the result for "" |
| `ParserFacts.FromNameOfKeys` | src/parser.ts:36-46 | every key of `precedences` except ASTERISK names a category |
| `ParserFacts.PrecedenceLevels` | src/parser.ts:26-34 | the levels rise strictly from LOWEST = 1 to CALL = 7 |
| `ParserFacts.PrecedenceOfListed` | src/parser.ts:36-46 | a listed category's precedence is its table entry |
| `ParserFacts.PrecedenceOfUnlisted` | src/parser.ts:349-355 | any unlisted category has precedence LOWEST |
| `ParserFacts.PrecedenceByCategory` | src/parser.ts:349-355 | `curPrecedence`/`peekPrecedence` equal the table entry for the category's name, and are LOWEST for ASTERIX, RPAREN, SEMICOLON and EOF |
| `ParserFacts.InfixOperatorByCategory` | src/parser.ts:48-62 | a category is an infix operator exactly when its name is in `infixOperators`, and both registries agree |
| `ParserFacts.InfixNameOnlyIfCategory` | src/parser.ts:48-62 | a category whose name is in `infixOperators` is an infix category (the list's "ASTERISK" is no category's name) |
| `ParserFacts.InfixCategoryHasName` | src/parser.ts:48-62 | an infix category's name is in `infixOperators` |
| `ParserFacts.PrefixRegistry` | src/parser.ts:64-90 | exactly INT, TRUE, FALSE, LPAREN, IF, FUNCTION, BANG, MINUS and IDENT have prefix handlers; each category's handler is named, and BANG, MINUS and IDENT share `parsePrefixExpression` |
| `ParserFacts.NoPrefixHandler` | src/parser.ts:358-364 | with no prefix handler, one "No prefix parse function" error is appended, nothing is consumed and nothing is returned |
| `ParserFacts.LoopStopsAtSemicolon` | src/parser.ts:367 | the loop stops at a peeked SEMICOLON |
| `ParserFacts.LoopStopsAtWeakerOperator` | src/parser.ts:368 | the loop stops when the peek token binds no tighter than the threshold |
| `ParserFacts.IntegerOperand` | src/parser.ts:337-341 | an integer followed by a weaker token is the whole expression |
| `ParserFacts.InfixWithIntegerOperand` | src/parser.ts:108-117 | an operator followed by an integer and then a weaker token builds one infix node |
| `ParserFacts.LoopGroupsLeft` | src/parser.ts:366-376 | one step of the loop: an operator binding no tighter after the right operand is left for the loop, which goes on with `(left op b)`; `SumGroupsLeft` composes the whole expression |
| `ParserFacts.InfixGroupsRight` | src/parser.ts:108-117 | the infix handler with a tighter operator after its right operand takes `(b op c)` as that operand; `ProductGroupsFirst` composes the whole expression |
| `ParserFacts.RightOperandGroups` | src/parser.ts:111-113 | the right operand `2 / 3` of `1 + 2 / 3` is parsed whole at the precedence of `+` |
| `ParserFacts.TighterOperand` | src/parser.ts:357-378 | `a op b` followed by a weaker token parses as one infix node |
| `ParserFacts.LoopTakesOneOperator` | src/parser.ts:366-376 | the loop applies one tighter operator to an integer operand, then stops |
| `ParserFacts.PrefixWithIntegerOperand` | src/parser.ts:98-106 | the prefix handler takes the integer after it alone when an infix operator follows; `PrefixGroupsFirst` composes the whole expression |
| `ParserFacts.SumGroupsLeft` | src/parser.ts:357-378 | `INT op1 INT op2 INT` followed by a non-operator, with `op2` binding no tighter than `op1`, parses to `((1 op1 2) op2 3)` ending on the last integer: `1 + 2 + 3;` groups to the left |
| `ParserFacts.ProductGroupsFirst` | src/parser.ts:357-378 | the same tokens with `op2` binding tighter parse to `(1 op1 (2 op2 3))`: `1 + 2 / 3;` groups the product first |
| `ParserFacts.PrefixGroupsFirst` | src/parser.ts:98-106 | `- INT op INT` followed by a non-operator parses to `((-1) op 2)`: `-1 + 2;` applies the prefix first |
| `ParserFacts.InfixCategoryAboveLowest` | src/parser.ts:36-62 | every infix category binds tighter than LOWEST and no tighter than PRODUCT, so below a prefix operator |
| `ParserFacts.BooleanOperand` | src/parser.ts:223-229 | TRUE and FALSE give a boolean literal of the right value |
| `ParserFacts.IdentifierNeedsOperand` | src/parser.ts:88-90 | an identifier followed by `;` is read as a prefix operator with no operand: one error, nothing returned |
| `ParserFacts.LoopSpinsOnParen` | src/parser.ts:366-376 | with `(` as the peek token the loop never ends |
| `ParserFacts.ExpressionStatementDispatch` | src/parser.ts:145-154 | any statement other than let and return diverges exactly when its expression does |
| `ParserFacts.CallSyntaxExpressionDiverges` | src/parser.ts:366-376 | `1(…)` never finishes parsing as an expression |
| `ParserFacts.CallSyntaxDiverges` | src/parser.ts:145-154 | a statement starting with `1(` never finishes parsing |
| `ParserFacts.ProgramWithCallSyntaxDiverges` | src/parser.ts:132-143 | a program starting with `1(` never finishes parsing |
| `ParserFacts.SkipToSemicolonEnds` | src/parser.ts:170 | the semicolon scan ends exactly when a SEMICOLON remains, and stops on the first one |
| `ParserFacts.BlockEmptyUnlessEof` | src/parser.ts:318-328 | whenever the token after `{` is not EOF, the block is empty and one token is consumed |
| `ParserFacts.StatementAtEof` | src/parser.ts:145-154 | a statement at EOF records the missing-prefix error for EOF and gives nothing |
| `ParserFacts.StatementAtEofOutcome` | src/parser.ts:145-154 | a statement at EOF either runs out of fuel or records that error |
| `ParserFacts.BlockLoopAtEof` | src/parser.ts:322-326 | the block loop at EOF never ends |
| `ParserFacts.BlockAtEofDiverges` | src/parser.ts:318-328 | a block whose `{` is followed by EOF never finishes |
| `ParserFacts.LetWithoutName` | src/parser.ts:158-161 | `let` without a name gives two errors, the peek error and then the let error, and nothing else |
| `ParserFacts.LetWithoutAssign` | src/parser.ts:167 | `let x` without `=` gives one error naming ASSIGN and nothing else, on the name |
| `ParserFacts.LetKeepsFailedValue` | src/parser.ts:162-171 | `let x =` gives, whenever it finishes, a let statement with that token and name whose value is the result of parsing the expression after `=`, kept even when that failed, and ends on a SEMICOLON |
| `ParserFacts.ReturnNeedsValue` | src/parser.ts:174-180 | a return statement is given exactly when its value parsed, and it is the `return` token with that value; either way it ends on a SEMICOLON |
| `ParserFacts.ExpressionStatementWraps` | src/parser.ts:182-189 | an expression statement finishes exactly when its expression does and holds a statement exactly when the expression parsed: the first token wrapping that expression, with the expression's errors, stepping past a directly following `;` and nothing else |
| `ParserFacts.StatementIsExpressionStatement` | src/parser.ts:145-154 | a statement that is neither let nor return is parsed as an expression statement |
| `ParserFacts.IntegerStatement` | src/parser.ts:182-189 | `5;` is an expression statement wrapping the integer, ending on the `;` |
| `ParserFacts.ReturnWithoutSemicolonDiverges` | src/parser.ts:178 | `return …` with no SEMICOLON after it never finishes |
| `ParserFacts.GroupedIsTransparent` | src/parser.ts:330-335 | a grouped expression is the inner expression itself, or nothing with the peek error when `)` is missing |
| `ParserFacts.PrefixNeedsOperand` | src/parser.ts:98-106 | a prefix node is built exactly when its operand parses, from the operator's token and literal |
| `ParserFacts.InfixNeedsOperand` | src/parser.ts:108-117 | an infix node is built exactly when its right operand parses at the operator's precedence |
| `ParserFacts.CallNeedsCallable` | src/parser.ts:250-261 | anything other than an identifier or function literal gives nothing and consumes nothing; a built call has the given callee |
| `ParserFacts.CallWithoutArguments` | src/parser.ts:265-268 | an immediate `)` gives an empty argument list |
| `ParserFacts.ArgumentsDropFailures` | src/parser.ts:273-278 | an argument that fails to parse is left out and the loop goes on |
| `ParserFacts.IfWithoutElse` | src/parser.ts:238-247 | `(c) { … }` with no ELSE after it gives an if without alternative, and its block is empty |
| `ParserFacts.IfWithElse` | src/parser.ts:238-247 | `(c) { … } else { … }` gives an if with two empty blocks |
| `ParserFacts.IfWithoutCloseParen` | src/parser.ts:238 | a condition not followed by `)` gives nothing and one peek error |
| `ParserFacts.IfWithoutOpenParen` | src/parser.ts:234 | `if` not followed by `(` gives nothing and one peek error naming LPAREN, consuming nothing |
| `ParserFacts.IfElseWithIntegerCondition` | src/parser.ts:231-248 | `if (1) { … } else { … }` gives an if node with the `if` token, the integer after `(` as its condition and two empty blocks, ending on the last brace |
| `ParserFacts.FunctionDefaultsParameters` | src/parser.ts:284-291 | a built function literal has the `fn` token and the parameter list's result, or no parameters when the list failed |
| `ParserFacts.SingleParameterUnclosed` | src/parser.ts:293-316 | one parameter followed by `{` fails the list with one peek error naming RPAREN |
| `ParserFacts.ParametersAcceptAnyToken` | src/parser.ts:293-316 | `)` straight away gives no parameters; otherwise the first parameter is whatever token follows, of any category |
| `ParserFacts.ProgramAppendsStatement` | src/parser.ts:134-140 | a statement that parses is appended after the earlier ones, in source order |
| `ParserFacts.ProgramDropsFailedStatement` | src/parser.ts:134-140 | a statement that fails is left out, its errors stay, and parsing goes on |
| `ParserFacts.ProgramDropsLetWithoutAssign` | src/parser.ts:134-167 | in a program, `let x` without `=` is dropped with its one ASSIGN error, and parsing goes on from the token after the name |
| `ParserFacts.ProgramAppendsIntegerStatement` | src/parser.ts:134-189 | in a program, `5;` is appended as an expression statement and parsing goes on after the `;` |
| `ParserFacts.EmptyInputParses` | src/parser.ts:132-143 | the empty input parses to the empty program with no errors |
| `ParserFacts.EmptyInputStartsAtEof` | src/lexer.ts:43-45 | the parser for the empty input starts on EOF |
| `ParserFacts.ProgramAtEof` | src/parser.ts:134 | a parser standing on EOF returns the empty program at once |
| `ParserFacts.LetWithoutSemicolonDiverges` | src/parser.ts:170 | `let x = …` with no SEMICOLON after it never finishes |
| `ParserFacts.DecimalString` | src/parser.ts:340 | decimal numerals are non-empty strings of digits |
| `ParserFacts.LeadingDigitsOfDigits` | src/parser.ts:340 | on a string of digits, `parseInt` reads the whole string |
| `ParserFacts.DecimalValueOfString` | src/parser.ts:340 | the decimal value of the spelling of n is n |
| `ParserFacts.ParseIntRoundTrip` | src/parser.ts:337-341 | reading an integer literal gives back the number it was written from |
| `ParserFacts.ProductEndsExpression` | src/parser.ts:44 | an integer followed by `*` is the whole expression, because ASTERIX has no precedence entry |
| `ParserFacts.ProductStartsNothing` | src/parser.ts:52 | a statement starting with `*` gives nothing and one missing-prefix error for ASTERIX |
| `Examples.LexBangEqualStep0` | src/lexer.ts:36-42 | `!=` lexes as NOT_EQ and leaves the cursor on the `=` |
| `Examples.LexBangEqualStep1` | src/lexer.ts:36-42 | a lone `=` lexes as ASSIGN |
| `Examples.LexBangEqualStep2` | src/lexer.ts:43-45 | past the end, EOF |
| `Examples.LexAfterBang` | src/lexer.ts:61 | from the `=` of `!=` the rest is ASSIGN then EOF |
| `Examples.LexNotEqualRereadsSecondCharacter` | src/lexer.ts:36-61 | `!=` lexes as NOT_EQ, ASSIGN, EOF |
| `Examples.LexIdentifierStopsAtDigit` | src/lexer.ts:47-54 | in `x1` the letter run stops at the digit: IDENT `x` |
| `Examples.LexDigitAfterIdentifier` | src/lexer.ts:55-58 | the `1` of `x1` is a separate INT token |

## Left out

- `src/repl.ts` and the console output of `src/main.ts` are not part of this model. They are console I/O and the read loop; the lexer-then-parser pipeline of `src/main.ts` is `Parsing.Parse`.
- Of `src/utils.ts`, only `objectKeys`/`objectValues` are modelled, as `Tokens.Keys`/`Tokens.Values` over the table sequences; the `ValueOf` type has no counterpart.
- The unused fp-ts imports of `src/parser.ts` are not modelled.
- The `Map`/closure registration (`registerPrefix`, `registerInfix`) is not modelled. The registries are `match` on the category (`PrefixParseFnFor`, `InfixParseFnForCategory`).
- `Parsing.ParseInt` models `parseInt` only on digit strings, the only literals the lexer gives INT (`NextTokenNumber`). JavaScript's `parseInt` also skips leading whitespace, reads a `+`/`-` sign and reads a `0x`/`0X` prefix as hexadecimal; none of these is modelled, so `" 7"`, `"-3"` and `"0x1A"` give 0 here. JavaScript's NaN (no leading digit) gives 0 here as well, and rounding above 2^53 is not modelled.
- The `catch` of `parseIntegerLiteral` and its error message are not modelled, because `parseInt` does not throw.
- Strings are sequences of characters. UTF-16 code units are not modelled.
- Parse functions take a `fuel` bound. An input that needs more nesting than the fuel allows reads as `Diverged` like a real non-terminating loop, so the divergence lemmas say "for every fuel".
- Parses are stated on token streams of a given shape, not on whole source texts run through the lexer, because unfolding the lexer and the mutually recursive parse functions over one concrete input together is too costly for the solver. On token streams:
  - `let x 5;` is stated on any token stream of that shape, in two program steps: `ProgramDropsLetWithoutAssign` (one ASSIGN error, parsing goes on at `5`), then `ProgramAppendsIntegerStatement` (ExpressionStatement(5) is appended). No single lemma composes the two steps.
  - For `let x = 1 + (2 + 3) + 4;` the pieces are stated: `LetKeepsFailedValue` (the let's value is the expression parsed after `=`), `GroupedIsTransparent` and `LoopGroupsLeft`. No lemma composes them into the tree `((1 + (2 + 3)) + 4)`.
  - `if (1) { } else { }` is stated whole on a token stream of that shape by `IfElseWithIntegerCondition`.
  - `1 + 2 + 3;`, `1 + 2 / 3;` and `-1 + 2;` are stated whole on token streams of those shapes by `SumGroupsLeft`, `ProductGroupsFirst` and `PrefixGroupsFirst`.
- The whole-input lexer run of `!-/*5;` is not stated, for the same reason. Each of its steps is an instance of `NextTokenOperator` and `NextTokenNumber`.
- Parsing.ParseCallExpression: its contract states only that the index never moves back. Its shape (callee kinds, no consumption otherwise) is stated by `ParserFacts.CallNeedsCallable`.
- Tokens.LookupIdentifier: its contract states membership in the keyword table. The exact category is stated by `LookupIdentifierExact`.
