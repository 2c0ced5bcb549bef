/**
 * The syntax tree of src/ast.ts.
 *
 * The source's tagged unions become datatypes: `Expression` has exactly the eight
 * variants of its union and `Statement` exactly the three of its union. Every
 * expression and every non-block statement keeps the token it was built from; a
 * block keeps none.
 */
module Ast {
  import opened Optional
  import opened Tokens

  /** `IdentifierExpression`, also used on its own for let-bound names and parameters. */
  datatype Identifier = Identifier(token: Token, value: string)

  /** `FunctionLiteralExpression`, on its own so that a call's callee can name it. */
  datatype FunctionLiteral = FunctionLiteral(token: Token, parameters: seq<Identifier>, body: BlockStatement)

  /** What a `CallExpression` may call: an identifier or a function literal, nothing else. */
  datatype Callee = CalleeIdentifier(id: Identifier) | CalleeFunction(fn: FunctionLiteral)

  datatype Expression =
    | Ident(id: Identifier)
    | IntegerLiteral(token: Token, intValue: int)
    | Prefix(token: Token, operator: string, right: Expression)
    | Infix(token: Token, left: Expression, operator: string, right: Expression)
    | Boolean(token: Token, boolValue: bool)
    | If(token: Token, condition: Expression, consequence: BlockStatement, alternative: Option<BlockStatement>)
    | Function(fn: FunctionLiteral)
    | Call(token: Token, callee: Callee, arguments: seq<Expression>)

  datatype BlockStatement = BlockStatement(statements: seq<Statement>)

  datatype Statement =
    | LetStatement(token: Token, name: Identifier, value: Option<Expression>)
    | ReturnStatement(token: Token, returnValue: Expression)
    | ExpressionStatement(token: Token, expression: Expression)

  datatype Program = Program(statements: seq<Statement>)

  /** The source's `type` tag of an expression. */
  function ExpressionTag(e: Expression): string {
    match e
    case Ident(_) => "identifier"
    case IntegerLiteral(_, _) => "integer"
    case Prefix(_, _, _) => "prefix"
    case Infix(_, _, _, _) => "infix"
    case Boolean(_, _) => "boolean"
    case If(_, _, _, _) => "if"
    case Function(_) => "function"
    case Call(_, _, _) => "call"
  }

  /** The source's `type` tag of a statement. */
  function StatementTag(s: Statement): string {
    match s
    case LetStatement(_, _, _) => "let"
    case ReturnStatement(_, _) => "return"
    case ExpressionStatement(_, _) => "expression"
  }

  /** The callee as an expression again: a call's callee is only ever an identifier or a function literal. */
  function CalleeExpression(c: Callee): (e: Expression)
    ensures e.Ident? || e.Function?
  {
    match c
    case CalleeIdentifier(id) => Ident(id)
    case CalleeFunction(fn) => Function(fn)
  }

  /** `new Program()`: the root starts with no statements. */
  function EmptyProgram(): (p: Program)
    ensures |p.statements| == 0
  {
    Program([])
  }

  /** Two expressions are built by the same variant. */
  predicate SameVariant(a: Expression, b: Expression) {
    && a.Ident? == b.Ident?
    && a.IntegerLiteral? == b.IntegerLiteral?
    && a.Prefix? == b.Prefix?
    && a.Infix? == b.Infix?
    && a.Boolean? == b.Boolean?
    && a.If? == b.If?
    && a.Function? == b.Function?
    && a.Call? == b.Call?
  }

  /** The eight expression tags are distinct, so an expression's tag determines its variant. */
  lemma ExpressionTagsDistinct(a: Expression, b: Expression)
    ensures ExpressionTag(a) == ExpressionTag(b) <==> SameVariant(a, b)
  {
  }

  /** The three statement tags are distinct, so a statement's tag determines its variant. */
  lemma StatementTagsDistinct(a: Statement, b: Statement)
    ensures StatementTag(a) == StatementTag(b)
        <==> (a.LetStatement? == b.LetStatement? && a.ReturnStatement? == b.ReturnStatement?)
  {
  }
}
