/** The syntax tree built by the parser (popsi.parser.ast: Expression/Expr, Statement/Stmt,
    Type/TypeAst, Ast). Each pair of Java files declares the same shape; it is declared once here. */
module Ast {
  import opened Wrappers
  import Tokens

  type Token = Tokens.Token

  /** A type as written in the source: a name or `[T]`. */
  datatype TypeAst = NamedType(name: Token) | ListType(elementType: TypeAst)

  datatype Expr =
    | Literal(token: Token)
    | VariableExpression(name: Token)
    | ListExpression(elements: seq<Expr>)
    | BinaryExpression(left: Expr, operator: Token, right: Expr)
    | UnaryExpression(operator: Token, operand: Expr)
    | FunctionCall(target: Expr, arguments: seq<Argument>)
    | ArgumentExpression(argument: Argument)
    | ListAccess(target: Expr, place: Expr)
    | RecAccess(target: Expr, field: Token)
    | RangeExpression(start: Expr, end: Expr)
    | ForExpression(variable: Token, varType: TypeAst, range: Expr, body: Block)
    | IfExpression(condition: Expr, thenBranch: Block, elseBranch: Option<Block>)
    | WhileExpression(condition: Expr, body: Block)
    | ReturnExpression(value: Expr)
    | DebugExpression(value: Expr)
    | BlockExpression(block: Block)

  /** A call argument, optionally labelled `label: value`. */
  datatype Argument = Argument(argLabel: Option<Token>, value: Expr)

  /** A block: its statements and, when the last one did not end with `;`, that one as tail. */
  datatype Block = Block(statements: seq<Stmt>, lastStatement: Option<Stmt>)

  datatype Stmt =
    | Declaration(name: Token, declType: TypeAst, value: Option<Expr>)
    | ExpressionStatement(expression: Expr)

  datatype Parameter = Parameter(name: Token, paramType: TypeAst)
  datatype RecField = RecField(name: Token, fieldType: TypeAst)
  datatype Function = Function(name: Token, parameters: seq<Parameter>, returnType: Option<TypeAst>, body: Block)
  datatype Rec = Rec(name: Token, fields: seq<RecField>)
  datatype Program = Program(functions: seq<Function>, records: seq<Rec>)
}
