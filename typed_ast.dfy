/** The typed syntax tree the control-flow analysis walks (popsi.analysis.typed_ast). */
module TypedAst {
  import opened Wrappers
  import Types
  import Tokens
  import FilePosition
  import Ast

  type Type = Types.Type
  type Token = Tokens.Token

  /** Handles into the symbol table: Id<TypeInfo> and Id<LocalInfo>. */
  type TypeId = nat
  type LocalId = nat

  /** The part of the symbol table the analysis reads: the type a type handle stands for
      and the type handle of a local. The source calls `table.typeDefinition(id)` and
      `table.locals().get(id).get().type()`, which its stub symbol table does not define;
      here they are total functions handed in by the caller. */
  datatype SymbolTable = SymbolTable(typeDefinition: TypeId -> Type, localType: LocalId -> TypeId)

  /** Every expression carries its type. Where the analysis resolves a node's type through
      the table (a return and an expression statement), the node carries a handle. */
  datatype TypedExpr =
    | Literal(token: Token, ty: Type)
    | VariableExpression(name: Token, ty: Type)
    | ListExpression(position: FilePosition.Position, elements: seq<TypedExpr>, ty: Type)
    | BinaryExpression(left: TypedExpr, operator: Token, right: TypedExpr, ty: Type)
    | UnaryExpression(operator: Token, operand: TypedExpr, ty: Type)
    | FunctionCall(target: TypedExpr, arguments: seq<Argument>, ty: Type)
    | ArgumentExpression(argument: Argument)
    | ListAccess(target: TypedExpr, place: TypedExpr, ty: Type)
    | RecAccess(target: TypedExpr, field: Token, ty: Type)
    | ForExpression(variable: Token, varType: Ast.TypeAst, range: TypedExpr, body: Block, ty: Type)
    | IfExpression(condition: TypedExpr, thenBranch: Block, elseBranch: Option<Block>, ty: Type)
    | WhileExpression(condition: TypedExpr, body: Block, ty: Type)
    | ReturnExpression(value: TypedExpr, typeId: TypeId)
    | DebugExpression(value: TypedExpr, ty: Type)
    | BlockExpression(block: Block)

  datatype Argument = Argument(argLabel: Option<Token>, value: TypedExpr, ty: Type)

  datatype Block = Block(statements: seq<TypedStmt>, lastStatement: Option<TypedStmt>, ty: Type)

  datatype TypedStmt =
    | Declaration(name: Token, declType: Ast.TypeAst, value: Option<TypedExpr>, local: LocalId)
    | ExpressionStatement(expression: TypedExpr, typeId: TypeId)
}
