/** The syntax-tree printer (popsi.parser.ast.AstPrinter): every node becomes an
    S-expression, `(head part part ...)`, built in a StringBuilder by `parens`, `brackets` and
    `stringify`; `print` then collapses white space and trims the text.

    The visits are pure and are written as functions over the tree; the builder that
    assembles one form is a class whose methods are proved to build what the functions
    describe. */
module Printer {
  import opened Wrappers
  import opened Whitespace
  import A = Ast

  /** An argument of `stringify` once visited: text (a string, a token's lexeme or a visited
      node), the visited items of a list, or an optional visited value. */
  datatype Part = Text(text: string) | Items(texts: seq<string>) | Optional(item: Option<string>)

  /** Each item after one space: ` w1 w2 ...`. */
  function Spaced(ws: seq<string>): string
    decreases |ws|
  {
    if ws == [] then "" else Spaced(ws[..|ws| - 1]) + " " + ws[|ws| - 1]
  }

  /** What `stringify` appends for a part after its separating space: a list is flattened into
      the form, each item after one more space; a present optional adds one more space and
      its value; an absent one adds nothing. */
  function Content(p: Part): string {
    match p
    case Text(t) => t
    case Items(ts) => Spaced(ts)
    case Optional(o) => if o.Some? then " " + o.value else ""
  }

  /** `stringify`: each part after a space. */
  function Stringified(parts: seq<Part>): string
    decreases |parts|
  {
    if parts == [] then "" else Stringified(parts[..|parts| - 1]) + " " + Content(parts[|parts| - 1])
  }

  /** Stringifying one more part, after what was already in the builder. */
  lemma StringifiedSnoc(prefix: string, parts: seq<Part>, i: nat)
    requires i < |parts|
    ensures prefix + Stringified(parts[..i]) + (" " + Content(parts[i])) == prefix + Stringified(parts[..i + 1])
  {
    assert parts[..i + 1][..i] == parts[..i];
  }

  /** `parens(name, rest...)`. */
  function Parenthesised(name: string, parts: seq<Part>): (r: string)
    ensures Solid(r) && r[0] == '(' && r[|r| - 1] == ')'
  {
    "(" + name + Stringified(parts) + ")"
  }

  /** `brackets(name, rest...)`. */
  function Bracketed(name: string, parts: seq<Part>): (r: string)
    ensures Solid(r) && r[0] == '[' && r[|r| - 1] == ']'
  {
    "[" + name + Stringified(parts) + "]"
  }

  /** The same text with each item as a `Text` part. */
  function Texts(ws: seq<string>): (parts: seq<Part>)
    ensures |parts| == |ws| && forall i | 0 <= i < |ws| :: parts[i] == Text(ws[i])
  {
    seq(|ws|, i requires 0 <= i < |ws| => Text(ws[i]))
  }

  // ---------------------------------------------------------------------------------------
  // The visits

  /** `visitType`: a name prints as its lexeme, a list type as `[element]`. */
  function VisitType(t: A.TypeAst): string
    decreases t
  {
    match t
    case NamedType(name) => name.lexeme
    case ListType(element) => Bracketed(VisitType(element), [])
  }

  /** `visitExpression`. */
  function VisitExpr(e: A.Expr): string
    decreases e
  {
    match e
    case Literal(t) => t.lexeme
    case VariableExpression(name) => name.lexeme
    case BinaryExpression(left, operator, right) =>
      Parenthesised(operator.lexeme, [Text(VisitExpr(left)), Text(VisitExpr(right))])
    case UnaryExpression(operator, operand) => Parenthesised(operator.lexeme, [Text(VisitExpr(operand))])
    case FunctionCall(target, arguments) => Parenthesised(VisitExpr(target), [Items(VisitArguments(arguments))])
    case ListAccess(target, place) => Parenthesised("[]", [Text(VisitExpr(target)), Text(VisitExpr(place))])
    case RangeExpression(start, end) => VisitExpr(start) + ".." + VisitExpr(end)
    case ForExpression(variable, varType, range, body) =>
      Parenthesised("for", [Text(variable.lexeme), Text(VisitType(varType)), Text(VisitExpr(range)), Text(VisitBlock(body))])
    case IfExpression(condition, thenBranch, elseBranch) =>
      Parenthesised("if", [Text(VisitExpr(condition)), Text(VisitBlock(thenBranch)),
        Optional(if elseBranch.Some? then Some(VisitBlock(elseBranch.value)) else None)])
    case WhileExpression(condition, body) => Parenthesised("while", [Text(VisitExpr(condition)), Text(VisitBlock(body))])
    case ReturnExpression(value) => Parenthesised("return", [Text(VisitExpr(value))])
    case DebugExpression(value) => Parenthesised("debug", [Text(VisitExpr(value))])
    case BlockExpression(block) => VisitBlock(block)
    case ListExpression(elements) => Parenthesised("list", [Items(VisitExprs(elements))])
    case ArgumentExpression(argument) => VisitArgument(argument)
    case RecAccess(target, field) => Parenthesised(".", [Text(VisitExpr(target)), Text(field.lexeme)])
  }

  function VisitExprs(es: seq<A.Expr>): seq<string>
    decreases es
  {
    seq(|es|, i requires 0 <= i < |es| => VisitExpr(es[i]))
  }

  /** An argument prints its value through `print`, after `label: ` when labelled. */
  function VisitArgument(a: A.Argument): string
    decreases a
  {
    if a.argLabel.Some? then a.argLabel.value.lexeme + ": " + Normalize(VisitExpr(a.value))
    else Normalize(VisitExpr(a.value))
  }

  function VisitArguments(args: seq<A.Argument>): seq<string>
    decreases args
  {
    seq(|args|, i requires 0 <= i < |args| => VisitArgument(args[i]))
  }

  /** A block: `(block statements... tail)`. */
  function VisitBlock(b: A.Block): string
    decreases b
  {
    Parenthesised("block", [Items(VisitStmts(b.statements)),
      Optional(if b.lastStatement.Some? then Some(VisitStmt(b.lastStatement.value)) else None)])
  }

  function VisitStmts(ss: seq<A.Stmt>): seq<string>
    decreases ss
  {
    seq(|ss|, i requires 0 <= i < |ss| => VisitStmt(ss[i]))
  }

  /** `visitStatement`: an expression statement prints as its expression; a declaration as
      `(let ((name type)) value)`. */
  function VisitStmt(s: A.Stmt): string
    decreases s
  {
    match s
    case ExpressionStatement(expression) => VisitExpr(expression)
    case Declaration(name, declType, value) =>
      Parenthesised("let", [Text(Parenthesised(Parenthesised(name.lexeme, [Text(VisitType(declType))]), [])),
        Optional(if value.Some? then Some(VisitExpr(value.value)) else None)])
  }

  function VisitParameter(p: A.Parameter): string {
    Parenthesised(p.name.lexeme, [Text(":"), Text(VisitType(p.paramType))])
  }

  function VisitField(f: A.RecField): string {
    Parenthesised("let", [Text(Parenthesised(f.name.lexeme, [Text(VisitType(f.fieldType))]))])
  }

  function VisitFunction(f: A.Function): string {
    var parameters := seq(|f.parameters|, i requires 0 <= i < |f.parameters| => VisitParameter(f.parameters[i]));
    Parenthesised("fn", [Text(Parenthesised(f.name.lexeme, [Items(parameters)])), Text("->"),
      Optional(if f.returnType.Some? then Some(VisitType(f.returnType.value)) else None), Text(VisitBlock(f.body))])
  }

  function VisitRec(r: A.Rec): string {
    var fields := seq(|r.fields|, i requires 0 <= i < |r.fields| => VisitField(r.fields[i]));
    Parenthesised("rec", [Text(Parenthesised(r.name.lexeme, [Items(fields)]))])
  }

  /** A program: its records, then its functions. */
  function VisitProgram(p: A.Program): string {
    var records := seq(|p.records|, i requires 0 <= i < |p.records| => VisitRec(p.records[i]));
    var functions := seq(|p.functions|, i requires 0 <= i < |p.functions| => VisitFunction(p.functions[i]));
    Parenthesised("program", [Items(records), Items(functions)])
  }

  /** The objects `print` accepts. */
  datatype Node =
    | ProgramNode(program: A.Program)
    | FunctionNode(fn: A.Function)
    | RecNode(rec: A.Rec)
    | ParameterNode(parameter: A.Parameter)
    | FieldNode(field: A.RecField)
    | ExprNode(expr: A.Expr)
    | StmtNode(stmt: A.Stmt)
    | TypeNode(typeAst: A.TypeAst)

  /** `visit`. */
  function Visit(n: Node): string {
    match n
    case ProgramNode(p) => VisitProgram(p)
    case FunctionNode(f) => VisitFunction(f)
    case RecNode(r) => VisitRec(r)
    case ParameterNode(p) => VisitParameter(p)
    case FieldNode(f) => VisitField(f)
    case ExprNode(e) => VisitExpr(e)
    case StmtNode(s) => VisitStmt(s)
    case TypeNode(t) => VisitType(t)
  }

  /** `print`: the visited text with white space collapsed and trimmed. */
  function Print(n: Node): string {
    Normalize(Visit(n))
  }

  // ---------------------------------------------------------------------------------------
  // The builder

  /** The StringBuilder one form is assembled in. */
  class Builder {
    var text: string

    constructor()
      ensures text == ""
    {
      text := "";
    }

    method Append(s: string)
      modifies this
      ensures text == old(text) + s
    {
      text := text + s;
    }

    /** The recursive `stringify` of a list's items: each after a space. */
    method StringifyItems(items: seq<string>)
      modifies this
      ensures text == old(text) + Spaced(items)
    {
      for i := 0 to |items|
        invariant text == old(text) + Spaced(items[..i])
      {
        assert items[..i + 1][..i] == items[..i];
        Append(" ");
        Append(items[i]);
      }
      assert items[..|items|] == items;
    }

    /** One step of `stringify`: a space, then the part. */
    method StringifyPart(p: Part)
      modifies this
      ensures text == old(text) + (" " + Content(p))
    {
      Append(" ");
      match p
      case Text(t) =>
        Append(t);
      case Items(ts) =>
        StringifyItems(ts);
      case Optional(o) =>
        if o.Some? {
          Append(" " + o.value);
        }
    }

    /** `stringify`: each part after a space. */
    method Stringify(parts: seq<Part>)
      modifies this
      ensures text == old(text) + Stringified(parts)
    {
      for i := 0 to |parts|
        invariant text == old(text) + Stringified(parts[..i])
      {
        StringifyPart(parts[i]);
        StringifiedSnoc(old(text), parts, i);
      }
      assert parts[..|parts|] == parts;
    }
  }

  /** `parens`: `(`, the name, the parts, `)`. */
  method Parens(name: string, parts: seq<Part>) returns (s: string)
    ensures s == Parenthesised(name, parts)
  {
    var builder := new Builder();
    builder.Append("(");
    builder.Append(name);
    builder.Stringify(parts);
    builder.Append(")");
    s := builder.text;
  }

  /** `brackets`: `[`, the name, the parts, `]`. */
  method Brackets(name: string, parts: seq<Part>) returns (s: string)
    ensures s == Bracketed(name, parts)
  {
    var builder := new Builder();
    builder.Append("[");
    builder.Append(name);
    builder.Stringify(parts);
    builder.Append("]");
    s := builder.text;
  }
}
