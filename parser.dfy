/** The recursive-descent parser (popsi.parser.Parser): a cursor over the token list, one
    method per grammar rule, syntax errors collected in a list and recovery at function and
    statement level. Every method is proved to compute the function of the same name in
    `ParserSpec`, from the state on entry to the outcome and the state it leaves. */
module Parser {
  import opened Wrappers
  import opened Tokens
  import opened Diagnostics
  import A = Ast
  import opened ParserSpec

  class Parser {
    const tokens: seq<Token>
    var current: nat
    var errors: seq<CompilerError>
    /** Whether the last statement parsed consumed a `;` (written by statements, read by blocks). */
    var ateSemi: bool

    /** The parser's fields as a value. */
    function St(): State
      reads this
    {
      State(current, errors, ateSemi)
    }

    ghost predicate Valid()
      reads this
    {
      Within(tokens, St())
    }

    constructor(tokens: seq<Token>)
      requires EndsAtEof(tokens)
      ensures Valid() && this.tokens == tokens && St() == State(0, [], false)
    {
      this.tokens := tokens;
      current := 0;
      errors := [];
      ateSemi := false;
    }

    // ---- cursor ----

    predicate AtEof()
      reads this
      requires Valid()
    {
      tokens[current].kind in {Eof}
    }

    function Peek(): Token
      reads this
      requires Valid()
    {
      tokens[current]
    }

    function PeekNext(): Token
      reads this
      requires Valid()
    {
      TokenAfter(tokens, current)
    }

    function Previous(): Token
      reads this
      requires Valid() && 0 < current
    {
      tokens[current - 1]
    }

    method Next()
      requires Valid()
      modifies this
      ensures Valid() && St() == ParserSpec.Next(tokens, old(St()))
    {
      if !AtEof() {
        current := current + 1;
      }
    }

    method Match(kinds: set<TokenKind>) returns (matched: bool)
      requires Valid()
      modifies this
      ensures Valid() && Matched(matched, St()) == ParserSpec.Match(tokens, old(St()), kinds)
    {
      matched := Peek().kind in kinds;
      if matched {
        Next();
      }
    }

    method RecordError(message: string)
      requires Valid()
      modifies this
      ensures Valid() && St() == ParserSpec.RecordError(tokens, old(St()), message)
    {
      errors := errors + [CompilerError(Syntactic, message, Peek().where)];
    }

    method Consume(kind: TokenKind, message: string) returns (ok: bool, t: Token)
      requires Valid() && kind !in {Eof}
      modifies this
      ensures Valid() && Consumed(ok, t, St()) == ParserSpec.Consume(tokens, old(St()), kind, message)
    {
      t := Peek();
      ok := Match({kind});
      if !ok {
        RecordError(Expected(message, t));
      }
    }

    // ---- recovery ----

    method RecoverFunction()
      requires Valid()
      modifies this
      ensures Valid() && St() == ParserSpec.RecoverFunction(tokens, old(St()))
    {
      Next();
      while !AtEof()
        invariant Valid() && SkipToFunction(tokens, St()) == ParserSpec.RecoverFunction(tokens, old(St()))
        decreases |tokens| - current
      {
        if Peek().kind in {Fn} {
          break;
        }
        Next();
      }
    }

    method RecoverStmt() returns (hang: bool)
      requires Valid() && 0 < current
      modifies this
      ensures Valid() && Recovered(hang, St()) == ParserSpec.RecoverStmt(tokens, old(St()))
    {
      Next();
      while !AtEof() && Previous().kind !in {Semicolon} && !StartsStatement(Peek().kind)
        invariant Valid() && 0 < current
        invariant SkipStatement(tokens, St()) == SkipStatement(tokens, ParserSpec.Next(tokens, old(St())))
        decreases |tokens| - current
      {
        Next();
      }
      hang := !AtEof() && Previous().kind !in {Semicolon};
    }

    // ---- declarations ----

    method Type() returns (r: Outcome<A.TypeAst>)
      requires Valid()
      modifies this
      decreases |tokens| - current
      ensures Valid() && Step(r, St()) == ParserSpec.Type(tokens, old(St()))
    {
      var isName := Match({Identifier});
      if isName {
        return Parsed(A.NamedType(Previous()));
      }
      var isList := Match({LBracket});
      if isList {
        var element := Type();
        if !element.Parsed? {
          return Failed;
        }
        var closeOk, close := Consume(RBracket, MsgListTypeClose);
        if !closeOk {
          return Failed;
        }
        return Parsed(A.ListType(element.value));
      }
      RecordError(MsgTypeExpected);
      return Failed;
    }

    method Annotation(nameMessage: string, colonMessage: string) returns (ok: bool, name: Token, annotation: A.TypeAst)
      requires Valid()
      modifies this
      ensures Valid() && Annotated(ok, name, annotation, St()) == ParserSpec.Annotation(tokens, old(St()), nameMessage, colonMessage)
    {
      annotation := A.NamedType(tokens[current]);
      ok, name := Consume(Identifier, nameMessage);
      if !ok {
        return;
      }
      var colonOk, colon := Consume(Colon, colonMessage);
      if !colonOk {
        return false, name, annotation;
      }
      var t := Type();
      if !t.Parsed? {
        return false, name, annotation;
      }
      return true, name, t.value;
    }

    method Parameters() returns (r: Outcome<seq<A.Parameter>>)
      requires Valid()
      modifies this
      ensures Valid() && Step(r, St()) == ParserSpec.Parameters(tokens, old(St()))
    {
      if Peek().kind in {RParen} {
        return Parsed([]);
      }
      var parameters: seq<A.Parameter> := [];
      while true
        invariant Valid() && ParameterList(tokens, St(), parameters) == ParserSpec.Parameters(tokens, old(St()))
        decreases |tokens| - current
      {
        var annotated, name, annotation := Annotation(MsgParameterName, MsgParameterColon);
        if !annotated {
          return Failed;
        }
        parameters := parameters + [A.Parameter(name, annotation)];
        var more := Match({Comma});
        if !more {
          return Parsed(parameters);
        }
      }
    }

    method RecField() returns (r: Outcome<A.RecField>)
      requires Valid()
      modifies this
      ensures Valid() && Step(r, St()) == ParserSpec.RecField(tokens, old(St()))
    {
      var letOk, let := Consume(Let, MsgFieldLet);
      if !letOk {
        return Failed;
      }
      var annotated, name, annotation := Annotation(MsgFieldName, MsgFieldColon);
      if !annotated {
        return Failed;
      }
      var semiOk, semi := Consume(Semicolon, MsgFieldSemicolon);
      if !semiOk {
        return Failed;
      }
      return Parsed(A.RecField(name, annotation));
    }

    method Rec() returns (r: Outcome<A.Rec>)
      requires Valid()
      modifies this
      ensures Valid() && Step(r, St()) == ParserSpec.Rec(tokens, old(St()))
    {
      var nameOk, name := Consume(Identifier, MsgRecName);
      if !nameOk {
        return Failed;
      }
      var openOk, open := Consume(LCurly, MsgRecOpen);
      if !openOk {
        return Failed;
      }
      var fields: seq<A.RecField> := [];
      while Peek().kind !in {RCurly}
        invariant Valid() && RecFields(tokens, St(), name, fields) == ParserSpec.Rec(tokens, old(St()))
        decreases |tokens| - current
      {
        var field := RecField();
        if !field.Parsed? {
          return Failed;
        }
        fields := fields + [field.value];
      }
      var closeOk, close := Consume(RCurly, MsgRecClose);
      return Parsed(A.Rec(name, fields));
    }

    method Function() returns (r: Outcome<A.Function>)
      requires Valid()
      modifies this
      ensures Valid() && Step(r, St()) == ParserSpec.Function(tokens, old(St()))
    {
      var fnOk, fn := Consume(Fn, MsgFunctionKeyword);
      if !fnOk {
        return Failed;
      }
      var nameOk, name := Consume(Identifier, MsgFunctionName);
      if !nameOk {
        return Failed;
      }
      var openOk, open := Consume(LParen, MsgFunctionOpen);
      if !openOk {
        return Failed;
      }
      var parameters := Parameters();
      if !parameters.Parsed? {
        return Failed;
      }
      var closeOk, close := Consume(RParen, MsgFunctionClose);
      if !closeOk {
        return Failed;
      }
      var returnType: Option<A.TypeAst> := None;
      var arrow := Match({Arrow});
      if arrow {
        var t := Type();
        if !t.Parsed? {
          return Failed;
        }
        returnType := Some(t.value);
      }
      var body := Block();
      if !body.Parsed? {
        return Abandon(body);
      }
      return Parsed(A.Function(name, parameters.value, returnType, body.value));
    }

    // ---- blocks and statements ----

    method Block() returns (r: Outcome<A.Block>)
      requires Valid()
      modifies this
      decreases |tokens| - current, 1
      ensures Valid() && Step(r, St()) == ParserSpec.Block(tokens, old(St()))
    {
      var openOk, open := Consume(LCurly, MsgBlockOpen);
      if !openOk {
        return Failed;
      }
      var statements: seq<A.Stmt> := [];
      while Peek().kind !in {RCurly}
        invariant Valid() && 0 < current
        invariant Statements(tokens, St(), open, statements) == ParserSpec.Block(tokens, old(St()))
        decreases |tokens| - current
      {
        var start := current;
        var statement := Statement();
        if statement.Parsed? {
          statements := statements + [statement.value];
        } else if statement.Diverged? {
          return Diverged;
        } else {
          var hang := RecoverStmt();
          if hang || current == start {
            return Diverged;
          }
        }
      }
      var closeOk, close := Consume(RCurly, MsgBlockClose
        + IntToString(open.where.line));
      if ateSemi || statements == [] {
        return Parsed(A.Block(statements, None));
      }
      var n := |statements| - 1;
      return Parsed(A.Block(statements[..n], Some(statements[n])));
    }

    method Statement() returns (r: Outcome<A.Stmt>)
      requires Valid()
      modifies this
      decreases |tokens| - current, 23
      ensures Valid() && Step(r, St()) == ParserSpec.Statement(tokens, old(St()))
    {
      ateSemi := false;
      var isLet := Match({Let});
      if isLet {
        r := Declaration();
      } else {
        r := ExprStmt();
      }
    }

    method Declaration() returns (r: Outcome<A.Stmt>)
      requires Valid()
      modifies this
      decreases |tokens| - current, 22
      ensures Valid() && Step(r, St()) == ParserSpec.Declaration(tokens, old(St()))
    {
      var annotated, name, annotation := Annotation(MsgLetName, MsgLetColon);
      if !annotated {
        return Failed;
      }
      var value: Option<A.Expr> := None;
      var initialized := Match({Equal});
      if initialized {
        var e := Expression();
        if !e.Parsed? {
          return Abandon(e);
        }
        value := Some(e.value);
      }
      var semiOk, semi := Consume(Semicolon, MsgLetSemicolon);
      if !semiOk {
        return Failed;
      }
      ateSemi := true;
      return Parsed(A.Declaration(name, annotation, value));
    }

    method ExprStmt() returns (r: Outcome<A.Stmt>)
      requires Valid()
      modifies this
      decreases |tokens| - current, 22
      ensures Valid() && Step(r, St()) == ParserSpec.ExprStmt(tokens, old(St()))
    {
      if Peek().kind in BLOCK_STARTS {
        var e := BlockExpression();
        if !e.Parsed? {
          return Abandon(e);
        }
        ateSemi := Match({Semicolon});
        return Parsed(A.ExpressionStatement(e.value));
      }
      var e := BlocklessExpression();
      if !e.Parsed? {
        return Abandon(e);
      }
      if Peek().kind !in {RCurly} {
        var semiOk, semi := Consume(Semicolon, MsgStatementSemicolon);
        if !semiOk {
          return Failed;
        }
        ateSemi := true;
      } else {
        ateSemi := Match({Semicolon});
      }
      return Parsed(A.ExpressionStatement(e.value));
    }

    // ---- expressions ----

    method Expression() returns (r: Outcome<A.Expr>)
      requires Valid()
      modifies this
      decreases |tokens| - current, 21
      ensures Valid() && Step(r, St()) == ParserSpec.Expression(tokens, old(St()))
    {
      if Peek().kind in BLOCK_STARTS {
        r := BlockExpression();
      } else {
        r := BlocklessExpression();
      }
    }

    method BlockExpression() returns (r: Outcome<A.Expr>)
      requires Valid()
      modifies this
      decreases |tokens| - current, 20
      ensures Valid() && Step(r, St()) == ParserSpec.BlockExpression(tokens, old(St()))
    {
      var isIf := Match({If});
      if isIf {
        r := IfExpression();
      } else if Peek().kind in {While, For} {
        r := Loop();
      } else {
        var b := Block();
        if !b.Parsed? {
          return Abandon(b);
        }
        return Parsed(A.BlockExpression(b.value));
      }
    }

    method IfExpression() returns (r: Outcome<A.Expr>)
      requires Valid()
      modifies this
      decreases |tokens| - current, 22
      ensures Valid() && Step(r, St()) == ParserSpec.IfExpression(tokens, old(St()))
    {
      var condition := Expression();
      if !condition.Parsed? {
        return Abandon(condition);
      }
      var thenBranch := Block();
      if !thenBranch.Parsed? {
        return Abandon(thenBranch);
      }
      var elseBranch: Option<A.Block> := None;
      var hasElse := Match({Else});
      if hasElse {
        var b := Block();
        if !b.Parsed? {
          return Abandon(b);
        }
        elseBranch := Some(b.value);
      }
      return Parsed(A.IfExpression(condition.value, thenBranch.value, elseBranch));
    }

    method Loop() returns (r: Outcome<A.Expr>)
      requires Valid() && tokens[current].kind in {While, For}
      modifies this
      decreases |tokens| - current, 1
      ensures Valid() && Step(r, St()) == ParserSpec.Loop(tokens, old(St()))
    {
      var isWhile := Match({While});
      if isWhile {
        r := WhileExpression();
        return;
      }
      var isFor := Match({For});
      if isFor {
        r := ForExpression();
        return;
      }
      assert false;
    }

    method ForExpression() returns (r: Outcome<A.Expr>)
      requires Valid()
      modifies this
      decreases |tokens| - current, 22
      ensures Valid() && Step(r, St()) == ParserSpec.ForExpression(tokens, old(St()))
    {
      var annotated, name, annotation := Annotation(MsgForName, MsgForColon);
      if !annotated {
        return Failed;
      }
      var isInOk, isIn := Consume(In, MsgForIn);
      if !isInOk {
        return Failed;
      }
      var range := Expression();
      if !range.Parsed? {
        return Abandon(range);
      }
      var body := Block();
      if !body.Parsed? {
        return Abandon(body);
      }
      return Parsed(A.ForExpression(name, annotation, range.value, body.value));
    }

    method WhileExpression() returns (r: Outcome<A.Expr>)
      requires Valid()
      modifies this
      decreases |tokens| - current, 22
      ensures Valid() && Step(r, St()) == ParserSpec.WhileExpression(tokens, old(St()))
    {
      var condition := Expression();
      if !condition.Parsed? {
        return Abandon(condition);
      }
      var body := Block();
      if !body.Parsed? {
        return Abandon(body);
      }
      return Parsed(A.WhileExpression(condition.value, body.value));
    }

    method BlocklessExpression() returns (r: Outcome<A.Expr>)
      requires Valid()
      modifies this
      decreases |tokens| - current, 19
      ensures Valid() && Step(r, St()) == ParserSpec.BlocklessExpression(tokens, old(St()))
    {
      var isReturn := Match({Return});
      if isReturn {
        var e := Expression();
        if !e.Parsed? {
          return Abandon(e);
        }
        return Parsed(A.ReturnExpression(e.value));
      }
      var isDebug := Match({Debug});
      if isDebug {
        var e := Expression();
        if !e.Parsed? {
          return Abandon(e);
        }
        return Parsed(A.DebugExpression(e.value));
      }
      r := Attribution();
    }

    method Attribution() returns (r: Outcome<A.Expr>)
      requires Valid()
      modifies this
      decreases |tokens| - current, 18
      ensures Valid() && Step(r, St()) == ParserSpec.Attribution(tokens, old(St()))
    {
      var target := Range();
      if !target.Parsed? {
        return Abandon(target);
      }
      var assigns := Match(ASSIGNMENT_OPERATORS);
      if !assigns {
        return target;
      }
      var operator := Previous();
      var value := Attribution();
      if !value.Parsed? {
        return Abandon(value);
      }
      return Parsed(A.BinaryExpression(target.value, operator, value.value));
    }

    method Range() returns (r: Outcome<A.Expr>)
      requires Valid()
      modifies this
      decreases |tokens| - current, 17
      ensures Valid() && Step(r, St()) == ParserSpec.Range(tokens, old(St()))
    {
      var start := Binary(LogicOr);
      if !start.Parsed? {
        return Abandon(start);
      }
      var dots := Match({DotDot});
      if !dots {
        return start;
      }
      var end := Binary(LogicOr);
      if !end.Parsed? {
        return Abandon(end);
      }
      return Parsed(A.RangeExpression(start.value, end.value));
    }

    method Operand(level: Level) returns (r: Outcome<A.Expr>)
      requires Valid()
      modifies this
      decreases |tokens| - current, Rank(level) - 1
      ensures Valid() && Step(r, St()) == ParserSpec.Operand(tokens, old(St()), level)
    {
      if level == Factor {
        r := Exponent();
      } else {
        r := Binary(Tighter(level));
      }
    }

    method Binary(level: Level) returns (r: Outcome<A.Expr>)
      requires Valid()
      modifies this
      decreases |tokens| - current, Rank(level)
      ensures Valid() && Step(r, St()) == ParserSpec.Binary(tokens, old(St()), level)
    {
      r := Operand(level);
      if !r.Parsed? {
        return;
      }
      var left := r.value;
      while true
        invariant Valid()
        invariant BinaryTail(tokens, St(), level, left) == ParserSpec.Binary(tokens, old(St()), level)
        decreases |tokens| - current
      {
        var done, next := BinaryStep(level, left);
        if done {
          return next;
        }
        left := next.value;
      }
    }

    /** One round of a binary level's loop: either the result of the level, or the operator
        and operand that make `left` the left operand of a new node. */
    method BinaryStep(level: Level, left: A.Expr) returns (done: bool, r: Outcome<A.Expr>)
      requires Valid()
      modifies this
      decreases |tokens| - current, 0
      ensures Valid() && old(current) <= current
      ensures !done ==> r.Parsed? && old(current) < current
      ensures done ==> Step(r, St()) == BinaryTail(tokens, old(St()), level, left)
      ensures !done ==> BinaryTail(tokens, St(), level, r.value) == BinaryTail(tokens, old(St()), level, left)
    {
      var more := Match(Operators(level));
      if !more {
        return true, Parsed(left);
      }
      var operator := Previous();
      var right := Operand(level);
      if !right.Parsed? {
        return true, Abandon(right);
      }
      return false, Parsed(A.BinaryExpression(left, operator, right.value));
    }

    method Exponent() returns (r: Outcome<A.Expr>)
      requires Valid()
      modifies this
      decreases |tokens| - current, 4
      ensures Valid() && Step(r, St()) == ParserSpec.Exponent(tokens, old(St()))
    {
      var left := Unary();
      if !left.Parsed? {
        return Abandon(left);
      }
      var hat := Match({Hat});
      if !hat {
        return left;
      }
      var operator := Previous();
      var right := Exponent();
      if !right.Parsed? {
        return Abandon(right);
      }
      return Parsed(A.BinaryExpression(left.value, operator, right.value));
    }

    method Unary() returns (r: Outcome<A.Expr>)
      requires Valid()
      modifies this
      decreases |tokens| - current, 3
      ensures Valid() && Step(r, St()) == ParserSpec.Unary(tokens, old(St()))
    {
      var prefixed := Match(PREFIX_OPERATORS);
      if prefixed {
        var operator := Previous();
        var operand := Unary();
        if !operand.Parsed? {
          return Abandon(operand);
        }
        return Parsed(A.UnaryExpression(operator, operand.value));
      }
      r := Call();
    }

    method Call() returns (r: Outcome<A.Expr>)
      requires Valid()
      modifies this
      decreases |tokens| - current, 2
      ensures Valid() && Step(r, St()) == ParserSpec.Call(tokens, old(St()))
    {
      r := Primary();
      if !r.Parsed? {
        return;
      }
      var e := r.value;
      while true
        invariant Valid()
        invariant CallTail(tokens, St(), e) == ParserSpec.Call(tokens, old(St()))
        decreases |tokens| - current
      {
        var done, next := CallStep(e);
        if done {
          return next;
        }
        e := next.value;
      }
    }

    /** One round of `call`'s loop: either the result of `call`, or `e` wrapped in one more
        suffix. */
    method CallStep(e: A.Expr) returns (done: bool, r: Outcome<A.Expr>)
      requires Valid()
      modifies this
      decreases |tokens| - current, 0
      ensures Valid() && old(current) <= current
      ensures !done ==> r.Parsed? && old(current) < current
      ensures done ==> Step(r, St()) == CallTail(tokens, old(St()), e)
      ensures !done ==> CallTail(tokens, St(), r.value) == CallTail(tokens, old(St()), e)
    {
      var more := Match(POSTFIX_OPENERS);
      if !more {
        return true, Parsed(e);
      }
      var suffix := Suffix(Previous());
      if !suffix.Parsed? {
        return true, Abandon(suffix);
      }
      return false, Parsed(Apply(e, suffix.value));
    }

    method Suffix(opener: Token) returns (r: Outcome<Postfix>)
      requires Valid() && opener.kind in POSTFIX_OPENERS
      modifies this
      decreases |tokens| - current, 25
      ensures Valid() && Step(r, St()) == ParserSpec.Suffix(tokens, old(St()), opener)
    {
      if opener.kind in {LBracket} {
        var place := Expression();
        if !place.Parsed? {
          return Abandon(place);
        }
        var closeOk, close := Consume(RBracket, MsgIndexClose);
        if !closeOk {
          return Failed;
        }
        return Parsed(Index(place.value));
      } else if opener.kind in {LParen} {
        var args := ArgList();
        if !args.Parsed? {
          return Abandon(args);
        }
        var closeOk, close := Consume(RParen, MsgParenClose);
        if !closeOk {
          return Failed;
        }
        return Parsed(Arguments(args.value));
      }
      var nameOk, name := Consume(Identifier, MsgAccessName);
      if !nameOk {
        return Failed;
      }
      return Parsed(Field(name));
    }

    method Primary() returns (r: Outcome<A.Expr>)
      requires Valid()
      modifies this
      decreases |tokens| - current, 1
      ensures Valid() && Step(r, St()) == ParserSpec.Primary(tokens, old(St()))
    {
      var isLiteral := Match(LITERALS);
      if isLiteral {
        return Parsed(A.Literal(Previous()));
      }
      var isName := Match({Identifier});
      if isName {
        return Parsed(A.VariableExpression(Previous()));
      }
      var isList := Match({LBracket});
      if isList {
        var items := ListItems();
        if !items.Parsed? {
          return Abandon(items);
        }
        var closeOk, close := Consume(RBracket, MsgListClose);
        if !closeOk {
          return Failed;
        }
        return Parsed(A.ListExpression(items.value));
      }
      var isGroup := Match({LParen});
      if isGroup {
        var e := Expression();
        if !e.Parsed? {
          return e;
        }
        var closeOk, close := Consume(RParen, MsgParenClose);
        if !closeOk {
          return Failed;
        }
        return e;
      }
      RecordError(MsgExpressionExpected + Peek().lexeme);
      return Failed;
    }

    method ArgList() returns (r: Outcome<seq<A.Argument>>)
      requires Valid()
      modifies this
      decreases |tokens| - current, 24
      ensures Valid() && Step(r, St()) == ParserSpec.ArgList(tokens, old(St()))
    {
      if Peek().kind in {RParen} {
        return Parsed([]);
      }
      var args: seq<A.Argument> := [];
      while true
        invariant Valid() && ArgumentList(tokens, St(), args) == ParserSpec.ArgList(tokens, old(St()))
        decreases |tokens| - current
      {
        var arg := Argument();
        if !arg.Parsed? {
          return Abandon(arg);
        }
        args := args + [arg.value];
        var more := Match({Comma});
        if !more {
          return Parsed(args);
        }
      }
    }

    method Argument() returns (r: Outcome<A.Argument>)
      requires Valid()
      modifies this
      decreases |tokens| - current, 22
      ensures Valid() && Step(r, St()) == ParserSpec.Argument(tokens, old(St()))
    {
      if Peek().kind in {Identifier} && PeekNext().kind in {Colon} {
        var argLabelOk, argLabel := Consume(Identifier, MsgLabelName);
        var colonOk, colon := Consume(Colon, MsgLabelColon);
        var e := Expression();
        if !e.Parsed? {
          return Abandon(e);
        }
        return Parsed(A.Argument(Some(argLabel), e.value));
      }
      var e := Expression();
      if !e.Parsed? {
        return Abandon(e);
      }
      return Parsed(A.Argument(None, e.value));
    }

    method ListItems() returns (r: Outcome<seq<A.Expr>>)
      requires Valid()
      modifies this
      decreases |tokens| - current, 23
      ensures Valid() && Step(r, St()) == ParserSpec.ListItems(tokens, old(St()))
    {
      if Peek().kind in {RBracket} {
        return Parsed([]);
      }
      var items: seq<A.Expr> := [];
      while true
        invariant Valid() && ItemList(tokens, St(), items) == ParserSpec.ListItems(tokens, old(St()))
        decreases |tokens| - current
      {
        var item := Expression();
        if !item.Parsed? {
          return Abandon(item);
        }
        items := items + [item.value];
        var more := Match({Comma});
        if !more {
          return Parsed(items);
        }
      }
    }

    // ---- the whole program ----

    static method Parse(tokens: seq<Token>) returns (outcome: ParseOutcome, ghost recorded: seq<CompilerError>)
      requires EndsAtEof(tokens)
      ensures outcome == ParserSpec.Parse(tokens).outcome
      ensures Parsing(outcome, recorded) == ParserSpec.Parse(tokens)
    {
      var parser := new Parser(tokens);
      var functions: seq<A.Function> := [];
      var records: seq<A.Rec> := [];
      while !parser.AtEof()
        invariant parser.Valid() && parser.tokens == tokens
        invariant ParseItems(tokens, parser.St(), functions, records) == ParserSpec.Parse(tokens)
        decreases |tokens| - parser.current
      {
        var isRec := parser.Match({Tokens.Rec});
        if isRec {
          var rec := parser.Rec();
          if rec.Parsed? {
            records := records + [rec.value];
          } else {
            parser.RecoverFunction();
          }
        } else {
          var func := parser.Function();
          if func.Parsed? {
            functions := functions + [func.value];
          } else if func.Diverged? {
            return Hang, parser.errors;
          } else {
            parser.RecoverFunction();
          }
        }
      }
      recorded := parser.errors;
      if parser.errors != [] {
        return Done(Error(parser.errors)), recorded;
      }
      return Done(Success(A.Program(functions, records))), recorded;
    }
  }
}
