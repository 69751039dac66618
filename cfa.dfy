/** Control-flow analysis (popsi.analysis.Cfa): does every path through a function body end
    in a `return` (or a tail expression) of the expected type? */
module Cfa {
  import opened Wrappers
  import opened TypedAst
  import Types

  /** The three-valued verdict. */
  datatype CfaResult = ReturnedType | ReturnedOther | Continue

  /** The verdict of the first child that does not continue, else Continue: the source's
      early-exit searches over a node's children, left to right. */
  function FirstNonContinue(vs: seq<CfaResult>): CfaResult
  {
    if |vs| == 0 then Continue
    else if vs[0] != Continue then vs[0]
    else FirstNonContinue(vs[1..])
  }

  /** The verdict for one expression. */
  function VisitExpr(e: TypedExpr, expected: Type, table: SymbolTable): CfaResult
    decreases e
  {
    match e
    case Literal(_, _) => Continue
    case VariableExpression(_, _) => Continue
    case ListExpression(_, elements, _) =>
      FirstNonContinue(ExprVerdicts(elements, expected, table))
    case BinaryExpression(left, _, right, _) =>
      FirstNonContinue([VisitExpr(left, expected, table), VisitExpr(right, expected, table)])
    case UnaryExpression(_, operand, _) => VisitExpr(operand, expected, table)
    case FunctionCall(_, arguments, _) =>
      FirstNonContinue(ArgumentVerdicts(arguments, expected, table))
    case ArgumentExpression(argument) => VisitArgument(argument, expected, table)
    case ListAccess(target, place, _) =>
      FirstNonContinue([VisitExpr(target, expected, table), VisitExpr(place, expected, table)])
    case RecAccess(target, _, _) => FirstNonContinue([VisitExpr(target, expected, table)])
    case ForExpression(_, _, range, body, _) =>
      FirstNonContinue([VisitExpr(range, expected, table), VisitBlock(body, expected, table)])
    case IfExpression(_, thenBranch, elseBranch, _) =>
      var thenVerdict := VisitBlock(thenBranch, expected, table);
      if elseBranch.Some? then
        var elseVerdict := VisitBlock(elseBranch.value, expected, table);
        if thenVerdict == Continue || elseVerdict == Continue then Continue
        else if thenVerdict == ReturnedType && elseVerdict == ReturnedType then ReturnedType
        else ReturnedOther
      else thenVerdict
    case WhileExpression(condition, body, _) =>
      FirstNonContinue([VisitExpr(condition, expected, table), VisitBlock(body, expected, table)])
    case ReturnExpression(value, typeId) =>
      if VisitExpr(value, expected, table) == ReturnedType then ReturnedType
      else if table.typeDefinition(typeId) == expected then ReturnedType
      else ReturnedOther
    case DebugExpression(_, _) => Continue
    case BlockExpression(block) => VisitBlock(block, expected, table)
  }

  /** The verdicts of a node's children, in order. */
  function ExprVerdicts(es: seq<TypedExpr>, expected: Type, table: SymbolTable): seq<CfaResult>
    decreases es
  {
    seq(|es|, i requires 0 <= i < |es| => VisitExpr(es[i], expected, table))
  }

  /** A call's arguments are visited through their values. */
  function ArgumentVerdicts(args: seq<Argument>, expected: Type, table: SymbolTable): seq<CfaResult>
    decreases args
  {
    seq(|args|, i requires 0 <= i < |args| => VisitArgument(args[i], expected, table))
  }

  function VisitArgument(a: Argument, expected: Type, table: SymbolTable): CfaResult
    decreases a
  {
    VisitExpr(a.value, expected, table)
  }

  function StmtVerdicts(stmts: seq<TypedStmt>, expected: Type, table: SymbolTable): seq<CfaResult>
    decreases stmts
  {
    seq(|stmts|, i requires 0 <= i < |stmts| => VisitStmt(stmts[i], expected, table))
  }

  /** The static type the table gives a statement. */
  function StatementType(s: TypedStmt, table: SymbolTable): Type
  {
    match s
    case Declaration(_, _, _, local) => table.typeDefinition(table.localType(local))
    case ExpressionStatement(_, typeId) => table.typeDefinition(typeId)
  }

  /** A block: the first statement that does not continue decides; otherwise the tail
      decides, by its own verdict or else by its type. */
  function VisitBlock(b: Block, expected: Type, table: SymbolTable): CfaResult
    decreases b
  {
    var first := FirstNonContinue(StmtVerdicts(b.statements, expected, table));
    if first != Continue then first
    else if b.lastStatement.Some? then
      var tail := VisitStmt(b.lastStatement.value, expected, table);
      if tail != Continue then tail
      else if StatementType(b.lastStatement.value, table) == expected then ReturnedType
      else ReturnedOther
    else Continue
  }

  /** A statement: a declaration passes its initialiser's verdict on; an expression
      statement keeps only ReturnedType. */
  function VisitStmt(s: TypedStmt, expected: Type, table: SymbolTable): CfaResult
    decreases s
  {
    match s
    case Declaration(_, _, value, _) =>
      if value.Some? then VisitExpr(value.value, expected, table) else Continue
    case ExpressionStatement(expression, _) =>
      if VisitExpr(expression, expected, table) == ReturnedType then ReturnedType else Continue
  }

  /** The entry point, run on a function body. */
  function EnsureAllPathsReturnType(body: Block, expected: Type, table: SymbolTable): CfaResult
  {
    VisitExpr(BlockExpression(body), expected, table)
  }

  // ---------------------------------------------------------------------------
  // The early-exit search

  /** FirstNonContinue gives Continue iff every verdict continues, and otherwise the
      verdict at the first index that does not. */
  lemma {:induction false} FirstNonContinueIsFirst(vs: seq<CfaResult>)
    ensures FirstNonContinue(vs) == Continue <==> forall i :: 0 <= i < |vs| ==> vs[i] == Continue
    ensures FirstNonContinue(vs) != Continue ==>
      exists k :: 0 <= k < |vs| && vs[k] == FirstNonContinue(vs) && forall j :: 0 <= j < k ==> vs[j] == Continue
  {
    if |vs| > 0 && vs[0] == Continue {
      FirstNonContinueIsFirst(vs[1..]);
      if FirstNonContinue(vs) != Continue {
        var k :| 0 <= k < |vs[1..]| && vs[1..][k] == FirstNonContinue(vs[1..])
          && forall j :: 0 <= j < k ==> vs[1..][j] == Continue;
        assert vs[k + 1] == FirstNonContinue(vs);
        forall j | 0 <= j < k + 1 ensures vs[j] == Continue {
          if j > 0 { assert vs[j] == vs[1..][j - 1]; }
        }
      }
      forall i | 0 <= i < |vs| && FirstNonContinue(vs) == Continue ensures vs[i] == Continue {
        if i > 0 { assert vs[i] == vs[1..][i - 1]; }
      }
    }
  }

  /** Searching a sequence that is all Continue except possibly its first entry. */
  lemma FirstOfPair(a: CfaResult, b: CfaResult)
    ensures FirstNonContinue([a, b]) == if a != Continue then a else b
  {
    assert [a, b][1..] == [b];
    assert [b][1..] == [];
    assert FirstNonContinue([b]) == b;
  }

  /** A single child yields its own verdict. */
  lemma FirstOfSingle(a: CfaResult)
    ensures FirstNonContinue([a]) == a
  {
    assert [a][1..] == [];
  }

  // ---------------------------------------------------------------------------
  // Verdicts of the expression forms

  /** Leaves and debug nodes continue; a debug node's operand is never looked at. */
  lemma LeavesContinue(t: Token, ty: Type, v: TypedExpr, expected: Type, table: SymbolTable)
    ensures VisitExpr(Literal(t, ty), expected, table) == Continue
    ensures VisitExpr(VariableExpression(t, ty), expected, table) == Continue
    ensures VisitExpr(DebugExpression(v, ty), expected, table) == Continue
  {
  }

  /** A binary node yields its first non-continuing operand verdict, left first. */
  lemma BinaryVerdict(l: TypedExpr, op: Token, r: TypedExpr, ty: Type, expected: Type, table: SymbolTable)
    ensures var vl := VisitExpr(l, expected, table);
      VisitExpr(BinaryExpression(l, op, r, ty), expected, table)
        == if vl != Continue then vl else VisitExpr(r, expected, table)
  {
    FirstOfPair(VisitExpr(l, expected, table), VisitExpr(r, expected, table));
  }

  /** A list access yields the target's verdict unless it continues, and then the index's. */
  lemma ListAccessVerdict(target: TypedExpr, place: TypedExpr, ty: Type, expected: Type, table: SymbolTable)
    ensures var vt := VisitExpr(target, expected, table);
      VisitExpr(ListAccess(target, place, ty), expected, table)
        == if vt != Continue then vt else VisitExpr(place, expected, table)
  {
    FirstOfPair(VisitExpr(target, expected, table), VisitExpr(place, expected, table));
  }

  /** A `for` yields the range's verdict unless it continues, and then the body's. */
  lemma ForVerdict(variable: Token, varType: Ast.TypeAst, range: TypedExpr, body: Block, ty: Type, expected: Type, table: SymbolTable)
    ensures var vr := VisitExpr(range, expected, table);
      VisitExpr(ForExpression(variable, varType, range, body, ty), expected, table)
        == if vr != Continue then vr else VisitBlock(body, expected, table)
  {
    FirstOfPair(VisitExpr(range, expected, table), VisitBlock(body, expected, table));
  }

  /** A `while` yields the condition's verdict unless it continues, and then the body's. */
  lemma WhileVerdict(c: TypedExpr, body: Block, ty: Type, expected: Type, table: SymbolTable)
    ensures var vc := VisitExpr(c, expected, table);
      VisitExpr(WhileExpression(c, body, ty), expected, table)
        == if vc != Continue then vc else VisitBlock(body, expected, table)
  {
    FirstOfPair(VisitExpr(c, expected, table), VisitBlock(body, expected, table));
  }

  /** A list yields Continue iff every element continues, else the verdict of the first
      element that does not. */
  lemma ListVerdict(pos: FilePosition.Position, es: seq<TypedExpr>, ty: Type, expected: Type, table: SymbolTable)
    ensures var r := VisitExpr(ListExpression(pos, es, ty), expected, table);
      && (r == Continue <==> forall i :: 0 <= i < |es| ==> VisitExpr(es[i], expected, table) == Continue)
      && (r != Continue ==>
            exists k :: 0 <= k < |es| && VisitExpr(es[k], expected, table) == r
              && forall j :: 0 <= j < k ==> VisitExpr(es[j], expected, table) == Continue)
  {
    var vs := ExprVerdicts(es, expected, table);
    FirstNonContinueIsFirst(vs);
    assert VisitExpr(ListExpression(pos, es, ty), expected, table) == FirstNonContinue(vs);
    assert forall j :: 0 <= j < |vs| ==> VisitExpr(es[j], expected, table) == vs[j];
    if FirstNonContinue(vs) != Continue {
      var k :| 0 <= k < |vs| && vs[k] == FirstNonContinue(vs) && forall j :: 0 <= j < k ==> vs[j] == Continue;
      assert VisitExpr(es[k], expected, table) == vs[k];
      assert forall j :: 0 <= j < k ==> VisitExpr(es[j], expected, table) == vs[j];
    }
  }

  /** A call looks only at its arguments, never at its target. */
  lemma CallIgnoresTarget(t1: TypedExpr, t2: TypedExpr, args: seq<Argument>, ty: Type, expected: Type, table: SymbolTable)
    ensures VisitExpr(FunctionCall(t1, args, ty), expected, table) == VisitExpr(FunctionCall(t2, args, ty), expected, table)
  {
  }

  /** `if` with `else`: Continue if either arm continues, ReturnedType iff both arms return
      the expected type, ReturnedOther otherwise; the condition is never looked at. */
  lemma IfElseVerdict(c1: TypedExpr, c2: TypedExpr, t: Block, e: Block, ty: Type, expected: Type, table: SymbolTable)
    ensures var r := VisitExpr(IfExpression(c1, t, Some(e), ty), expected, table);
      var vt := VisitBlock(t, expected, table);
      var ve := VisitBlock(e, expected, table);
      && r == VisitExpr(IfExpression(c2, t, Some(e), ty), expected, table)
      && (r == Continue <==> vt == Continue || ve == Continue)
      && (r == ReturnedType <==> vt == ReturnedType && ve == ReturnedType)
      && (r == ReturnedOther <==> vt != Continue && ve != Continue && (vt == ReturnedOther || ve == ReturnedOther))
  {
  }

  /** `if` without `else` is exactly its then-arm. */
  lemma IfWithoutElseVerdict(c: TypedExpr, t: Block, ty: Type, expected: Type, table: SymbolTable)
    ensures VisitExpr(IfExpression(c, t, None, ty), expected, table) == VisitBlock(t, expected, table)
  {
  }

  /** A return yields ReturnedType iff its operand does or its type is the expected one;
      it never continues. */
  lemma ReturnVerdict(v: TypedExpr, h: TypeId, expected: Type, table: SymbolTable)
    ensures var r := VisitExpr(ReturnExpression(v, h), expected, table);
      && r != Continue
      && (r == ReturnedType <==> VisitExpr(v, expected, table) == ReturnedType || table.typeDefinition(h) == expected)
  {
  }

  /** An expression statement never yields ReturnedOther; a declaration passes its
      initialiser's verdict on. */
  lemma StatementVerdicts(s: TypedStmt, expected: Type, table: SymbolTable)
    ensures s.ExpressionStatement? ==> VisitStmt(s, expected, table) != ReturnedOther
    ensures s.ExpressionStatement? ==>
      (VisitStmt(s, expected, table) == ReturnedType <==> VisitExpr(s.expression, expected, table) == ReturnedType)
    ensures s.Declaration? ==>
      VisitStmt(s, expected, table) == (if s.value.Some? then VisitExpr(s.value.value, expected, table) else Continue)
  {
  }

  /** A block: the first non-continuing statement decides; otherwise a tail decides by its
      verdict or by its type, so a block with a tail never continues; without a tail the
      block continues iff every statement does. */
  lemma BlockVerdict(b: Block, expected: Type, table: SymbolTable)
    ensures b.lastStatement.Some? ==> VisitBlock(b, expected, table) != Continue
    ensures b.lastStatement.None? ==>
      (VisitBlock(b, expected, table) == Continue <==>
       forall i :: 0 <= i < |b.statements| ==> VisitStmt(b.statements[i], expected, table) == Continue)
    ensures ((forall i :: 0 <= i < |b.statements| ==> VisitStmt(b.statements[i], expected, table) == Continue)
             && b.lastStatement.Some?) ==>
      VisitBlock(b, expected, table) ==
        var tail := VisitStmt(b.lastStatement.value, expected, table);
        if tail != Continue then tail
        else if StatementType(b.lastStatement.value, table) == expected then ReturnedType
        else ReturnedOther
    ensures !(forall i :: 0 <= i < |b.statements| ==> VisitStmt(b.statements[i], expected, table) == Continue) ==>
      exists k :: 0 <= k < |b.statements| && VisitStmt(b.statements[k], expected, table) == VisitBlock(b, expected, table)
        && forall j :: 0 <= j < k ==> VisitStmt(b.statements[j], expected, table) == Continue
  {
    var vs := StmtVerdicts(b.statements, expected, table);
    FirstNonContinueIsFirst(vs);
    assert forall j :: 0 <= j < |vs| ==> VisitStmt(b.statements[j], expected, table) == vs[j];
    if FirstNonContinue(vs) != Continue {
      var k :| 0 <= k < |vs| && vs[k] == FirstNonContinue(vs) && forall j :: 0 <= j < k ==> vs[j] == Continue;
      assert VisitStmt(b.statements[k], expected, table) == vs[k];
    }
  }

  /** The function-body check: a body with a tail never continues. */
  lemma BodyWithTailDecides(body: Block, expected: Type, table: SymbolTable)
    requires body.lastStatement.Some?
    ensures EnsureAllPathsReturnType(body, expected, table) != Continue
  {
    BlockVerdict(body, expected, table);
  }

  /** The documented weakness of `if` without `else`: a body whose only statement is
      `if c { return v; };` is accepted as always returning, although it falls through
      when `c` is false. */
  lemma IfWithoutElseIsAccepted(c: TypedExpr, v: TypedExpr, h: TypeId, h1: TypeId, h2: TypeId, ty: Type,
                                expected: Type, table: SymbolTable)
    requires table.typeDefinition(h) == expected
    ensures var thenArm := Block([ExpressionStatement(ReturnExpression(v, h), h1)], None, ty);
      var body := Block([ExpressionStatement(IfExpression(c, thenArm, None, ty), h2)], None, ty);
      EnsureAllPathsReturnType(body, expected, table) == ReturnedType
  {
    var ret := ReturnExpression(v, h);
    var thenArm := Block([ExpressionStatement(ret, h1)], None, ty);
    var ifExpr := IfExpression(c, thenArm, None, ty);
    assert VisitStmt(ExpressionStatement(ret, h1), expected, table) == ReturnedType;
    assert StmtVerdicts(thenArm.statements, expected, table) == [ReturnedType];
    FirstOfSingle(ReturnedType);
    assert VisitExpr(ifExpr, expected, table) == ReturnedType;
    var body := Block([ExpressionStatement(ifExpr, h2)], None, ty);
    assert StmtVerdicts(body.statements, expected, table) == [ReturnedType];
    assert VisitBlock(body, expected, table) == ReturnedType;
    assert VisitExpr(BlockExpression(body), expected, table) == ReturnedType;
  }

  // ---------------------------------------------------------------------------
  // The analysis reads nothing but the tree, the expected type and the table entries the
  // tree mentions.

  function TypeIdsOfExpr(e: TypedExpr): set<TypeId>
    decreases e
  {
    match e
    case Literal(_, _) => {}
    case VariableExpression(_, _) => {}
    case ListExpression(_, elements, _) =>
      set i, h | 0 <= i < |elements| && h in TypeIdsOfExpr(elements[i]) :: h
    case BinaryExpression(left, _, right, _) => TypeIdsOfExpr(left) + TypeIdsOfExpr(right)
    case UnaryExpression(_, operand, _) => TypeIdsOfExpr(operand)
    case FunctionCall(target, arguments, _) =>
      TypeIdsOfExpr(target) + set i, h | 0 <= i < |arguments| && h in TypeIdsOfExpr(arguments[i].value) :: h
    case ArgumentExpression(argument) => TypeIdsOfExpr(argument.value)
    case ListAccess(target, place, _) => TypeIdsOfExpr(target) + TypeIdsOfExpr(place)
    case RecAccess(target, _, _) => TypeIdsOfExpr(target)
    case ForExpression(_, _, range, body, _) => TypeIdsOfExpr(range) + TypeIdsOfBlock(body)
    case IfExpression(condition, thenBranch, elseBranch, _) =>
      TypeIdsOfExpr(condition) + TypeIdsOfBlock(thenBranch)
        + (if elseBranch.Some? then TypeIdsOfBlock(elseBranch.value) else {})
    case WhileExpression(condition, body, _) => TypeIdsOfExpr(condition) + TypeIdsOfBlock(body)
    case ReturnExpression(value, typeId) => TypeIdsOfExpr(value) + {typeId}
    case DebugExpression(value, _) => TypeIdsOfExpr(value)
    case BlockExpression(block) => TypeIdsOfBlock(block)
  }

  function TypeIdsOfBlock(b: Block): set<TypeId>
    decreases b
  {
    (set i, h | 0 <= i < |b.statements| && h in TypeIdsOfStmt(b.statements[i]) :: h)
      + (if b.lastStatement.Some? then TypeIdsOfStmt(b.lastStatement.value) else {})
  }

  function TypeIdsOfStmt(s: TypedStmt): set<TypeId>
    decreases s
  {
    match s
    case Declaration(_, _, value, _) => if value.Some? then TypeIdsOfExpr(value.value) else {}
    case ExpressionStatement(expression, typeId) => TypeIdsOfExpr(expression) + {typeId}
  }

  function LocalsOfExpr(e: TypedExpr): set<LocalId>
    decreases e
  {
    match e
    case Literal(_, _) => {}
    case VariableExpression(_, _) => {}
    case ListExpression(_, elements, _) =>
      set i, l | 0 <= i < |elements| && l in LocalsOfExpr(elements[i]) :: l
    case BinaryExpression(left, _, right, _) => LocalsOfExpr(left) + LocalsOfExpr(right)
    case UnaryExpression(_, operand, _) => LocalsOfExpr(operand)
    case FunctionCall(target, arguments, _) =>
      LocalsOfExpr(target) + set i, l | 0 <= i < |arguments| && l in LocalsOfExpr(arguments[i].value) :: l
    case ArgumentExpression(argument) => LocalsOfExpr(argument.value)
    case ListAccess(target, place, _) => LocalsOfExpr(target) + LocalsOfExpr(place)
    case RecAccess(target, _, _) => LocalsOfExpr(target)
    case ForExpression(_, _, range, body, _) => LocalsOfExpr(range) + LocalsOfBlock(body)
    case IfExpression(condition, thenBranch, elseBranch, _) =>
      LocalsOfExpr(condition) + LocalsOfBlock(thenBranch)
        + (if elseBranch.Some? then LocalsOfBlock(elseBranch.value) else {})
    case WhileExpression(condition, body, _) => LocalsOfExpr(condition) + LocalsOfBlock(body)
    case ReturnExpression(value, _) => LocalsOfExpr(value)
    case DebugExpression(value, _) => LocalsOfExpr(value)
    case BlockExpression(block) => LocalsOfBlock(block)
  }

  function LocalsOfBlock(b: Block): set<LocalId>
    decreases b
  {
    (set i, l | 0 <= i < |b.statements| && l in LocalsOfStmt(b.statements[i]) :: l)
      + (if b.lastStatement.Some? then LocalsOfStmt(b.lastStatement.value) else {})
  }

  function LocalsOfStmt(s: TypedStmt): set<LocalId>
    decreases s
  {
    match s
    case Declaration(_, _, value, local) => (if value.Some? then LocalsOfExpr(value.value) else {}) + {local}
    case ExpressionStatement(expression, _) => LocalsOfExpr(expression)
  }

  /** Two tables agree on the given handles: the same type for each type handle, and for
      each local the same resolved type. */
  ghost predicate Agree(t1: SymbolTable, t2: SymbolTable, types: set<TypeId>, locals: set<LocalId>)
  {
    && (forall h :: h in types ==> t1.typeDefinition(h) == t2.typeDefinition(h))
    && (forall l :: l in locals ==> t1.typeDefinition(t1.localType(l)) == t2.typeDefinition(t2.localType(l)))
  }

  lemma {:induction false} ExprDependsOnMentionedEntries(e: TypedExpr, expected: Type, t1: SymbolTable, t2: SymbolTable)
    requires Agree(t1, t2, TypeIdsOfExpr(e), LocalsOfExpr(e))
    ensures VisitExpr(e, expected, t1) == VisitExpr(e, expected, t2)
    decreases e, 1
  {
    match e
    case Literal(_, _) =>
    case VariableExpression(_, _) =>
    case ListExpression(_, _, _) =>
      ListsDependOnMentionedEntries(e, expected, t1, t2);
    case FunctionCall(_, _, _) =>
      ListsDependOnMentionedEntries(e, expected, t1, t2);
    case ForExpression(_, _, _, _, _) =>
      ControlDependsOnMentionedEntries(e, expected, t1, t2);
    case WhileExpression(_, _, _) =>
      ControlDependsOnMentionedEntries(e, expected, t1, t2);
    case BinaryExpression(left, _, right, _) =>
      ExprDependsOnMentionedEntries(left, expected, t1, t2);
      ExprDependsOnMentionedEntries(right, expected, t1, t2);
    case UnaryExpression(_, operand, _) =>
      ExprDependsOnMentionedEntries(operand, expected, t1, t2);
    case ArgumentExpression(argument) =>
      ExprDependsOnMentionedEntries(argument.value, expected, t1, t2);
    case ListAccess(target, place, _) =>
      ExprDependsOnMentionedEntries(target, expected, t1, t2);
      ExprDependsOnMentionedEntries(place, expected, t1, t2);
    case RecAccess(target, _, _) =>
      ExprDependsOnMentionedEntries(target, expected, t1, t2);
    case IfExpression(_, _, _, _) =>
      ControlDependsOnMentionedEntries(e, expected, t1, t2);
    case ReturnExpression(value, _) =>
      ExprDependsOnMentionedEntries(value, expected, t1, t2);
    case DebugExpression(_, _) =>
    case BlockExpression(_) =>
      ControlDependsOnMentionedEntries(e, expected, t1, t2);
  }

  /** The list and call cases of ExprDependsOnMentionedEntries. */
  lemma {:induction false} ListsDependOnMentionedEntries(e: TypedExpr, expected: Type, t1: SymbolTable, t2: SymbolTable)
    requires e.ListExpression? || e.FunctionCall?
    requires Agree(t1, t2, TypeIdsOfExpr(e), LocalsOfExpr(e))
    ensures VisitExpr(e, expected, t1) == VisitExpr(e, expected, t2)
    decreases e, 0
  {
    match e
    case ListExpression(_, elements, _) =>
      forall i | 0 <= i < |elements|
        ensures VisitExpr(elements[i], expected, t1) == VisitExpr(elements[i], expected, t2)
      {
        ExprDependsOnMentionedEntries(elements[i], expected, t1, t2);
      }
      assert ExprVerdicts(elements, expected, t1) == ExprVerdicts(elements, expected, t2);
    case FunctionCall(_, arguments, _) =>
      forall i | 0 <= i < |arguments|
        ensures VisitExpr(arguments[i].value, expected, t1) == VisitExpr(arguments[i].value, expected, t2)
      {
        ExprDependsOnMentionedEntries(arguments[i].value, expected, t1, t2);
      }
      assert ArgumentVerdicts(arguments, expected, t1) == ArgumentVerdicts(arguments, expected, t2);
  }

  /** The cases of ExprDependsOnMentionedEntries that hold blocks. */
  lemma {:induction false} ControlDependsOnMentionedEntries(e: TypedExpr, expected: Type, t1: SymbolTable, t2: SymbolTable)
    requires e.ForExpression? || e.WhileExpression? || e.IfExpression? || e.BlockExpression?
    requires Agree(t1, t2, TypeIdsOfExpr(e), LocalsOfExpr(e))
    ensures VisitExpr(e, expected, t1) == VisitExpr(e, expected, t2)
    decreases e, 0
  {
    match e
    case ForExpression(_, _, range, body, _) =>
      ExprDependsOnMentionedEntries(range, expected, t1, t2);
      BlockDependsOnMentionedEntries(body, expected, t1, t2);
    case WhileExpression(condition, body, _) =>
      ExprDependsOnMentionedEntries(condition, expected, t1, t2);
      BlockDependsOnMentionedEntries(body, expected, t1, t2);
    case IfExpression(_, thenBranch, elseBranch, _) =>
      BlockDependsOnMentionedEntries(thenBranch, expected, t1, t2);
      if elseBranch.Some? {
        BlockDependsOnMentionedEntries(elseBranch.value, expected, t1, t2);
      }
    case BlockExpression(block) =>
      BlockDependsOnMentionedEntries(block, expected, t1, t2);
  }

  lemma {:induction false} BlockDependsOnMentionedEntries(b: Block, expected: Type, t1: SymbolTable, t2: SymbolTable)
    requires Agree(t1, t2, TypeIdsOfBlock(b), LocalsOfBlock(b))
    ensures VisitBlock(b, expected, t1) == VisitBlock(b, expected, t2)
    decreases b
  {
    var stmts := b.statements;
    forall i | 0 <= i < |stmts|
      ensures VisitStmt(stmts[i], expected, t1) == VisitStmt(stmts[i], expected, t2)
    {
      StmtDependsOnMentionedEntries(stmts[i], expected, t1, t2);
    }
    assert StmtVerdicts(stmts, expected, t1) == StmtVerdicts(stmts, expected, t2);
    if b.lastStatement.Some? {
      StmtDependsOnMentionedEntries(b.lastStatement.value, expected, t1, t2);
    }
  }

  lemma {:induction false} StmtDependsOnMentionedEntries(s: TypedStmt, expected: Type, t1: SymbolTable, t2: SymbolTable)
    requires Agree(t1, t2, TypeIdsOfStmt(s), LocalsOfStmt(s))
    ensures VisitStmt(s, expected, t1) == VisitStmt(s, expected, t2)
    ensures StatementType(s, t1) == StatementType(s, t2)
    decreases s
  {
    match s
    case Declaration(_, _, value, _) =>
      if value.Some? {
        ExprDependsOnMentionedEntries(value.value, expected, t1, t2);
      }
    case ExpressionStatement(expression, _) =>
      ExprDependsOnMentionedEntries(expression, expected, t1, t2);
  }
}
