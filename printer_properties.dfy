/** What the text `AstPrinter.print` returns looks like: it is always in normal form, and each
    kind of node prints as the S-expression its visit builds, with the parts printed on their
    own and separated by exactly one space.

    The lemmas come in three layers: facts about spacing and collapsing lists of texts, then the
    normal form of one `parens` form over texts whose ends are not blank, then the printed text
    of each kind of node. */
module PrinterProperties {
  import opened Wrappers
  import opened Whitespace
  import opened Printer
  import A = Ast

  // ---------------------------------------------------------------------------------------
  // Spacing

  /** Each text normalized. */
  function Normalized(ws: seq<string>): (ns: seq<string>)
    ensures |ns| == |ws| && forall i | 0 <= i < |ws| :: ns[i] == Normalize(ws[i])
  {
    seq(|ws|, i requires 0 <= i < |ws| => Normalize(ws[i]))
  }

  lemma NormalizedInit(ws: seq<string>)
    requires |ws| > 0
    ensures Normalized(ws) == Normalized(ws[..|ws| - 1]) + [Normalize(ws[|ws| - 1])]
  {
    var n := |ws|;
    forall i | 0 <= i < n
      ensures Normalized(ws)[i] == (Normalized(ws[..n - 1]) + [Normalize(ws[n - 1])])[i]
    {
      if i < n - 1 {
        assert ws[..n - 1][i] == ws[i];
      }
    }
  }

  lemma NormalizedPair(u: string, v: string)
    ensures Normalized([u, v]) == [Normalize(u), Normalize(v)]
  {
    assert Normalized([u, v])[0] == Normalize(u);
    assert Normalized([u, v])[1] == Normalize(v);
  }

  /** Texts passed one by one are stringified like the items of a list. */
  lemma {:induction false} StringifiedTexts(ws: seq<string>)
    ensures Stringified(Texts(ws)) == Spaced(ws)
    decreases |ws|
  {
    if ws != [] {
      var init := ws[..|ws| - 1];
      assert Texts(ws)[..|ws| - 1] == Texts(init);
      StringifiedTexts(init);
    }
  }

  /** `stringify` over two runs of parts is the two runs stringified one after the other. */
  lemma {:induction false} StringifiedAppend(xs: seq<Part>, ys: seq<Part>)
    ensures Stringified(xs + ys) == Stringified(xs) + Stringified(ys)
    decreases |ys|
  {
    if ys == [] {
      assert xs + ys == xs;
    } else {
      var init := ys[..|ys| - 1];
      assert (xs + ys)[..|xs + ys| - 1] == xs + init;
      StringifiedAppend(xs, init);
    }
  }

  lemma SpacedPair(a: string, b: string)
    ensures Spaced([a, b]) == " " + a + " " + b
  {
    assert [a, b][..1] == [a];
    assert [a][..0] == [];
    assert Spaced([a]) == " " + a;
  }

  /** Spaced texts end as the last one does. */
  lemma SpacedEnd(ws: seq<string>)
    requires |ws| > 0 && Solid(ws[|ws| - 1])
    ensures var r := Spaced(ws); |r| > 0 && !Blank(r[|r| - 1]) && !IsSpace(r[|r| - 1])
  {
  }

  /** Spaced texts start with a space. */
  lemma {:induction false} SpacedStart(ws: seq<string>)
    requires |ws| > 0
    ensures |Spaced(ws)| > 0 && Spaced(ws)[0] == ' '
    decreases |ws|
  {
    if |ws| > 1 {
      SpacedStart(ws[..|ws| - 1]);
    }
  }

  // ---------------------------------------------------------------------------------------
  // Collapsing

  lemma Regroup(a: string, b: string, c: string)
    ensures a + b + c == a + (b + c)
  {
  }

  /** One more solid item after a text that does not end in white space. */
  lemma CollapseSpacedStep(s: string, w: string)
    requires (|s| == 0 || !IsSpace(s[|s| - 1])) && Solid(w)
    ensures Collapse(s + " " + w) == Collapse(s) + " " + Normalize(w)
  {
    Regroup(s, " ", w);
    CollapseJoin(s, [' '] + w);
    CollapseCons(' ', w);
    SolidCollapse(w);
  }

  /** The induction step of `CollapseSpaced`. */
  lemma CollapseSpacedLast(ws: seq<string>)
    requires |ws| > 0 && Solid(ws[|ws| - 1])
    requires var init := ws[..|ws| - 1]; |Spaced(init)| == 0 || !IsSpace(Spaced(init)[|Spaced(init)| - 1])
    requires Collapse(Spaced(ws[..|ws| - 1])) == Spaced(Normalized(ws[..|ws| - 1]))
    ensures Collapse(Spaced(ws)) == Spaced(Normalized(ws))
  {
    var init, last := ws[..|ws| - 1], ws[|ws| - 1];
    CollapseSpacedStep(Spaced(init), last);
    NormalizedInit(ws);
    assert (Normalized(init) + [Normalize(last)])[..|ws| - 1] == Normalized(init);
  }

  /** Spaced solid texts collapse item by item. */
  lemma {:induction false} CollapseSpaced(ws: seq<string>)
    requires forall i | 0 <= i < |ws| :: Solid(ws[i])
    ensures Collapse(Spaced(ws)) == Spaced(Normalized(ws))
    decreases |ws|
  {
    if ws != [] {
      var init := ws[..|ws| - 1];
      CollapseSpaced(init);
      if init != [] {
        SpacedEnd(init);
      }
      CollapseSpacedLast(ws);
    }
  }

  /** A text between two code points that are not white space, with a solid head, collapses
      piece by piece. */
  lemma CollapseFramed(open: char, head: string, inner: string, close: char)
    requires !IsSpace(open) && !IsSpace(close) && Solid(head)
    ensures Collapse([open] + head + inner + [close]) == [open] + Collapse(head) + Collapse(inner) + [close]
  {
    CollapseJoin([open], head);
    CollapseJoin([open] + head, inner);
    CollapseJoin([open] + head + inner, [close]);
    CollapseCons(open, []);
    CollapseCons(close, []);
  }

  /** A run of white space collapses to one space. */
  lemma {:induction false} CollapseRun(gap: string)
    requires |gap| > 0 && forall i | 0 <= i < |gap| :: IsSpace(gap[i])
    ensures Collapse(gap) == " "
    decreases |gap|
  {
    if |gap| > 1 {
      CollapseRun(gap[1..]);
    }
  }

  /** A run of white space before a word collapses to one space before it. */
  lemma CollapseGapWord(gap: string, b: string)
    requires Word(b) && |gap| > 0 && forall i | 0 <= i < |gap| :: IsSpace(gap[i])
    ensures Collapse(gap + b) == " " + b
  {
    CollapseJoin(gap, b);
    CollapseRun(gap);
    WordIsFixed(b);
  }

  // ---------------------------------------------------------------------------------------
  // The normal form of one form

  /** A form named by a word, over solid texts passed one by one, prints as the name and the
      texts each printed on their own, each after exactly one space. */
  lemma FormOfTexts(name: string, ws: seq<string>)
    requires Word(name) && forall i | 0 <= i < |ws| :: Solid(ws[i])
    ensures Normalize(Parenthesised(name, Texts(ws))) == "(" + name + Spaced(Normalized(ws)) + ")"
  {
    StringifiedTexts(ws);
    WordIsFixed(name);
    CollapseFramed('(', name, Spaced(ws), ')');
    CollapseSpaced(ws);
    SolidTrim("(" + name + Spaced(Normalized(ws)) + ")");
  }

  lemma RegroupPair(name: string, a: string, b: string)
    ensures "(" + name + (" " + a + " " + b) + ")" == "(" + name + " " + a + " " + b + ")"
  {
  }

  /** Two solid texts as the parts of a form. */
  lemma FormOfPair(name: string, u: string, v: string)
    requires Word(name) && Solid(u) && Solid(v)
    ensures Normalize(Parenthesised(name, [Text(u), Text(v)])) == "(" + name + " " + Normalize(u) + " " + Normalize(v) + ")"
  {
    assert Texts([u, v]) == [Text(u), Text(v)];
    FormOfTexts(name, [u, v]);
    NormalizedPair(u, v);
    SpacedPair(Normalize(u), Normalize(v));
    RegroupPair(name, Normalize(u), Normalize(v));
  }

  /** One solid text as the only part of a form. */
  lemma FormOfSingle(name: string, u: string)
    requires Word(name) && Solid(u)
    ensures Normalize(Parenthesised(name, [Text(u)])) == "(" + name + " " + Normalize(u) + ")"
  {
    assert Texts([u]) == [Text(u)];
    FormOfTexts(name, [u]);
    assert Normalized([u]) == [Normalize(u)];
    assert [Normalize(u)][..0] == [];
  }

  /** A non-empty list flattened into a form: after the space that separates it, each item adds
      one more space, and the two spaces collapse into one. */
  lemma FormOfItems(name: string, ws: seq<string>)
    requires Word(name) && |ws| > 0 && forall i | 0 <= i < |ws| :: Solid(ws[i])
    ensures Normalize(Parenthesised(name, [Items(ws)])) == "(" + name + Spaced(Normalized(ws)) + ")"
  {
    var inner := [' '] + Spaced(ws);
    assert Stringified([Items(ws)]) == inner;
    WordIsFixed(name);
    CollapseFramed('(', name, inner, ')');
    SpacedStart(ws);
    CollapseCons(' ', Spaced(ws));
    CollapseSpaced(ws);
    SolidTrim("(" + name + Spaced(Normalized(ws)) + ")");
  }

  /** Lists are flattened into the enclosing form: once printed, a non-empty list reads as if
      its items had been passed one by one. */
  lemma FlattenItems(name: string, ws: seq<string>)
    requires Word(name) && |ws| > 0 && forall i | 0 <= i < |ws| :: Solid(ws[i])
    ensures Normalize(Parenthesised(name, [Items(ws)])) == Normalize(Parenthesised(name, Texts(ws)))
  {
    FormOfItems(name, ws);
    FormOfTexts(name, ws);
  }

  /** An empty list still leaves the space that separates it. */
  lemma FormOfNoItems(name: string)
    requires Word(name)
    ensures Normalize(Parenthesised(name, [Items([])])) == "(" + name + " )"
  {
    assert Stringified([Items([])]) == " ";
    WordIsFixed(name);
    CollapseFramed('(', name, " ", ')');
    CollapseCons(' ', []);
    SolidTrim("(" + name + " )");
  }

  /** An empty list followed by an absent optional: the two separating spaces collapse into
      one. */
  lemma FormOfNothing(name: string)
    requires Word(name)
    ensures Normalize(Parenthesised(name, [Items([]), Optional(None)])) == "(" + name + " )"
  {
    var parts := [Items([]), Optional(None)];
    assert Stringified(parts) == "  " by {
      assert parts[..1] == [Items([])];
      assert Stringified([Items([])]) == " ";
    }
    WordIsFixed(name);
    CollapseFramed('(', name, "  ", ')');
    assert "  " == [' '] + " ";
    CollapseCons(' ', " ");
    CollapseCons(' ', []);
    SolidTrim("(" + name + " )");
  }

  /** The text stringified from two solid texts and an absent optional. */
  lemma StringifiedPairAbsent(u: string, v: string)
    ensures Stringified([Text(u), Text(v), Optional(None)]) == Spaced([u, v]) + " "
  {
    StringifiedAppend([Text(u), Text(v)], [Optional(None)]);
    assert [Text(u), Text(v)] + [Optional(None)] == [Text(u), Text(v), Optional(None)];
    assert [Text(u), Text(v)] == Texts([u, v]);
    StringifiedTexts([u, v]);
    assert Stringified([Optional(None)]) == " ";
  }

  lemma CollapsePairSpace(u: string, v: string)
    requires Solid(u) && Solid(v)
    ensures Collapse(Spaced([u, v]) + " ") == " " + Normalize(u) + " " + Normalize(v) + " "
  {
    SpacedEnd([u, v]);
    CollapseJoin(Spaced([u, v]), " ");
    CollapseCons(' ', []);
    CollapseSpaced([u, v]);
    NormalizedPair(u, v);
    SpacedPair(Normalize(u), Normalize(v));
  }

  lemma RegroupPairAbsent(name: string, a: string, b: string)
    ensures "(" + name + (" " + a + " " + b + " ") + ")" == "(" + name + " " + a + " " + b + " )"
  {
  }

  /** An absent optional after two solid texts leaves its separating space before the closing
      parenthesis. */
  lemma FormOfPairAbsent(name: string, u: string, v: string)
    requires Word(name) && Solid(u) && Solid(v)
    ensures Normalize(Parenthesised(name, [Text(u), Text(v), Optional(None)]))
      == "(" + name + " " + Normalize(u) + " " + Normalize(v) + " )"
  {
    StringifiedPairAbsent(u, v);
    WordIsFixed(name);
    CollapseFramed('(', name, Spaced([u, v]) + " ", ')');
    CollapsePairSpace(u, v);
    var inner := " " + Normalize(u) + " " + Normalize(v) + " ";
    SolidTrim("(" + name + inner + ")");
    RegroupPairAbsent(name, Normalize(u), Normalize(v));
  }

  /** Two solid texts around `..` collapse separately, and the result needs no trimming. */
  lemma NormalizeRange(a: string, b: string)
    requires Solid(a) && Solid(b)
    ensures Normalize(a + ".." + b) == Normalize(a) + ".." + Normalize(b)
  {
    CollapseJoin(a, "..");
    CollapseJoin(a + "..", b);
    WordIsFixed("..");
    SolidCollapse(a);
    SolidCollapse(b);
    SolidTrim(Normalize(a) + ".." + Normalize(b));
  }

  /** A solid text alone in brackets collapses inside them, and the result needs no
      trimming. */
  lemma NormalizeBracketed(v: string)
    requires Solid(v)
    ensures Normalize(Bracketed(v, [])) == "[" + Normalize(v) + "]"
  {
    assert Bracketed(v, []) == ['['] + v + "" + [']'];
    CollapseFramed('[', v, "", ']');
    SolidCollapse(v);
    SolidTrim("[" + Normalize(v) + "]");
  }

  /** Two words with white space between them print with one space between them. */
  lemma NormalizeWordsApart(a: string, gap: string, b: string)
    requires Word(a) && Word(b) && |gap| > 0 && forall i | 0 <= i < |gap| :: IsSpace(gap[i])
    ensures Normalize(a + gap + b) == a + " " + b
  {
    assert a + gap + b == a + (gap + b);
    CollapseGapWord(gap, b);
    CollapseJoin(a, gap + b);
    WordIsFixed(a);
    SolidTrim(a + " " + b);
  }

  lemma WordColon(name: string)
    requires Word(name)
    ensures Word(name + ":")
  {
    var head := name + ":";
    assert forall i | 0 <= i < |head| :: head[i] == if i < |name| then name[i] else ':';
  }

  lemma LabelledRegroup(name: string, value: string)
    ensures name + ": " + value == (name + ":") + ([' '] + value)
  {
  }

  /** A word, a colon and a space before a normal text need no further printing. */
  lemma NormalizeLabelled(name: string, value: string)
    requires Word(name) && Normal(value) && |value| > 0
    ensures Normalize(name + ": " + value) == name + ": " + value
  {
    var head, tail := name + ":", [' '] + value;
    LabelledRegroup(name, value);
    WordColon(name);
    WordIsFixed(head);
    CollapseJoin(head, tail);
    CollapseCons(' ', value);
    CollapseSingleSpaced(value);
    SolidTrim(head + tail);
  }

  // ---------------------------------------------------------------------------------------
  // One visit at a time

  lemma PrintOf(e: A.Expr)
    ensures Print(ExprNode(e)) == Normalize(VisitExpr(e))
  {
  }

  lemma PrintOfType(t: A.TypeAst)
    ensures Print(TypeNode(t)) == Normalize(VisitType(t))
  {
  }

  lemma VisitBinaryExpression(left: A.Expr, operator: A.Token, right: A.Expr)
    ensures VisitExpr(A.BinaryExpression(left, operator, right))
      == Parenthesised(operator.lexeme, [Text(VisitExpr(left)), Text(VisitExpr(right))])
  {
  }

  lemma VisitUnaryExpression(operator: A.Token, operand: A.Expr)
    ensures VisitExpr(A.UnaryExpression(operator, operand)) == Parenthesised(operator.lexeme, [Text(VisitExpr(operand))])
  {
  }

  lemma VisitListType(element: A.TypeAst)
    ensures VisitType(A.ListType(element)) == Bracketed(VisitType(element), [])
  {
  }

  lemma VisitUnlabelled(value: A.Expr)
    ensures VisitExpr(A.ArgumentExpression(A.Argument(None, value))) == Normalize(VisitExpr(value))
  {
    assert VisitExpr(A.ArgumentExpression(A.Argument(None, value))) == VisitArgument(A.Argument(None, value));
  }

  lemma VisitLabelled(argLabel: A.Token, value: A.Expr)
    ensures VisitExpr(A.ArgumentExpression(A.Argument(Some(argLabel), value)))
      == argLabel.lexeme + ": " + Normalize(VisitExpr(value))
  {
    var arg := A.Argument(Some(argLabel), value);
    assert VisitExpr(A.ArgumentExpression(arg)) == VisitArgument(arg);
  }

  lemma VisitRangeExpression(start: A.Expr, end: A.Expr)
    ensures VisitExpr(A.RangeExpression(start, end)) == VisitExpr(start) + ".." + VisitExpr(end)
  {
  }

  lemma VisitListExpression(elements: seq<A.Expr>)
    ensures VisitExpr(A.ListExpression(elements)) == Parenthesised("list", [Items(VisitExprs(elements))])
  {
  }

  lemma VisitIfWithoutElse(condition: A.Expr, thenBranch: A.Block)
    ensures VisitExpr(A.IfExpression(condition, thenBranch, None))
      == Parenthesised("if", [Text(VisitExpr(condition)), Text(VisitBlock(thenBranch)), Optional(None)])
  {
  }

  lemma VisitBlockExpression(block: A.Block)
    ensures VisitExpr(A.BlockExpression(block)) == VisitBlock(block) && Solid(VisitBlock(block))
  {
  }

  lemma VisitEmptyBlock(block: A.Block)
    requires block.statements == [] && block.lastStatement == None
    ensures VisitBlock(block) == Parenthesised("block", [Items([]), Optional(None)])
  {
    assert VisitStmts(block.statements) == [];
  }

  lemma VisitsSolid(es: seq<A.Expr>)
    requires forall i | 0 <= i < |es| :: Solid(VisitExpr(es[i]))
    ensures forall i | 0 <= i < |es| :: Solid(VisitExprs(es)[i])
  {
  }

  lemma Keywords()
    ensures Word("list") && Word("if") && Word("block")
  {
  }

  lemma OpenList(items: string)
    ensures "(" + "list" + items + ")" == "(list" + items + ")"
  {
  }

  lemma EmptyBlock()
    ensures "(" + "block" + " )" == "(block )"
  {
  }

  lemma EmptyList()
    ensures "(" + "list" + " )" == "(list )"
  {
  }

  lemma OpenIf(a: string, b: string)
    ensures "(" + "if" + " " + a + " " + b + " )" == "(if " + a + " " + b + " )"
  {
  }

  // ---------------------------------------------------------------------------------------
  // Printed nodes

  /** Whatever the node, the printed text has no blank end, no white space other than the plain
      space and no two spaces in a row. */
  lemma PrintIsNormal(n: Node)
    ensures Normal(Print(n))
  {
    NormalizeIsNormal(Visit(n));
  }

  /** A lexeme already in printed form prints as itself: as a literal, a variable or a named
      type. */
  lemma PrintLiteral(value: A.Token)
    requires Normal(value.lexeme)
    ensures Print(ExprNode(A.Literal(value))) == value.lexeme
    ensures Print(ExprNode(A.VariableExpression(value))) == value.lexeme
    ensures Print(TypeNode(A.NamedType(value))) == value.lexeme
  {
    PrintOf(A.Literal(value));
    PrintOf(A.VariableExpression(value));
    PrintOfType(A.NamedType(value));
    NormalIsFixed(value.lexeme);
  }

  /** White space inside a lexeme, such as a run of spaces in a string literal, is collapsed by
      the printing like any other. */
  lemma PrintCollapsesLexeme(value: A.Token, a: string, gap: string, b: string)
    requires value.lexeme == a + gap + b
    requires Word(a) && Word(b) && |gap| > 0 && forall i | 0 <= i < |gap| :: IsSpace(gap[i])
    ensures Print(ExprNode(A.Literal(value))) == a + " " + b
  {
    PrintOf(A.Literal(value));
    NormalizeWordsApart(a, gap, b);
  }

  /** A binary expression prints as `(op left right)`, its operands printed on their own. */
  lemma PrintBinary(left: A.Expr, operator: A.Token, right: A.Expr)
    requires Word(operator.lexeme) && Solid(VisitExpr(left)) && Solid(VisitExpr(right))
    ensures Print(ExprNode(A.BinaryExpression(left, operator, right)))
      == "(" + operator.lexeme + " " + Print(ExprNode(left)) + " " + Print(ExprNode(right)) + ")"
  {
    PrintOf(A.BinaryExpression(left, operator, right));
    PrintOf(left);
    PrintOf(right);
    VisitBinaryExpression(left, operator, right);
    FormOfPair(operator.lexeme, VisitExpr(left), VisitExpr(right));
  }

  /** A unary expression prints as `(op operand)`. */
  lemma PrintUnary(operator: A.Token, operand: A.Expr)
    requires Word(operator.lexeme) && Solid(VisitExpr(operand))
    ensures Print(ExprNode(A.UnaryExpression(operator, operand))) == "(" + operator.lexeme + " " + Print(ExprNode(operand)) + ")"
  {
    PrintOf(A.UnaryExpression(operator, operand));
    PrintOf(operand);
    VisitUnaryExpression(operator, operand);
    FormOfSingle(operator.lexeme, VisitExpr(operand));
  }

  /** A range prints as `start..end`, with no parentheses and no space. */
  lemma PrintRange(start: A.Expr, end: A.Expr)
    requires Solid(VisitExpr(start)) && Solid(VisitExpr(end))
    ensures Print(ExprNode(A.RangeExpression(start, end))) == Print(ExprNode(start)) + ".." + Print(ExprNode(end))
  {
    PrintOf(A.RangeExpression(start, end));
    PrintOf(start);
    PrintOf(end);
    VisitRangeExpression(start, end);
    NormalizeRange(VisitExpr(start), VisitExpr(end));
  }

  /** A list type prints as its element type in brackets. */
  lemma PrintListType(element: A.TypeAst)
    requires Solid(VisitType(element))
    ensures Print(TypeNode(A.ListType(element))) == "[" + Print(TypeNode(element)) + "]"
  {
    PrintOfType(A.ListType(element));
    PrintOfType(element);
    VisitListType(element);
    NormalizeBracketed(VisitType(element));
  }

  /** The printed elements of a list expression. */
  function PrintedExprs(es: seq<A.Expr>): (ps: seq<string>)
    ensures |ps| == |es| && forall i | 0 <= i < |es| :: ps[i] == Print(ExprNode(es[i]))
  {
    Normalized(VisitExprs(es))
  }

  /** The empty list expression prints as `(list )`. */
  lemma PrintEmptyList(elements: seq<A.Expr>)
    requires elements == []
    ensures Print(ExprNode(A.ListExpression(elements))) == "(list )"
  {
    PrintOf(A.ListExpression(elements));
    VisitListExpression(elements);
    assert VisitExprs(elements) == [];
    Keywords();
    FormOfNoItems("list");
    EmptyList();
  }

  /** A non-empty list expression prints as `(list e1 e2 ...)`. */
  lemma PrintList(elements: seq<A.Expr>)
    requires elements != [] && forall i | 0 <= i < |elements| :: Solid(VisitExpr(elements[i]))
    ensures Print(ExprNode(A.ListExpression(elements))) == "(list" + Spaced(PrintedExprs(elements)) + ")"
  {
    PrintOf(A.ListExpression(elements));
    VisitListExpression(elements);
    VisitsSolid(elements);
    Keywords();
    FormOfItems("list", VisitExprs(elements));
    OpenList(Spaced(PrintedExprs(elements)));
  }

  /** An `if` without `else` prints as `(if condition block )`: the absent branch leaves a space
      before the closing parenthesis. */
  lemma PrintIfWithoutElse(condition: A.Expr, thenBranch: A.Block)
    requires Solid(VisitExpr(condition))
    ensures Print(ExprNode(A.IfExpression(condition, thenBranch, None)))
      == "(if " + Print(ExprNode(condition)) + " " + Print(ExprNode(A.BlockExpression(thenBranch))) + " )"
  {
    PrintOf(A.IfExpression(condition, thenBranch, None));
    PrintOf(condition);
    PrintOf(A.BlockExpression(thenBranch));
    VisitIfWithoutElse(condition, thenBranch);
    VisitBlockExpression(thenBranch);
    Keywords();
    FormOfPairAbsent("if", VisitExpr(condition), VisitBlock(thenBranch));
    OpenIf(Print(ExprNode(condition)), Print(ExprNode(A.BlockExpression(thenBranch))));
  }

  /** A block with no statements and no tail prints as `(block )`: the empty list and the absent
      tail each leave a space, and the two collapse into one. */
  lemma PrintEmptyBlock(block: A.Block)
    requires block.statements == [] && block.lastStatement == None
    ensures Print(ExprNode(A.BlockExpression(block))) == "(block )"
  {
    PrintOf(A.BlockExpression(block));
    VisitBlockExpression(block);
    VisitEmptyBlock(block);
    Keywords();
    FormOfNothing("block");
    EmptyBlock();
  }

  /** An argument without a label prints as its value does on its own: `print` applied to
      printed text changes nothing. */
  lemma PrintUnlabelledArgument(value: A.Expr)
    ensures Print(ExprNode(A.ArgumentExpression(A.Argument(None, value)))) == Print(ExprNode(value))
  {
    PrintOf(A.ArgumentExpression(A.Argument(None, value)));
    PrintOf(value);
    VisitUnlabelled(value);
    NormalizeIdempotent(VisitExpr(value));
  }

  /** A labelled argument prints as `label: value`, its value printed on its own. */
  lemma PrintLabelledArgument(argLabel: A.Token, value: A.Expr)
    requires Word(argLabel.lexeme) && Print(ExprNode(value)) != ""
    ensures Print(ExprNode(A.ArgumentExpression(A.Argument(Some(argLabel), value))))
      == argLabel.lexeme + ": " + Print(ExprNode(value))
  {
    PrintOf(A.ArgumentExpression(A.Argument(Some(argLabel), value)));
    PrintOf(value);
    VisitLabelled(argLabel, value);
    PrintIsNormal(ExprNode(value));
    NormalizeLabelled(argLabel.lexeme, Print(ExprNode(value)));
  }
}
