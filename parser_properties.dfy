/**
  Properties of the recursive-descent parser of src/popsi/parser/Parser.java, stated about
  the rule functions of ParserSpec (which the methods of Parser.Parser are proved equal to):
  how the expression levels nest, which tokens spell the names, types and items of the nodes
  built, and which tokens name the functions and records of a parsed program.
*/
module ParserProperties {
  import opened Wrappers
  import opened Tokens
  import A = Ast
  import opened ParserSpec

  // ---- how the expression levels nest ----

  /** `a op b op c` at one of the six binary levels, with no operator of the level after
      `c`, is `(a op b) op c`: the levels are left-associative. */
  lemma {:induction false} LeftAssociative(tokens: seq<Token>, s: State, level: Level, a: Step<A.Expr>, b: Step<A.Expr>, c: Step<A.Expr>)
    requires Within(tokens, s)
    requires a == Operand(tokens, s, level) && a.out.Parsed? && tokens[a.after.current].kind in Operators(level)
    requires b == Operand(tokens, Next(tokens, a.after), level) && b.out.Parsed?
    requires tokens[b.after.current].kind in Operators(level)
    requires c == Operand(tokens, Next(tokens, b.after), level) && c.out.Parsed?
    requires tokens[c.after.current].kind !in Operators(level)
    ensures Binary(tokens, s, level) == Step(Parsed(A.BinaryExpression(
      A.BinaryExpression(a.out.value, tokens[a.after.current], b.out.value), tokens[b.after.current], c.out.value)), c.after)
  {
    var ab := A.BinaryExpression(a.out.value, tokens[a.after.current], b.out.value);
    var abc := A.BinaryExpression(ab, tokens[b.after.current], c.out.value);
    assert BinaryTail(tokens, c.after, level, abc) == Step(Parsed(abc), c.after);
    assert BinaryTail(tokens, b.after, level, ab) == BinaryTail(tokens, c.after, level, abc);
    assert BinaryTail(tokens, a.after, level, a.out.value) == BinaryTail(tokens, b.after, level, ab);
  }

  /** `a ^ b ^ c`, with no `^` after `c`, is `a ^ (b ^ c)`: exponentiation is
      right-associative. */
  lemma {:induction false} ExponentNestsRight(tokens: seq<Token>, s: State, a: Step<A.Expr>, b: Step<A.Expr>, c: Step<A.Expr>)
    requires Within(tokens, s)
    requires a == Unary(tokens, s) && a.out.Parsed? && tokens[a.after.current].kind in {Hat}
    requires b == Unary(tokens, Next(tokens, a.after)) && b.out.Parsed? && tokens[b.after.current].kind in {Hat}
    requires c == Unary(tokens, Next(tokens, b.after)) && c.out.Parsed? && tokens[c.after.current].kind !in {Hat}
    ensures Exponent(tokens, s) == Step(Parsed(A.BinaryExpression(
      a.out.value, tokens[a.after.current], A.BinaryExpression(b.out.value, tokens[b.after.current], c.out.value))), c.after)
  {
    assert Exponent(tokens, Next(tokens, b.after)) == c;
    assert Exponent(tokens, Next(tokens, a.after))
      == Step(Parsed(A.BinaryExpression(b.out.value, tokens[b.after.current], c.out.value)), c.after);
  }

  /** `a = b += c`, with no assignment operator after `c`, is `a = (b += c)`: the assignment
      operators are right-associative. */
  lemma {:induction false} AssignmentNestsRight(tokens: seq<Token>, s: State, a: Step<A.Expr>, b: Step<A.Expr>, c: Step<A.Expr>)
    requires Within(tokens, s)
    requires a == Range(tokens, s) && a.out.Parsed? && tokens[a.after.current].kind in ASSIGNMENT_OPERATORS
    requires b == Range(tokens, Next(tokens, a.after)) && b.out.Parsed?
    requires tokens[b.after.current].kind in ASSIGNMENT_OPERATORS
    requires c == Range(tokens, Next(tokens, b.after)) && c.out.Parsed?
    requires tokens[c.after.current].kind !in ASSIGNMENT_OPERATORS
    ensures Attribution(tokens, s) == Step(Parsed(A.BinaryExpression(
      a.out.value, tokens[a.after.current], A.BinaryExpression(b.out.value, tokens[b.after.current], c.out.value))), c.after)
  {
    assert Attribution(tokens, Next(tokens, b.after)) == c;
    assert Attribution(tokens, Next(tokens, a.after))
      == Step(Parsed(A.BinaryExpression(b.out.value, tokens[b.after.current], c.out.value)), c.after);
  }

  /** A primary `p` followed by two suffixes `x` and `y` (calls, indexes or field accesses),
      and no third, is `y` applied to `x` applied to `p`: suffixes apply in source order. */
  lemma {:induction false} SuffixesInOrder(tokens: seq<Token>, s: State, p: Step<A.Expr>, x: Step<Postfix>, y: Step<Postfix>)
    requires Within(tokens, s)
    requires p == Primary(tokens, s) && p.out.Parsed? && tokens[p.after.current].kind in POSTFIX_OPENERS
    requires x == Suffix(tokens, Next(tokens, p.after), tokens[p.after.current]) && x.out.Parsed?
    requires tokens[x.after.current].kind in POSTFIX_OPENERS
    requires y == Suffix(tokens, Next(tokens, x.after), tokens[x.after.current]) && y.out.Parsed?
    requires tokens[y.after.current].kind !in POSTFIX_OPENERS
    ensures Call(tokens, s) == Step(Parsed(Apply(Apply(p.out.value, x.out.value), y.out.value)), y.after)
  {
    var px := Apply(p.out.value, x.out.value);
    var pxy := Apply(px, y.out.value);
    assert CallTail(tokens, y.after, pxy) == Step(Parsed(pxy), y.after);
    assert CallTail(tokens, x.after, px) == CallTail(tokens, y.after, pxy);
    assert CallTail(tokens, p.after, p.out.value) == CallTail(tokens, x.after, px);
  }

  /** A `||`-level expression `a` with no `..` after it is the whole range. */
  lemma {:induction false} RangeAlone(tokens: seq<Token>, s: State, a: Step<A.Expr>)
    requires Within(tokens, s)
    requires a == Binary(tokens, s, LogicOr) && a.out.Parsed? && tokens[a.after.current].kind !in {DotDot}
    ensures Range(tokens, s) == a
  {
    assert !Match(tokens, a.after, {DotDot}).ok;
  }

  /** `a .. b` is one range of the two `||`-level operands, and `..` combines at most two:
      the range ends where `b` ends, so a second `..` after `b` is left unconsumed. */
  lemma {:induction false} RangeJoinsTwo(tokens: seq<Token>, s: State, a: Step<A.Expr>, b: Step<A.Expr>)
    requires Within(tokens, s)
    requires a == Binary(tokens, s, LogicOr) && a.out.Parsed? && tokens[a.after.current].kind in {DotDot}
    requires b == Binary(tokens, Next(tokens, a.after), LogicOr) && b.out.Parsed?
    ensures Range(tokens, s) == Step(Parsed(A.RangeExpression(a.out.value, b.out.value)), b.after)
    ensures tokens[b.after.current].kind in {DotDot} ==> tokens[Range(tokens, s).after.current].kind in {DotDot}
  {
    assert Match(tokens, a.after, {DotDot}) == Matched(true, Next(tokens, a.after));
  }

  /** The rules that only choose between other rules, by the current token. */
  lemma {:induction false} Dispatch(tokens: seq<Token>, s: State)
    requires Within(tokens, s)
    ensures Expression(tokens, s)
      == if tokens[s.current].kind in BLOCK_STARTS then BlockExpression(tokens, s) else BlocklessExpression(tokens, s)
    ensures tokens[s.current].kind !in {Return, Debug} ==> BlocklessExpression(tokens, s) == Attribution(tokens, s)
    ensures tokens[s.current].kind !in PREFIX_OPERATORS ==> Unary(tokens, s) == Call(tokens, s)
    ensures forall level: Level :: (Operand(tokens, s, level)
      == if level == Factor then Exponent(tokens, s) else Binary(tokens, s, Tighter(level)))
  {
  }

  // ---- names, types and items ----

  /** The number of tokens spelling `parameters` (the `,` between them included). */
  function ParametersWidth(parameters: seq<A.Parameter>): nat {
    if parameters == [] then 0
    else 2 + Width(parameters[0].paramType) + (if |parameters| == 1 then 0 else 1 + ParametersWidth(parameters[1..]))
  }

  /** `parameters` are written from position `i` on: `name : type` items separated by `,`. */
  predicate ParametersAt(tokens: seq<Token>, i: nat, parameters: seq<A.Parameter>)
    decreases |parameters|
  {
    parameters == []
    || (var p, next := parameters[0], i + 2 + Width(parameters[0].paramType);
        AnnotatedAt(tokens, i, p.name, p.paramType)
        && (|parameters| > 1 ==> next < |tokens| && tokens[next].kind in {Comma} && ParametersAt(tokens, next + 1, parameters[1..])))
  }

  /** After a parameter and a `,`, ParameterList goes on reading from the token after the `,`. */
  lemma ParameterListUnfoldsOnComma(tokens: seq<Token>, s: State, parameters: seq<A.Parameter>)
    requires Within(tokens, s)
    requires var a := Annotation(tokens, s, MsgParameterName, MsgParameterColon);
      a.ok && Match(tokens, a.after, {Comma}).ok
    ensures var a := Annotation(tokens, s, MsgParameterName, MsgParameterColon);
      var more := Match(tokens, a.after, {Comma});
      AnnotatedAt(tokens, s.current, a.name, a.annotation) && more.after.current == s.current + 3 + Width(a.annotation)
      && tokens[s.current + 2 + Width(a.annotation)].kind in {Comma} && Within(tokens, more.after)
      && ParameterList(tokens, s, parameters) == ParameterList(tokens, more.after, parameters + [A.Parameter(a.name, a.annotation)])
  {
  }

  /** One parameter and a `,` in front of a spelled list extend the list read so far. */
  lemma {:induction false} ParameterListCons(tokens: seq<Token>, i: nat, parameters: seq<A.Parameter>, p: A.Parameter,
                                            value: seq<A.Parameter>, after: nat)
    requires parameters + [p] <= value
    requires AnnotatedAt(tokens, i, p.name, p.paramType)
    requires i + 2 + Width(p.paramType) < |tokens| && tokens[i + 2 + Width(p.paramType)].kind in {Comma}
    requires var rest := value[|parameters + [p]|..];
      rest != [] && ParametersAt(tokens, i + 3 + Width(p.paramType), rest)
      && after == i + 3 + Width(p.paramType) + ParametersWidth(rest)
    ensures parameters <= value
    ensures var written := value[|parameters|..];
      written != [] && ParametersAt(tokens, i, written) && after == i + ParametersWidth(written)
  {
    var written := value[|parameters|..];
    assert written[0] == p && written[1..] == value[|parameters + [p]|..] by {
      assert value[|parameters|] == (parameters + [p])[|parameters|];
    }
    ParametersAtCons(tokens, i, written);
  }

  /** One more parameter, and a `,`, before parameters written from the next token on. */
  lemma ParametersAtCons(tokens: seq<Token>, i: nat, written: seq<A.Parameter>)
    requires |written| > 1
    requires AnnotatedAt(tokens, i, written[0].name, written[0].paramType)
    requires var next := i + 2 + Width(written[0].paramType);
      next < |tokens| && tokens[next].kind in {Comma} && ParametersAt(tokens, next + 1, written[1..])
    ensures ParametersAt(tokens, i, written)
    ensures ParametersWidth(written) == 3 + Width(written[0].paramType) + ParametersWidth(written[1..])
  {
  }

  lemma {:induction false} ParameterListSpelled(tokens: seq<Token>, s: State, parameters: seq<A.Parameter>, r: Step<seq<A.Parameter>>)
    requires Within(tokens, s) && r == ParameterList(tokens, s, parameters) && r.out.Parsed?
    ensures parameters <= r.out.value
    ensures var written := r.out.value[|parameters|..];
      written != [] && ParametersAt(tokens, s.current, written)
      && r.after.current == s.current + ParametersWidth(written) && tokens[r.after.current].kind !in {Comma}
    decreases |tokens| - s.current, 1
  {
    var a := Annotation(tokens, s, MsgParameterName, MsgParameterColon);
    assert a.ok;
    if Match(tokens, a.after, {Comma}).ok {
      ParameterListUnfoldsOnComma(tokens, s, parameters);
      var p := A.Parameter(a.name, a.annotation);
      ParameterListSpelledOnComma(tokens, s, parameters, p, Match(tokens, a.after, {Comma}).after, r);
    } else {
      ParameterListSpelledLast(tokens, s, parameters, r);
    }
  }

  /** The round of ParameterListSpelled where no `,` follows the parameter: it is the last one. */
  lemma {:induction false} ParameterListSpelledLast(tokens: seq<Token>, s: State, parameters: seq<A.Parameter>, r: Step<seq<A.Parameter>>)
    requires Within(tokens, s) && r == ParameterList(tokens, s, parameters)
    requires var a := Annotation(tokens, s, MsgParameterName, MsgParameterColon);
      a.ok && !Match(tokens, a.after, {Comma}).ok
    ensures r.out.Parsed? && parameters <= r.out.value
    ensures var written := r.out.value[|parameters|..];
      written != [] && ParametersAt(tokens, s.current, written)
      && r.after.current == s.current + ParametersWidth(written) && tokens[r.after.current].kind !in {Comma}
  {
    var a := Annotation(tokens, s, MsgParameterName, MsgParameterColon);
    var p := A.Parameter(a.name, a.annotation);
    assert r == Step(Parsed(parameters + [p]), a.after);
    assert r.out.value[|parameters|..] == [p];
  }

  /** The round of ParameterListSpelled where a `,` follows the parameter `p`, and the list goes on at `next`. */
  lemma {:induction false} ParameterListSpelledOnComma(tokens: seq<Token>, s: State, parameters: seq<A.Parameter>, p: A.Parameter,
                                                       next: State, r: Step<seq<A.Parameter>>)
    requires Within(tokens, s) && Within(tokens, next) && AnnotatedAt(tokens, s.current, p.name, p.paramType)
    requires s.current + 2 + Width(p.paramType) < |tokens| && tokens[s.current + 2 + Width(p.paramType)].kind in {Comma}
    requires next.current == s.current + 3 + Width(p.paramType)
    requires r == ParameterList(tokens, next, parameters + [p]) && r.out.Parsed?
    ensures parameters <= r.out.value
    ensures var written := r.out.value[|parameters|..];
      written != [] && ParametersAt(tokens, s.current, written)
      && r.after.current == s.current + ParametersWidth(written) && tokens[r.after.current].kind !in {Comma}
    decreases |tokens| - s.current, 0
  {
    ParameterListSpelled(tokens, next, parameters + [p], r);
    ParameterListCons(tokens, s.current, parameters, p, r.out.value, r.after.current);
  }

  /** `parameters`: the names and types returned are those written, in order, and the rule
      consumes exactly their tokens. */
  lemma {:induction false} ParametersSpelled(tokens: seq<Token>, s: State)
    requires Within(tokens, s)
    ensures var r := Parameters(tokens, s);
      r.out.Parsed? ==>
        ParametersAt(tokens, s.current, r.out.value)
        && r.after.current == s.current + ParametersWidth(r.out.value)
  {
    var r := Parameters(tokens, s);
    if r.out.Parsed? && tokens[s.current].kind !in {RParen} {
      ParameterListSpelled(tokens, s, [], r);
      assert r.out.value[0..] == r.out.value;
    }
  }

  /** The number of tokens spelling `fields`. */
  function FieldsWidth(fields: seq<A.RecField>): nat {
    if fields == [] then 0 else 4 + Width(fields[0].fieldType) + FieldsWidth(fields[1..])
  }

  /** `fields` are written from position `i` on, each as `let name : type ;`. */
  predicate FieldsAt(tokens: seq<Token>, i: nat, fields: seq<A.RecField>)
    decreases |fields|
  {
    fields == [] || (FieldAt(tokens, i, fields[0]) && FieldsAt(tokens, i + 4 + Width(fields[0].fieldType), fields[1..]))
  }

  lemma {:induction false} RecFieldsSpelled(tokens: seq<Token>, s: State, name: Token, fields: seq<A.RecField>, r: Step<A.Rec>)
    requires Within(tokens, s) && r == RecFields(tokens, s, name, fields) && r.out.Parsed?
    ensures r.out.value.name == name && fields <= r.out.value.fields
    ensures var written := r.out.value.fields[|fields|..];
      FieldsAt(tokens, s.current, written) && r.after.current == s.current + FieldsWidth(written) + 1
      && tokens[r.after.current - 1].kind in {RCurly}
    decreases |tokens| - s.current, 1
  {
    if tokens[s.current].kind !in {RCurly} {
      var field := RecField(tokens, s);
      RecFieldsUnfoldsOnField(tokens, s, name, fields);
      RecFieldsSpelledOnField(tokens, s, name, fields, field.out.value, field.after, r);
    } else {
      RecFieldsSpelledClose(tokens, s, name, fields, r);
    }
  }

  /** Before a field, a parsed RecFields reads the field and goes on after it with the field added. */
  lemma RecFieldsUnfoldsOnField(tokens: seq<Token>, s: State, name: Token, fields: seq<A.RecField>)
    requires Within(tokens, s) && tokens[s.current].kind !in {RCurly} && RecFields(tokens, s, name, fields).out.Parsed?
    ensures var field := RecField(tokens, s);
      field.out.Parsed? && Within(tokens, field.after) && FieldAt(tokens, s.current, field.out.value)
      && field.after.current == s.current + 4 + Width(field.out.value.fieldType)
      && RecFields(tokens, s, name, fields) == RecFields(tokens, field.after, name, fields + [field.out.value])
  {
  }

  /** The round of RecFieldsSpelled where field `f` is written at `s` and the fields go on at `next`. */
  lemma {:induction false} RecFieldsSpelledOnField(tokens: seq<Token>, s: State, name: Token, fields: seq<A.RecField>,
                                                   f: A.RecField, next: State, r: Step<A.Rec>)
    requires Within(tokens, next) && FieldAt(tokens, s.current, f) && next.current == s.current + 4 + Width(f.fieldType)
    requires r == RecFields(tokens, next, name, fields + [f]) && r.out.Parsed?
    ensures r.out.value.name == name && fields <= r.out.value.fields
    ensures var written := r.out.value.fields[|fields|..];
      FieldsAt(tokens, s.current, written) && r.after.current == s.current + FieldsWidth(written) + 1
      && tokens[r.after.current - 1].kind in {RCurly}
    decreases |tokens| - s.current, 0
  {
    RecFieldsSpelled(tokens, next, name, fields + [f], r);
    FieldsCons(tokens, s.current, fields, f, r.out.value.fields, r.after.current);
  }

  /** One field in front of fields written after it extends the fields read so far. */
  lemma {:induction false} FieldsCons(tokens: seq<Token>, i: nat, fields: seq<A.RecField>, f: A.RecField,
                                     value: seq<A.RecField>, after: nat)
    requires fields + [f] <= value && FieldAt(tokens, i, f)
    requires var rest := value[|fields + [f]|..];
      FieldsAt(tokens, i + 4 + Width(f.fieldType), rest) && after == i + 4 + Width(f.fieldType) + FieldsWidth(rest) + 1
    ensures fields <= value
    ensures var written := value[|fields|..];
      FieldsAt(tokens, i, written) && after == i + FieldsWidth(written) + 1
  {
    var written := value[|fields|..];
    assert written[0] == f && written[1..] == value[|fields + [f]|..] by {
      assert value[|fields|] == (fields + [f])[|fields|];
    }
  }

  /** At `}`, RecFields ends with the fields read so far and consumes the `}`. */
  lemma {:induction false} RecFieldsSpelledClose(tokens: seq<Token>, s: State, name: Token, fields: seq<A.RecField>, r: Step<A.Rec>)
    requires Within(tokens, s) && tokens[s.current].kind in {RCurly} && r == RecFields(tokens, s, name, fields)
    ensures r.out.Parsed? && r.out.value.name == name && fields <= r.out.value.fields
    ensures var written := r.out.value.fields[|fields|..];
      FieldsAt(tokens, s.current, written) && r.after.current == s.current + FieldsWidth(written) + 1
      && tokens[r.after.current - 1].kind in {RCurly}
  {
    var close := Consume(tokens, s, RCurly, MsgRecClose);
    assert r == Step(Parsed(A.Rec(name, fields)), close.after);
    assert r.out.value.fields[|fields|..] == [];
  }

  /** `rec` after its keyword: the record's name is the first token, and its fields are
      those written between `{` and `}`, in order. */
  lemma {:induction false} RecSpelled(tokens: seq<Token>, s: State)
    requires Within(tokens, s)
    ensures var r := ParserSpec.Rec(tokens, s);
      r.out.Parsed? ==>
        r.out.value.name == tokens[s.current] && tokens[s.current + 1].kind in {LCurly}
        && FieldsAt(tokens, s.current + 2, r.out.value.fields)
        && r.after.current == s.current + 3 + FieldsWidth(r.out.value.fields)
  {
    var r := ParserSpec.Rec(tokens, s);
    if r.out.Parsed? {
      var name := Consume(tokens, s, Identifier, MsgRecName);
      var open := Consume(tokens, name.after, LCurly, MsgRecOpen);
      RecFieldsSpelled(tokens, open.after, name.token, [], r);
      assert r.out.value.fields[0..] == r.out.value.fields;
    }
  }

  /** The head of function `f` from position `i` to its body: `(`, the parameters, `)`,
      `-> type` iff `f` has a return type, then the `{` of the body. */
  predicate SignatureAt(tokens: seq<Token>, i: nat, f: A.Function) {
    var close := i + 1 + ParametersWidth(f.parameters);
    var body := close + 1 + ReturnWidth(f.returnType);
    body < |tokens| && tokens[i].kind in {LParen} && ParametersAt(tokens, i + 1, f.parameters)
    && tokens[close].kind in {RParen} && (f.returnType.Some? <==> tokens[close + 1].kind in {Arrow})
    && (f.returnType.Some? ==> SpelledAt(tokens, close + 2, body, f.returnType.value))
    && tokens[body].kind in {LCurly}
  }

  /** The number of tokens spelling `-> type`, if there is a return type. */
  function ReturnWidth(returnType: Option<A.TypeAst>): nat {
    if returnType.Some? then 1 + Width(returnType.value) else 0
  }

  /** `function` after its `)`: a return type iff `->` comes next, spelled by the tokens
      after it, and then the body's `{`. */
  lemma {:induction false} FunctionTailSpelled(tokens: seq<Token>, s: State, name: Token, parameters: seq<A.Parameter>, r: Step<A.Function>)
    requires Within(tokens, s) && r == FunctionTail(tokens, s, name, parameters) && r.out.Parsed?
    ensures var f := r.out.value;
      f.name == name && f.parameters == parameters && (f.returnType.Some? <==> tokens[s.current].kind in {Arrow})
      && var body := s.current + ReturnWidth(f.returnType);
      body < |tokens| && tokens[body].kind in {LCurly}
      && (f.returnType.Some? ==> SpelledAt(tokens, s.current + 1, body, f.returnType.value))
  {
    var arrow := Match(tokens, s, {Arrow});
    if arrow.ok {
      var returnType := Type(tokens, arrow.after);
      assert r == FunctionBody(tokens, returnType.after, name, parameters, Some(returnType.out.value));
    } else {
      assert r == FunctionBody(tokens, s, name, parameters, None);
    }
  }

  /** A parsed `function` head after the name: `(` and `)` around the parameters read, then the tail. */
  lemma FunctionSignatureUnfolds(tokens: seq<Token>, s: State, name: Token)
    requires Within(tokens, s) && FunctionSignature(tokens, s, name).out.Parsed?
    ensures var open := Consume(tokens, s, LParen, MsgFunctionOpen);
      var parameters := Parameters(tokens, open.after);
      var close := Consume(tokens, parameters.after, RParen, MsgFunctionClose);
      open.ok && open.after.current == s.current + 1 && tokens[s.current].kind in {LParen}
      && parameters.out.Parsed? && Within(tokens, close.after)
      && close.ok && tokens[parameters.after.current].kind in {RParen} && close.after.current == parameters.after.current + 1
      && FunctionSignature(tokens, s, name) == FunctionTail(tokens, close.after, name, parameters.out.value)
  {
  }

  /** `function` after its name: `(`, the parameters, `)`, then the tail. */
  lemma {:induction false} FunctionSignatureSpelled(tokens: seq<Token>, s: State, name: Token, r: Step<A.Function>)
    requires Within(tokens, s) && r == FunctionSignature(tokens, s, name) && r.out.Parsed?
    ensures r.out.value.name == name && SignatureAt(tokens, s.current, r.out.value)
  {
    var open := Consume(tokens, s, LParen, MsgFunctionOpen);
    var parameters := Parameters(tokens, open.after);
    var close := Consume(tokens, parameters.after, RParen, MsgFunctionClose);
    FunctionSignatureUnfolds(tokens, s, name);
    ParametersSpelled(tokens, open.after);
    FunctionHeadSpelled(tokens, s.current, name, parameters.out.value, close.after, r);
  }

  /** The head from `(` at `i`: the parameters written after it, `)`, and the tail from `next` on. */
  lemma {:induction false} FunctionHeadSpelled(tokens: seq<Token>, i: nat, name: Token, parameters: seq<A.Parameter>,
                                              next: State, r: Step<A.Function>)
    requires Within(tokens, next) && next.current == i + 2 + ParametersWidth(parameters)
    requires tokens[i].kind in {LParen} && ParametersAt(tokens, i + 1, parameters) && tokens[next.current - 1].kind in {RParen}
    requires r == FunctionTail(tokens, next, name, parameters) && r.out.Parsed?
    ensures r.out.value.name == name && SignatureAt(tokens, i, r.out.value)
  {
    FunctionTailSpelled(tokens, next, name, parameters, r);
    SignatureFromParts(tokens, i, next.current, r.out.value);
  }

  /** The parts of a function head, read one after the other, make up its signature. */
  lemma SignatureFromParts(tokens: seq<Token>, i: nat, tail: nat, f: A.Function)
    requires tail < |tokens| && tail == i + 2 + ParametersWidth(f.parameters)
    requires tokens[i].kind in {LParen} && ParametersAt(tokens, i + 1, f.parameters) && tokens[tail - 1].kind in {RParen}
    requires f.returnType.Some? <==> tokens[tail].kind in {Arrow}
    requires var body := tail + ReturnWidth(f.returnType);
      body < |tokens| && tokens[body].kind in {LCurly}
      && (f.returnType.Some? ==> SpelledAt(tokens, tail + 1, body, f.returnType.value))
    ensures SignatureAt(tokens, i, f)
  {
  }

  /** A parsed `function`: `fn`, the name, then the head and body after the name. */
  lemma FunctionUnfolds(tokens: seq<Token>, s: State)
    requires Within(tokens, s) && Function(tokens, s).out.Parsed?
    ensures var name := Consume(tokens, Consume(tokens, s, Fn, MsgFunctionKeyword).after, Identifier, MsgFunctionName);
      tokens[s.current].kind in {Fn} && name.token == tokens[s.current + 1] && name.after.current == s.current + 2
      && Within(tokens, name.after) && Function(tokens, s) == FunctionSignature(tokens, name.after, name.token)
  {
  }

  /** `function`: the name is the token after `fn`, and the parameters and return type are
      those written in the head after it, which ends at the body's `{`. */
  lemma {:induction false} FunctionSpelled(tokens: seq<Token>, s: State, r: Step<A.Function>)
    requires Within(tokens, s) && r == Function(tokens, s) && r.out.Parsed?
    ensures tokens[s.current].kind in {Fn} && r.out.value.name == tokens[s.current + 1]
    ensures SignatureAt(tokens, s.current + 2, r.out.value)
  {
    var name := Consume(tokens, Consume(tokens, s, Fn, MsgFunctionKeyword).after, Identifier, MsgFunctionName);
    FunctionUnfolds(tokens, s);
    FunctionSignatureSpelled(tokens, name.after, name.token, r);
  }

  /** `declaration` after `let`: the name and type are those written, and the initial value,
      present iff `=` follows the type, is the expression after it; without one, `;` follows
      the type. */
  lemma {:induction false} DeclarationSpelled(tokens: seq<Token>, s: State, r: Step<A.Stmt>)
    requires Within(tokens, s) && r == Declaration(tokens, s) && r.out.Parsed?
    ensures var d, next := r.out.value, s.current + 2 + Width(r.out.value.declType);
      AnnotatedAt(tokens, s.current, d.name, d.declType) && next < |tokens|
      && (d.value.Some? <==> tokens[next].kind in {Equal})
      && (d.value.None? ==> tokens[next].kind in {Semicolon} && r.after.current == next + 1)
      && (d.value.Some? ==> d.value.value == Expression(tokens, s.(current := next + 1)).out.value)
  {
    var a := Annotation(tokens, s, MsgLetName, MsgLetColon);
    var next := s.current + 2 + Width(a.annotation);
    assert a.ok && a.after == s.(current := next);
    var initialized := Match(tokens, a.after, {Equal});
    if initialized.ok {
      var value := Expression(tokens, initialized.after);
      assert initialized.after == s.(current := next + 1);
      assert r == DeclarationEnd(tokens, value.after, a.name, a.annotation, Some(value.out.value));
    } else {
      assert r == DeclarationEnd(tokens, a.after, a.name, a.annotation, None);
    }
  }

  /** `ifExpression` after `if`: the condition is the expression read first, the branches the
      blocks after it, and there is an else-branch iff `else` follows the first block. */
  lemma {:induction false} IfSpelled(tokens: seq<Token>, s: State)
    requires Within(tokens, s)
    ensures var r := IfExpression(tokens, s);
      r.out.Parsed? ==>
        var condition := Expression(tokens, s);
        condition.out.Parsed? && r.out.value.condition == condition.out.value
        && var thenBranch := Block(tokens, condition.after);
        thenBranch.out.Parsed? && r.out.value.thenBranch == thenBranch.out.value
        && (r.out.value.elseBranch.Some? <==> tokens[thenBranch.after.current].kind in {Else})
        && (r.out.value.elseBranch.Some? ==>
              r.out.value.elseBranch.value == Block(tokens, Next(tokens, thenBranch.after)).out.value)
  {
  }

  /** `whileExpression` after `while`: the condition and body are the expression and the
      block read in turn. */
  lemma {:induction false} WhileSpelled(tokens: seq<Token>, s: State)
    requires Within(tokens, s)
    ensures var r := WhileExpression(tokens, s);
      r.out.Parsed? ==>
        var condition := Expression(tokens, s);
        condition.out.Parsed? && r.out.value.condition == condition.out.value
        && r.out.value.body == Block(tokens, condition.after).out.value
  {
  }

  /** `forExpression` after `for`: the range is the expression after `in` and the body the
      block after the range. */
  lemma {:induction false} ForSpelled(tokens: seq<Token>, s: State)
    requires Within(tokens, s)
    ensures var r := ForExpression(tokens, s);
      r.out.Parsed? ==>
        var f := r.out.value;
        var range := Expression(tokens, s.(current := s.current + 3 + Width(f.varType)));
        var body := Block(tokens, range.after);
        range.out.Parsed? && f.range == range.out.value && body.out.Parsed? && f.body == body.out.value
  {
    var a := Annotation(tokens, s, MsgForName, MsgForColon);
    assert a.ok ==> a.after == s.(current := s.current + 2 + Width(a.annotation));
  }

  /** `items` are expressions read one after another from `s`, separated by `,`, the last
      one ending at `t`, where no `,` follows. */
  ghost predicate ItemsFrom(tokens: seq<Token>, s: State, items: seq<A.Expr>, t: State)
    requires Within(tokens, s)
    decreases |items|
  {
    var e := Expression(tokens, s);
    |items| > 0 && e.out.Parsed? && e.out.value == items[0]
    && if |items| == 1 then t == e.after && tokens[t.current].kind !in {Comma}
       else tokens[e.after.current].kind in {Comma} && ItemsFrom(tokens, Next(tokens, e.after), items[1..], t)
  }

  /** The loop of `listItems` only appends to the items it has. */
  lemma {:induction false} ItemListExtends(tokens: seq<Token>, s: State, done: seq<A.Expr>, r: Step<seq<A.Expr>>)
    requires Within(tokens, s) && r == ItemList(tokens, s, done) && r.out.Parsed?
    ensures done < r.out.value
    decreases |tokens| - s.current
  {
    var e := Expression(tokens, s);
    var more := Match(tokens, e.after, {Comma});
    if more.ok {
      ItemListExtends(tokens, more.after, done + [e.out.value], r);
    }
  }

  /** The loop of `listItems` succeeds with `items` after those it has exactly when `items`
      are written from the cursor, separated by `,`. */
  lemma {:induction false} ItemListSeparated(tokens: seq<Token>, s: State, done: seq<A.Expr>, items: seq<A.Expr>, t: State)
    requires Within(tokens, s)
    ensures ItemList(tokens, s, done) == Step(Parsed(done + items), t) <==> ItemsFrom(tokens, s, items, t)
    decreases |tokens| - s.current
  {
    var e := Expression(tokens, s);
    if e.out.Parsed? && tokens[e.after.current].kind in {Comma} {
      var more := Match(tokens, e.after, {Comma});
      var r := ItemList(tokens, more.after, done + [e.out.value]);
      assert more.after == Next(tokens, e.after) && ItemList(tokens, s, done) == r;
      if r.out.Parsed? {
        ItemListExtends(tokens, more.after, done + [e.out.value], r);
      }
      if items != [] {
        ItemListSeparated(tokens, more.after, done + [e.out.value], items[1..], t);
        if e.out.value == items[0] {
          assert done + [e.out.value] + items[1..] == done + items;
        } else if r.out.Parsed? {
          assert r.out.value[|done|] == e.out.value && (done + items)[|done|] == items[0];
        }
      }
    } else if e.out.Parsed? {
      if done + [e.out.value] == done + items {
        assert items == (done + items)[|done|..] == [e.out.value];
      }
    }
  }

  /** `listItems`: the elements of a list literal are the expressions written between its
      brackets, separated by `,`. */
  lemma {:induction false} ListItemsSeparated(tokens: seq<Token>, s: State)
    requires Within(tokens, s)
    ensures var r := ListItems(tokens, s);
      r.out.Parsed? ==>
        (r.out.value == [] && tokens[s.current].kind in {RBracket}) || ItemsFrom(tokens, s, r.out.value, r.after)
  {
    var r := ListItems(tokens, s);
    if r.out.Parsed? && tokens[s.current].kind !in {RBracket} {
      ItemListSeparated(tokens, s, [], r.out.value, r.after);
      assert [] + r.out.value == r.out.value;
    }
  }

  /** `args` are arguments read one after another from `s`, separated by `,`, the last one
      ending at `t`, where no `,` follows. */
  ghost predicate ArgumentsFrom(tokens: seq<Token>, s: State, args: seq<A.Argument>, t: State)
    requires Within(tokens, s)
    decreases |args|
  {
    var e := Argument(tokens, s);
    |args| > 0 && e.out.Parsed? && e.out.value == args[0]
    && if |args| == 1 then t == e.after && tokens[t.current].kind !in {Comma}
       else tokens[e.after.current].kind in {Comma} && ArgumentsFrom(tokens, Next(tokens, e.after), args[1..], t)
  }

  /** The loop of `argList` only appends to the arguments it has. */
  lemma {:induction false} ArgumentListExtends(tokens: seq<Token>, s: State, done: seq<A.Argument>, r: Step<seq<A.Argument>>)
    requires Within(tokens, s) && r == ArgumentList(tokens, s, done) && r.out.Parsed?
    ensures done < r.out.value
    decreases |tokens| - s.current
  {
    var e := Argument(tokens, s);
    var more := Match(tokens, e.after, {Comma});
    if more.ok {
      ArgumentListExtends(tokens, more.after, done + [e.out.value], r);
    }
  }

  /** The loop of `argList` succeeds with `args` after those it has exactly when `args` are
      written from the cursor, separated by `,`. */
  lemma {:induction false} ArgumentListSeparated(tokens: seq<Token>, s: State, done: seq<A.Argument>, args: seq<A.Argument>, t: State)
    requires Within(tokens, s)
    ensures ArgumentList(tokens, s, done) == Step(Parsed(done + args), t) <==> ArgumentsFrom(tokens, s, args, t)
    decreases |tokens| - s.current
  {
    var e := Argument(tokens, s);
    if e.out.Parsed? && tokens[e.after.current].kind in {Comma} {
      var more := Match(tokens, e.after, {Comma});
      var r := ArgumentList(tokens, more.after, done + [e.out.value]);
      assert more.after == Next(tokens, e.after) && ArgumentList(tokens, s, done) == r;
      if r.out.Parsed? {
        ArgumentListExtends(tokens, more.after, done + [e.out.value], r);
      }
      if args != [] {
        ArgumentListSeparated(tokens, more.after, done + [e.out.value], args[1..], t);
        if e.out.value == args[0] {
          assert done + [e.out.value] + args[1..] == done + args;
        } else if r.out.Parsed? {
          assert r.out.value[|done|] == e.out.value && (done + args)[|done|] == args[0];
        }
      }
    } else if e.out.Parsed? {
      if done + [e.out.value] == done + args {
        assert args == (done + args)[|done|..] == [e.out.value];
      }
    }
  }

  /** `argList`: the arguments of a call are those written between its parentheses,
      separated by `,`. */
  lemma {:induction false} ArgListSeparated(tokens: seq<Token>, s: State)
    requires Within(tokens, s)
    ensures var r := ArgList(tokens, s);
      r.out.Parsed? ==>
        (r.out.value == [] && tokens[s.current].kind in {RParen}) || ArgumentsFrom(tokens, s, r.out.value, r.after)
  {
    var r := ArgList(tokens, s);
    if r.out.Parsed? && tokens[s.current].kind !in {RParen} {
      ArgumentListSeparated(tokens, s, [], r.out.value, r.after);
      assert [] + r.out.value == r.out.value;
    }
  }

  // ---- the program ----

  /** One round of `parse`: a record comes after `rec` and a function starts with `fn`; in
      both the name is the token after the keyword. */
  lemma {:induction false} ParseItemNamed(tokens: seq<Token>, s: State)
    requires Within(tokens, s) && tokens[s.current].kind !in {Eof}
    ensures var r := ParseItem(tokens, s);
      r.out.Parsed? ==>
        s.current + 1 < |tokens|
        && (r.out.value.RecordItem? ==>
              tokens[s.current].kind in {Tokens.Rec} && r.out.value.record.name == tokens[s.current + 1])
        && (r.out.value.FunctionItem? ==>
              tokens[s.current].kind in {Fn} && r.out.value.definition.name == tokens[s.current + 1])
  {
    var isRec := Match(tokens, s, {Tokens.Rec});
    if isRec.ok {
      assert isRec.after.current == s.current + 1;
      assert ParseItem(tokens, s).out.Parsed? ==> ParserSpec.Rec(tokens, isRec.after).out.Parsed?;
    } else {
      assert isRec.after == s;
      assert ParseItem(tokens, s).out.Parsed? ==> Function(tokens, s).out.Parsed?;
    }
  }

  lemma {:induction false} ParseItemsNamed(tokens: seq<Token>, s: State, functions: seq<A.Function>, records: seq<A.Rec>)
    requires Within(tokens, s)
    requires forall f | f in functions :: NamedAfter(tokens, Fn, f.name)
    requires forall r | r in records :: NamedAfter(tokens, Tokens.Rec, r.name)
    ensures var p := ParseItems(tokens, s, functions, records);
      p.outcome.Done? && p.outcome.result.Success? ==>
        (forall f | f in p.outcome.result.value.functions :: NamedAfter(tokens, Fn, f.name))
        && (forall r | r in p.outcome.result.value.records :: NamedAfter(tokens, Tokens.Rec, r.name))
    decreases |tokens| - s.current, 1
  {
    if tokens[s.current].kind !in {Eof} {
      var item := ParseItem(tokens, s);
      if item.out.Failed? {
        ParseItemsNamed(tokens, RecoverFunction(tokens, item.after), functions, records);
      } else if item.out.Parsed? {
        ParsedItemNamed(tokens, s, functions, records);
      }
    }
  }

  /** The round of ParseItemsNamed where an item was parsed: it joins the named ones. */
  lemma {:induction false} ParsedItemNamed(tokens: seq<Token>, s: State, functions: seq<A.Function>, records: seq<A.Rec>)
    requires Within(tokens, s) && tokens[s.current].kind !in {Eof} && ParseItem(tokens, s).out.Parsed?
    requires forall f | f in functions :: NamedAfter(tokens, Fn, f.name)
    requires forall r | r in records :: NamedAfter(tokens, Tokens.Rec, r.name)
    ensures var p := ParseItems(tokens, s, functions, records);
      p.outcome.Done? && p.outcome.result.Success? ==>
        (forall f | f in p.outcome.result.value.functions :: NamedAfter(tokens, Fn, f.name))
        && (forall r | r in p.outcome.result.value.records :: NamedAfter(tokens, Tokens.Rec, r.name))
    decreases |tokens| - s.current, 0
  {
    var item := ParseItem(tokens, s);
    ParseItemNamed(tokens, s);
    match item.out.value
    case RecordItem(rec) =>
      assert NamedAfter(tokens, Tokens.Rec, rec.name) by {
        assert tokens[s.current].kind in {Tokens.Rec} && tokens[s.current + 1] == rec.name;
      }
      ParseItemsNamed(tokens, item.after, functions, records + [rec]);
    case FunctionItem(f) =>
      assert NamedAfter(tokens, Fn, f.name) by {
        assert tokens[s.current].kind in {Fn} && tokens[s.current + 1] == f.name;
      }
      ParseItemsNamed(tokens, item.after, functions + [f], records);
  }

  /** `parse`: every function of a parsed program is named by the token after an `fn`, and
      every record by the token after a `rec`. */
  lemma {:induction false} ParseNamed(tokens: seq<Token>)
    requires EndsAtEof(tokens)
    ensures var p := Parse(tokens);
      p.outcome.Done? && p.outcome.result.Success? ==>
        (forall f | f in p.outcome.result.value.functions :: NamedAfter(tokens, Fn, f.name))
        && (forall r | r in p.outcome.result.value.records :: NamedAfter(tokens, Tokens.Rec, r.name))
  {
    ParseItemsNamed(tokens, State(0, [], false), [], []);
  }
}
