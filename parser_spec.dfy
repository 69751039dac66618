/** What the recursive-descent parser (popsi.parser.Parser) computes, as functions over the
    token list: one function per grammar rule, from the parser's state on entry to the rule's
    outcome and the state it leaves. The class `Parser.Parser` is proved to compute exactly
    these.

    A Java rule either returns a node or throws ParseError after `error` recorded a message;
    two recovery loops in the source never terminate on some inputs. A rule's result is
    therefore an `Outcome`: `Parsed(node)`, `Failed` (ParseError in flight) or `Diverged`
    (the Java program loops forever from this state). */
module ParserSpec {
  import opened Wrappers
  import opened Tokens
  import opened Diagnostics
  import A = Ast

  datatype Outcome<+T> = Parsed(value: T) | Failed | Diverged

  /** A rule that did not produce a node hands its failure on. */
  function Abandon<T, U>(o: Outcome<T>): Outcome<U>
    requires !o.Parsed?
  {
    if o.Failed? then Failed else Diverged
  }

  /** The result of `parse`, or `Hang` when the parser never returns. */
  datatype ParseOutcome = Done(result: Result<A.Program, seq<CompilerError>>) | Hang

  /** What `parse` needs of its input (the lexer always supplies it): a final EOF token. */
  predicate EndsAtEof(tokens: seq<Token>) {
    |tokens| > 0 && tokens[|tokens| - 1].kind in {Eof}
  }

  predicate AllSyntactic(errors: seq<CompilerError>) {
    forall k | 0 <= k < |errors| :: errors[k].kind in {Syntactic}
  }

  /** The kinds that open an expression ending in a block. */
  const BLOCK_STARTS: set<TokenKind> := {If, While, For, LCurly}
  /** The kinds at which statement recovery stops (and, as written, spins). */
  predicate StartsStatement(kind: TokenKind) {
    kind in {Let, If, While, For, Return, Debug}
  }
  /** Statement recovery steps over the token at `k`: the one before it is not `;` and it
      does not start a statement. */
  predicate Skippable(tokens: seq<Token>, k: nat)
    requires 0 < k < |tokens|
  {
    tokens[k - 1].kind !in {Semicolon} && !StartsStatement(tokens[k].kind)
  }

  const ASSIGNMENT_OPERATORS: set<TokenKind> :=
    {Equal, PercentEqual, PlusEqual, MinusEqual, SlashEqual, StarEqual, HatEqual}
  const PREFIX_OPERATORS: set<TokenKind> := {Minus, Bang, Hash}
  const POSTFIX_OPENERS: set<TokenKind> := {LParen, LBracket, Dot}
  const LITERALS: set<TokenKind> := {Integer, Float, True, False, String}

  /** The six left-associative binary levels, loosest first. */
  datatype Level = LogicOr | LogicAnd | Equality | Comparison | Term | Factor

  function Operators(level: Level): set<TokenKind> {
    match level
    case LogicOr => {Or}
    case LogicAnd => {And}
    case Equality => {EqualEqual, BangEqual}
    case Comparison => {Lesser, Greater, LesserEqual, GreaterEqual}
    case Term => {Plus, Minus}
    case Factor => {Star, Slash, Percent}
  }

  /** The level whose expressions are the operands of `level` (Factor's are exponents). */
  function Tighter(level: Level): Level
    requires level != Factor
  {
    match level
    case LogicOr => LogicAnd
    case LogicAnd => Equality
    case Equality => Comparison
    case Comparison => Term
    case Term => Factor
  }

  /** Termination rank of the rule for `level`: a rule that calls another without consuming
      a token has a higher rank than the rule it calls. */
  function Rank(level: Level): nat {
    match level
    case LogicOr => 16
    case LogicAnd => 14
    case Equality => 12
    case Comparison => 10
    case Term => 8
    case Factor => 6
  }

  /** A postfix suffix: a call's arguments, an index or a field name. */
  datatype Postfix = Arguments(args: seq<A.Argument>) | Index(place: A.Expr) | Field(name: Token)

  function Apply(e: A.Expr, s: Postfix): A.Expr {
    match s
    case Arguments(args) => A.FunctionCall(e, args)
    case Index(place) => A.ListAccess(e, place)
    case Field(name) => A.RecAccess(e, name)
  }

  /** `ts` is exactly the spelling of type `t`: a name, or `[` the element type `]`. */
  predicate Spells(ts: seq<Token>, t: A.TypeAst)
    decreases t
  {
    match t
    case NamedType(name) => ts == [name] && name.kind in {Identifier}
    case ListType(e) =>
      2 <= |ts| && ts[0].kind in {LBracket} && ts[|ts| - 1].kind in {RBracket}
      && Spells(ts[1..|ts| - 1], e)
  }

  /** `Spells` on the tokens from `i` up to `j`, stated with indexes into the whole list (the
      form the parser's contracts use). */
  predicate SpelledAt(tokens: seq<Token>, i: nat, j: nat, t: A.TypeAst)
    requires i <= j <= |tokens|
    decreases t
  {
    match t
    case NamedType(name) => j == i + 1 && tokens[i] == name && name.kind in {Identifier}
    case ListType(e) =>
      i + 2 <= j && tokens[i].kind in {LBracket} && tokens[j - 1].kind in {RBracket}
      && SpelledAt(tokens, i + 1, j - 1, e)
  }

  /** The tokens between the first and the last of a slice. */
  lemma InnerSlice(tokens: seq<Token>, i: nat, j: nat)
    requires i + 2 <= j <= |tokens|
    ensures tokens[i..j][1..j - i - 1] == tokens[i + 1..j - 1]
  {
    var outer, inner := tokens[i..j], tokens[i + 1..j - 1];
    var middle := outer[1..j - i - 1];
    forall k | 0 <= k < |middle|
      ensures middle[k] == inner[k]
    {
      assert middle[k] == outer[k + 1] == tokens[i + 1 + k];
    }
  }

  lemma {:induction false} SpelledAtIsSpells(tokens: seq<Token>, i: nat, j: nat, t: A.TypeAst)
    requires i <= j <= |tokens|
    ensures SpelledAt(tokens, i, j, t) <==> Spells(tokens[i..j], t)
    decreases t
  {
    match t
    case NamedType(name) =>
      if j == i + 1 {
        assert tokens[i..j] == [tokens[i]];
      }
    case ListType(e) =>
      if i + 2 <= j {
        InnerSlice(tokens, i, j);
        SpelledAtIsSpells(tokens, i + 1, j - 1, e);
      }
  }

  /** A spelling denotes one type: the tokens a type rule consumed determine its result. */
  lemma {:induction false} SpellingDeterminesType(ts: seq<Token>, t1: A.TypeAst, t2: A.TypeAst)
    requires Spells(ts, t1) && Spells(ts, t2)
    ensures t1 == t2
    decreases t1
  {
    match t1
    case NamedType(_) =>
    case ListType(e1) =>
      SpellingDeterminesType(ts[1..|ts| - 1], e1, t2.elementType);
  }

  /** The statements of a block, its tail included. */
  function AllStatements(b: A.Block): seq<A.Stmt> {
    b.statements + (if b.lastStatement.Some? then [b.lastStatement.value] else [])
  }

  /** The token after position `i`; past the end, the final token (EOF). */
  function TokenAfter(tokens: seq<Token>, i: nat): (t: Token)
    requires EndsAtEof(tokens)
    ensures i + 1 < |tokens| ==> t == tokens[i + 1]
    ensures i + 1 >= |tokens| ==> t.kind in {Eof}
  {
    if i + 1 >= |tokens| then tokens[|tokens| - 1] else tokens[i + 1]
  }

  /* Diagnostic texts, as the parser words them. Named constants keep the literal text out
     of the verification conditions of the rules that report them. */
  const MsgListTypeClose: string := "Esperado ']' após o tipo da lista"
  const MsgParameterName: string := "Esperado nome do parâmetro"
  const MsgParameterColon: string := "Esperado ':' após o nome do parâmetro"
  const MsgFieldLet: string := "Esperado 'let' para declarar um campo do record"
  const MsgFieldName: string := "Esperado nome do campo do record"
  const MsgFieldColon: string := "Esperado ':' após o nome do campo do record"
  const MsgFieldSemicolon: string := "Esperado ';' após a declaração do campo do record"
  const MsgRecName: string := "Esperado nome do record após 'rec'"
  const MsgRecOpen: string := "Esperado '{' após o nome do record"
  const MsgRecClose: string := "Esperado '}' para fechar o record"
  const MsgFunctionKeyword: string := "Esperado 'fn' no início da declaração de função"
  const MsgFunctionName: string := "Esperado nome da função após 'fn'"
  const MsgFunctionOpen: string := "Esperado '(' após o nome da função"
  const MsgFunctionClose: string := "Esperado ')' após os parâmetros"
  const MsgBlockOpen: string := "Esperado '{' no início de um bloco de código"
  const MsgBlockClose: string := "Esperado '}' para fechar o bloco de código aberto na linha "
  const MsgLetName: string := "Esperado nome da variável após 'let'"
  const MsgLetColon: string := "Esperado ':' após o nome da variável"
  const MsgLetSemicolon: string := "Esperado ';' após a declaração da variável"
  const MsgStatementSemicolon: string := "Esperado ';' após a expressão"
  const MsgForName: string := "Esperado nome da variável após 'for'"
  const MsgForColon: string := "Esperado ':' após o nome da variável no loop 'for'"
  const MsgForIn: string := "Esperado 'in' para indicar o intervalo do loop 'for'"
  const MsgIndexClose: string := "Esperado ']' após o índice"
  const MsgParenClose: string := "Esperado ')'"
  const MsgAccessName: string := "Esperado nome do campo"
  const MsgListClose: string := "Esperado ']' após a lista"
  const MsgLabelName: string := "Esperado identificador no rótulo"
  const MsgLabelColon: string := "Esperado : após o rótulo"
  const MsgTypeExpected: string := "Esperado tipo"
  const MsgExpressionExpected: string := "Esperada expressão, encontrado: "
  const MsgFoundPrefix: string := " (encontrado: "
  /** The message `consume` records: what was expected and the lexeme found instead. */
  function Expected(message: string, found: Token): string {
    message + MsgFoundPrefix + found.lexeme + ")"
  }

  /** Decimal text of a Java `int` (string concatenation of an `int`). */
  function IntToString(n: int): string
    decreases if n < 0 then 1 - n else n
  {
    if n < 0 then "-" + IntToString(-n)
    else if n < 10 then ["0123456789"[n]]
    else IntToString(n / 10) + ["0123456789"[n % 10]]
  }


  // ---- the parser's state ----

  /** The fields a rule reads and writes: the cursor, the errors recorded so far and whether
      the last statement parsed consumed a `;`. */
  datatype State = State(current: nat, errors: seq<CompilerError>, ateSemi: bool)

  /** A rule's outcome and the state it leaves. */
  datatype Step<+T> = Step(out: Outcome<T>, after: State)

  /** The cursor is on a token of a list that ends with EOF, and every error recorded is a
      syntax error. */
  predicate Within(tokens: seq<Token>, s: State) {
    EndsAtEof(tokens) && s.current < |tokens| && AllSyntactic(s.errors)
  }

  /** From `s` to `t` the cursor only moved forward and stayed on a token, and errors were
      only appended. */
  predicate Kept(tokens: seq<Token>, s: State, t: State) {
    Within(tokens, t) && s.current <= t.current && s.errors <= t.errors
  }

  /** A rule's outcome agrees with its state: a rule that did not produce a node recorded an
      error, and a node consumed at least one token, the last of which is not `;`. */
  predicate Settled<T>(tokens: seq<Token>, s: State, r: Step<T>) {
    Kept(tokens, s, r.after)
    && (!r.out.Parsed? ==> |s.errors| < |r.after.errors|)
    && (r.out.Parsed? ==> s.current < r.after.current && tokens[r.after.current - 1].kind !in {Semicolon})
  }

  // ---- cursor ----

  /** `next`: one token on, except at EOF, where the cursor stays. */
  function Next(tokens: seq<Token>, s: State): (t: State)
    requires Within(tokens, s)
    ensures Within(tokens, t) && t.errors == s.errors && t.ateSemi == s.ateSemi
    ensures tokens[s.current].kind in {Eof} ==> t.current == s.current
    ensures tokens[s.current].kind !in {Eof} ==> t.current == s.current + 1
  {
    if tokens[s.current].kind in {Eof} then s else s.(current := s.current + 1)
  }

  datatype Matched = Matched(ok: bool, after: State)

  /** `match`: consumes the current token iff its kind is one of `kinds`. */
  function Match(tokens: seq<Token>, s: State, kinds: set<TokenKind>): (m: Matched)
    requires Within(tokens, s)
    ensures Within(tokens, m.after) && m.after.errors == s.errors && m.after.ateSemi == s.ateSemi
    ensures m.ok <==> tokens[s.current].kind in kinds
    ensures m.after.current == if m.ok && tokens[s.current].kind !in {Eof} then s.current + 1 else s.current
  {
    if tokens[s.current].kind in kinds then Matched(true, Next(tokens, s)) else Matched(false, s)
  }

  /** `error`: a syntax error at the current token. */
  function RecordError(tokens: seq<Token>, s: State, message: string): (t: State)
    requires Within(tokens, s)
    ensures Within(tokens, t) && t.current == s.current && t.ateSemi == s.ateSemi
    ensures t.errors == s.errors + [CompilerError(Syntactic, message, tokens[s.current].where)]
  {
    s.(errors := s.errors + [CompilerError(Syntactic, message, tokens[s.current].where)])
  }

  datatype Consumed = Consumed(ok: bool, token: Token, after: State)

  /** `consume`: a token of kind `kind`, or an error naming `message` and the lexeme found.
      `token` is the token at the cursor on entry, the one `consume` returns when it matches. */
  function Consume(tokens: seq<Token>, s: State, kind: TokenKind, message: string): (c: Consumed)
    requires Within(tokens, s) && kind !in {Eof}
    ensures Within(tokens, c.after) && c.after.ateSemi == s.ateSemi && c.token == tokens[s.current]
    ensures c.ok ==> c.token.kind in {kind} && c.after == s.(current := s.current + 1)
    ensures !c.ok ==>
      c.token.kind !in {kind} && c.after.current == s.current
      && c.after.errors == s.errors + [CompilerError(Syntactic, Expected(message, c.token), c.token.where)]
  {
    var t := tokens[s.current];
    var m := Match(tokens, s, {kind});
    if m.ok then Consumed(true, t, m.after)
    else Consumed(false, t, RecordError(tokens, m.after, Expected(message, t)))
  }

  // ---- recovery ----

  /** `recover_function`: skips the failing token, then every token up to the next `fn` or
      EOF. */
  function RecoverFunction(tokens: seq<Token>, s: State): (t: State)
    requires Within(tokens, s)
    ensures Within(tokens, t) && t.errors == s.errors && t.ateSemi == s.ateSemi
    ensures tokens[s.current].kind in {Eof} ==> t.current == s.current
    ensures tokens[s.current].kind !in {Eof} ==> s.current < t.current
    ensures tokens[t.current].kind in {Eof, Fn}
    ensures forall k | s.current < k < t.current :: tokens[k].kind !in {Fn}
  {
    SkipToFunction(tokens, Next(tokens, s))
  }

  /** The loop of `recover_function`. */
  function SkipToFunction(tokens: seq<Token>, s: State): (t: State)
    requires Within(tokens, s)
    decreases |tokens| - s.current
    ensures Within(tokens, t) && t.errors == s.errors && t.ateSemi == s.ateSemi
    ensures s.current <= t.current && tokens[t.current].kind in {Eof, Fn}
    ensures forall k | s.current <= k < t.current :: tokens[k].kind !in {Fn}
  {
    if tokens[s.current].kind in {Eof, Fn} then s else SkipToFunction(tokens, Next(tokens, s))
  }

  datatype Recovered = Recovered(hang: bool, after: State)

  /** `recover_stmt`: skips the failing token, then tokens until the previous one is `;` or
      EOF is reached. On a token that starts a statement the Java loop's `break` leaves only
      the `switch`, so the loop spins forever: `hang` reports that. */
  function RecoverStmt(tokens: seq<Token>, s: State): (r: Recovered)
    requires Within(tokens, s) && 0 < s.current
    ensures Within(tokens, r.after) && r.after.errors == s.errors && r.after.ateSemi == s.ateSemi
    ensures tokens[s.current].kind in {Eof} ==> r.after.current == s.current
    ensures tokens[s.current].kind !in {Eof} ==> s.current < r.after.current
    ensures r.hang <==>
      tokens[r.after.current].kind !in {Eof} && tokens[r.after.current - 1].kind !in {Semicolon}
      && StartsStatement(tokens[r.after.current].kind)
    ensures !r.hang ==> tokens[r.after.current].kind in {Eof} || tokens[r.after.current - 1].kind in {Semicolon}
    ensures forall k | s.current < k < r.after.current :: Skippable(tokens, k)
  {
    var t := SkipStatement(tokens, Next(tokens, s));
    Recovered(tokens[t.current].kind !in {Eof} && tokens[t.current - 1].kind !in {Semicolon}, t)
  }

  /** The loop of `recover_stmt`, where it does terminate. */
  function SkipStatement(tokens: seq<Token>, s: State): (t: State)
    requires Within(tokens, s) && 0 < s.current
    decreases |tokens| - s.current
    ensures Within(tokens, t) && t.errors == s.errors && t.ateSemi == s.ateSemi && s.current <= t.current
    ensures tokens[t.current].kind in {Eof} || !Skippable(tokens, t.current)
    ensures forall k | s.current <= k < t.current :: Skippable(tokens, k)
  {
    if tokens[s.current].kind !in {Eof} && Skippable(tokens, s.current) then SkipStatement(tokens, Next(tokens, s))
    else s
  }

  // ---- declarations ----

  /** The number of tokens that spell `t`. */
  function Width(t: A.TypeAst): nat {
    match t
    case NamedType(_) => 1
    case ListType(e) => Width(e) + 2
  }

  /** `type`: a name, or `[` type `]`; the tokens consumed spell the type returned. */
  function Type(tokens: seq<Token>, s: State): (r: Step<A.TypeAst>)
    requires Within(tokens, s)
    decreases |tokens| - s.current
    ensures Settled(tokens, s, r) && r.after.ateSemi == s.ateSemi && !r.out.Diverged?
    ensures r.out.Parsed? ==>
      r.after.errors == s.errors && r.after.current == s.current + Width(r.out.value)
      && SpelledAt(tokens, s.current, r.after.current, r.out.value)
    ensures tokens[s.current].kind !in {Identifier, LBracket} ==> r == Step(Failed, RecordError(tokens, s, MsgTypeExpected))
  {
    var isName := Match(tokens, s, {Identifier});
    if isName.ok then Step(Parsed(A.NamedType(tokens[s.current])), isName.after)
    else
      var isList := Match(tokens, isName.after, {LBracket});
      if isList.ok then
        var element := Type(tokens, isList.after);
        if !element.out.Parsed? then Step(Failed, element.after)
        else
          var close := Consume(tokens, element.after, RBracket, MsgListTypeClose);
          if !close.ok then Step(Failed, close.after)
          else Step(Parsed(A.ListType(element.out.value)), close.after)
      else Step(Failed, RecordError(tokens, isList.after, MsgTypeExpected))
  }

  /** `name : type` at position `i`, spelled by the tokens from `i` to `i + 2 + Width(t)`. */
  predicate AnnotatedAt(tokens: seq<Token>, i: nat, name: Token, t: A.TypeAst) {
    i + 2 + Width(t) <= |tokens| && tokens[i] == name && name.kind in {Identifier}
    && tokens[i + 1].kind in {Colon} && SpelledAt(tokens, i + 2, i + 2 + Width(t), t)
  }

  datatype Annotated = Annotated(ok: bool, name: Token, annotation: A.TypeAst, after: State)

  /** `name : type`, the way parameters, record fields, declarations and `for` variables are
      written; the two messages are those of the rule using it. */
  function Annotation(tokens: seq<Token>, s: State, nameMessage: string, colonMessage: string): (r: Annotated)
    requires Within(tokens, s)
    ensures Kept(tokens, s, r.after) && r.after.ateSemi == s.ateSemi
    ensures !r.ok ==> |s.errors| < |r.after.errors|
    ensures r.ok ==>
      r.after.errors == s.errors && r.after.current == s.current + 2 + Width(r.annotation)
      && AnnotatedAt(tokens, s.current, r.name, r.annotation)
    ensures tokens[s.current].kind !in {Identifier} ==>
      !r.ok && r.after == RecordError(tokens, s, Expected(nameMessage, tokens[s.current]))
  {
    var placeholder := A.NamedType(tokens[s.current]);
    var name := Consume(tokens, s, Identifier, nameMessage);
    if !name.ok then Annotated(false, name.token, placeholder, name.after)
    else
      var colon := Consume(tokens, name.after, Colon, colonMessage);
      if !colon.ok then Annotated(false, name.token, placeholder, colon.after)
      else
        var t := Type(tokens, colon.after);
        if !t.out.Parsed? then Annotated(false, name.token, placeholder, t.after)
        else Annotated(true, name.token, t.out.value, t.after)
  }

  /** `parameters`: empty before `)`, otherwise `name : type` items separated by `,`. */
  function Parameters(tokens: seq<Token>, s: State): (r: Step<seq<A.Parameter>>)
    requires Within(tokens, s)
    ensures Kept(tokens, s, r.after) && r.after.ateSemi == s.ateSemi && !r.out.Diverged?
    ensures !r.out.Parsed? ==> |s.errors| < |r.after.errors|
    ensures r.out.Parsed? ==> r.after.errors == s.errors && (r.out.value == [] <==> tokens[s.current].kind in {RParen})
    ensures r.out.Parsed? && r.out.value == [] ==> r.after == s
  {
    if tokens[s.current].kind in {RParen} then Step(Parsed([]), s) else ParameterList(tokens, s, [])
  }

  /** The loop of `parameters`, after the items in `parameters`. */
  function ParameterList(tokens: seq<Token>, s: State, parameters: seq<A.Parameter>): (r: Step<seq<A.Parameter>>)
    requires Within(tokens, s)
    decreases |tokens| - s.current
    ensures Kept(tokens, s, r.after) && r.after.ateSemi == s.ateSemi && !r.out.Diverged?
    ensures !r.out.Parsed? ==> |s.errors| < |r.after.errors|
    ensures r.out.Parsed? ==> r.after.errors == s.errors && |parameters| < |r.out.value| && s.current < r.after.current
  {
    var a := Annotation(tokens, s, MsgParameterName, MsgParameterColon);
    if !a.ok then Step(Failed, a.after)
    else
      var items := parameters + [A.Parameter(a.name, a.annotation)];
      var more := Match(tokens, a.after, {Comma});
      if !more.ok then Step(Parsed(items), more.after) else ParameterList(tokens, more.after, items)
  }

  /** `rec_field` at position `i`: `let name : type ;`. */
  predicate FieldAt(tokens: seq<Token>, i: nat, f: A.RecField) {
    i + 4 + Width(f.fieldType) <= |tokens| && tokens[i].kind in {Let}
    && AnnotatedAt(tokens, i + 1, f.name, f.fieldType) && tokens[i + 3 + Width(f.fieldType)].kind in {Semicolon}
  }

  /** `rec_field`: `let name : type ;`. */
  function RecField(tokens: seq<Token>, s: State): (r: Step<A.RecField>)
    requires Within(tokens, s)
    ensures Kept(tokens, s, r.after) && r.after.ateSemi == s.ateSemi && !r.out.Diverged?
    ensures !r.out.Parsed? ==> |s.errors| < |r.after.errors|
    ensures r.out.Parsed? ==>
      r.after.errors == s.errors && r.after.current == s.current + 4 + Width(r.out.value.fieldType)
      && FieldAt(tokens, s.current, r.out.value)
  {
    var keyword := Consume(tokens, s, Let, MsgFieldLet);
    if !keyword.ok then Step(Failed, keyword.after)
    else
      var a := Annotation(tokens, keyword.after, MsgFieldName, MsgFieldColon);
      if !a.ok then Step(Failed, a.after)
      else
        var semi := Consume(tokens, a.after, Semicolon, MsgFieldSemicolon);
        if !semi.ok then Step(Failed, semi.after)
        else Step(Parsed(A.RecField(a.name, a.annotation)), semi.after)
  }

  /** `rec` after its keyword: `name { field* }`. */
  function Rec(tokens: seq<Token>, s: State): (r: Step<A.Rec>)
    requires Within(tokens, s)
    ensures Kept(tokens, s, r.after) && r.after.ateSemi == s.ateSemi && !r.out.Diverged?
    ensures !r.out.Parsed? ==> |s.errors| < |r.after.errors|
    ensures r.out.Parsed? ==>
      r.after.errors == s.errors && r.out.value.name == tokens[s.current] && r.out.value.name.kind in {Identifier}
      && tokens[s.current + 1].kind in {LCurly} && s.current + 2 < r.after.current
      && tokens[r.after.current - 1].kind in {RCurly}
  {
    var name := Consume(tokens, s, Identifier, MsgRecName);
    if !name.ok then Step(Failed, name.after)
    else
      var open := Consume(tokens, name.after, LCurly, MsgRecOpen);
      if !open.ok then Step(Failed, open.after)
      else RecFields(tokens, open.after, name.token, [])
  }

  /** The loop of `rec`, after the fields in `fields`. */
  function RecFields(tokens: seq<Token>, s: State, name: Token, fields: seq<A.RecField>): (r: Step<A.Rec>)
    requires Within(tokens, s)
    decreases |tokens| - s.current
    ensures Kept(tokens, s, r.after) && r.after.ateSemi == s.ateSemi && !r.out.Diverged?
    ensures !r.out.Parsed? ==> |s.errors| < |r.after.errors|
    ensures r.out.Parsed? ==>
      r.after.errors == s.errors && r.out.value.name == name && s.current < r.after.current
      && tokens[r.after.current - 1].kind in {RCurly}
  {
    if tokens[s.current].kind !in {RCurly} then
      var field := RecField(tokens, s);
      if !field.out.Parsed? then Step(Failed, field.after)
      else RecFields(tokens, field.after, name, fields + [field.out.value])
    else
      var close := Consume(tokens, s, RCurly, MsgRecClose);
      Step(Parsed(A.Rec(name, fields)), close.after)
  }

  /** `function`: `fn name ( parameters ) [-> type] block`. */
  function Function(tokens: seq<Token>, s: State): (r: Step<A.Function>)
    requires Within(tokens, s)
    ensures Kept(tokens, s, r.after)
    ensures !r.out.Parsed? ==> |s.errors| < |r.after.errors|
    ensures r.out.Parsed? ==>
      tokens[s.current].kind in {Fn} && r.out.value.name == tokens[s.current + 1]
      && r.out.value.name.kind in {Identifier} && tokens[s.current + 2].kind in {LParen}
      && s.current + 4 < r.after.current && tokens[r.after.current - 1].kind in {RCurly}
  {
    var keyword := Consume(tokens, s, Fn, MsgFunctionKeyword);
    if !keyword.ok then Step(Failed, keyword.after)
    else
      var name := Consume(tokens, keyword.after, Identifier, MsgFunctionName);
      if !name.ok then Step(Failed, name.after) else FunctionSignature(tokens, name.after, name.token)
  }

  /** `function` after its name: `( parameters )`, then the rest. */
  function FunctionSignature(tokens: seq<Token>, s: State, name: Token): (r: Step<A.Function>)
    requires Within(tokens, s)
    ensures Kept(tokens, s, r.after)
    ensures !r.out.Parsed? ==> |s.errors| < |r.after.errors|
    ensures r.out.Parsed? ==>
      r.out.value.name == name && tokens[s.current].kind in {LParen}
      && s.current + 2 < r.after.current && tokens[r.after.current - 1].kind in {RCurly}
  {
    var open := Consume(tokens, s, LParen, MsgFunctionOpen);
    if !open.ok then Step(Failed, open.after)
    else
      var parameters := Parameters(tokens, open.after);
      if !parameters.out.Parsed? then Step(Failed, parameters.after)
      else
        var close := Consume(tokens, parameters.after, RParen, MsgFunctionClose);
        if !close.ok then Step(Failed, close.after)
        else FunctionTail(tokens, close.after, name, parameters.out.value)
  }

  /** `function` after its `)`: the optional return type and the body. */
  function FunctionTail(tokens: seq<Token>, s: State, name: Token, parameters: seq<A.Parameter>): (r: Step<A.Function>)
    requires Within(tokens, s)
    ensures Settled(tokens, s, r)
    ensures r.out.Parsed? ==>
      r.out.value.name == name && r.out.value.parameters == parameters && tokens[r.after.current - 1].kind in {RCurly}
    ensures r.out.Parsed? ==> (r.out.value.returnType.Some? <==> tokens[s.current].kind in {Arrow})
  {
    var arrow := Match(tokens, s, {Arrow});
    if arrow.ok then
      var returnType := Type(tokens, arrow.after);
      if !returnType.out.Parsed? then Step(Failed, returnType.after)
      else FunctionBody(tokens, returnType.after, name, parameters, Some(returnType.out.value))
    else FunctionBody(tokens, arrow.after, name, parameters, None)
  }

  /** The end of `function`: its body and the node built from the parts read before it. */
  function FunctionBody(tokens: seq<Token>, s: State, name: Token, parameters: seq<A.Parameter>, returnType: Option<A.TypeAst>): (r: Step<A.Function>)
    requires Within(tokens, s)
    ensures Settled(tokens, s, r)
    ensures r.out.Parsed? ==>
      r.out.value.name == name && r.out.value.parameters == parameters && r.out.value.returnType == returnType
      && tokens[s.current].kind in {LCurly} && tokens[r.after.current - 1].kind in {RCurly}
  {
    var body := Block(tokens, s);
    if !body.out.Parsed? then Step(Abandon(body.out), body.after)
    else Step(Parsed(A.Function(name, parameters, returnType, body.out.value)), body.after)
  }

  // ---- blocks and statements ----

  /** `block`: `{ statement* }`. The last statement becomes the tail iff the block is
      non-empty and the last statement parsed did not consume a `;`. */
  function Block(tokens: seq<Token>, s: State): (r: Step<A.Block>)
    requires Within(tokens, s)
    decreases |tokens| - s.current, 1
    ensures Settled(tokens, s, r)
    ensures r.out.Parsed? ==> tokens[s.current].kind in {LCurly} && tokens[r.after.current - 1].kind in {RCurly}
    ensures r.out.Parsed? ==>
      (r.out.value.lastStatement.Some? <==> AllStatements(r.out.value) != [] && !r.after.ateSemi)
    ensures r.out.Parsed? && r.after.errors == s.errors && AllStatements(r.out.value) != [] ==>
      (r.out.value.lastStatement.Some? <==> tokens[r.after.current - 2].kind !in {Semicolon})
  {
    var open := Consume(tokens, s, LCurly, MsgBlockOpen);
    if !open.ok then Step(Failed, open.after) else Statements(tokens, open.after, open.token, [])
  }

  /** The loop of `block`, after the statements in `statements`. A failing statement is
      skipped by statement recovery; an iteration that consumes nothing would be repeated
      forever (the rule reads only the cursor), so it ends the parse as `Diverged`. */
  function Statements(tokens: seq<Token>, s: State, open: Token, statements: seq<A.Stmt>): (r: Step<A.Block>)
    requires Within(tokens, s) && 0 < s.current
    decreases |tokens| - s.current, 24
    ensures Kept(tokens, s, r.after) && (!r.out.Parsed? ==> |s.errors| < |r.after.errors|)
    ensures r.out.Parsed? ==> s.current < r.after.current && tokens[r.after.current - 1].kind in {RCurly}
    ensures r.out.Parsed? ==>
      (r.out.value.lastStatement.Some? <==> AllStatements(r.out.value) != [] && !r.after.ateSemi)
    ensures (r.out.Parsed? && r.after.errors == s.errors && AllStatements(r.out.value) != []
             && (statements != [] ==> (s.ateSemi <==> tokens[s.current - 1].kind in {Semicolon}))) ==>
      (r.out.value.lastStatement.Some? <==> tokens[r.after.current - 2].kind !in {Semicolon})
  {
    if tokens[s.current].kind !in {RCurly} then
      var statement := Statement(tokens, s);
      if statement.out.Parsed? then Statements(tokens, statement.after, open, statements + [statement.out.value])
      else if statement.out.Diverged? then Step(Diverged, statement.after)
      else
        var recovered := RecoverStmt(tokens, statement.after);
        if recovered.hang || recovered.after.current == s.current then Step(Diverged, recovered.after)
        else Statements(tokens, recovered.after, open, statements)
    else CloseBlock(tokens, s, open, statements)
  }

  /** The `}` of `block`: the last statement is the tail iff there is one and it did not
      consume a `;`. */
  function CloseBlock(tokens: seq<Token>, s: State, open: Token, statements: seq<A.Stmt>): (r: Step<A.Block>)
    requires Within(tokens, s) && tokens[s.current].kind in {RCurly}
    ensures r.out.Parsed? && r.after == s.(current := s.current + 1) && AllStatements(r.out.value) == statements
    ensures r.out.value.lastStatement.Some? <==> statements != [] && !s.ateSemi
  {
    var close := Consume(tokens, s, RCurly, MsgBlockClose + IntToString(open.where.line));
    if close.after.ateSemi || statements == [] then
      Step(Parsed(A.Block(statements, None)), close.after)
    else
      var n := |statements| - 1;
      assert AllStatements(A.Block(statements[..n], Some(statements[n]))) == statements;
      Step(Parsed(A.Block(statements[..n], Some(statements[n]))), close.after)
  }

  /** `statement`: a declaration after `let`, otherwise an expression statement. On a node,
      `ateSemi` tells whether its last token is `;`. */
  function Statement(tokens: seq<Token>, s: State): (r: Step<A.Stmt>)
    requires Within(tokens, s)
    decreases |tokens| - s.current, 23
    ensures Kept(tokens, s, r.after) && (!r.out.Parsed? ==> |s.errors| < |r.after.errors|)
    ensures r.out.Parsed? ==>
      s.current < r.after.current && (r.after.ateSemi <==> tokens[r.after.current - 1].kind in {Semicolon})
    ensures r.out.Parsed? ==> (r.out.value.Declaration? <==> tokens[s.current].kind in {Let})
  {
    var isLet := Match(tokens, s.(ateSemi := false), {Let});
    if isLet.ok then Declaration(tokens, isLet.after) else ExprStmt(tokens, isLet.after)
  }

  /** `declaration` after `let`: `name : type [= expression] ;`. */
  function Declaration(tokens: seq<Token>, s: State): (r: Step<A.Stmt>)
    requires Within(tokens, s)
    decreases |tokens| - s.current, 22
    ensures Kept(tokens, s, r.after) && (!r.out.Parsed? ==> |s.errors| < |r.after.errors|)
    ensures r.out.Parsed? ==>
      r.out.value.Declaration? && s.current < r.after.current
      && r.after.ateSemi && tokens[r.after.current - 1].kind in {Semicolon}
  {
    var a := Annotation(tokens, s, MsgLetName, MsgLetColon);
    if !a.ok then Step(Failed, a.after)
    else
      var initialized := Match(tokens, a.after, {Equal});
      if initialized.ok then
        var value := Expression(tokens, initialized.after);
        if !value.out.Parsed? then Step(Abandon(value.out), value.after)
        else DeclarationEnd(tokens, value.after, a.name, a.annotation, Some(value.out.value))
      else DeclarationEnd(tokens, initialized.after, a.name, a.annotation, None)
  }

  /** The `;` that ends a declaration, and the node. */
  function DeclarationEnd(tokens: seq<Token>, s: State, name: Token, annotation: A.TypeAst, value: Option<A.Expr>): (r: Step<A.Stmt>)
    requires Within(tokens, s)
    ensures Kept(tokens, s, r.after) && (!r.out.Parsed? ==> |s.errors| < |r.after.errors|) && !r.out.Diverged?
    ensures r.out.Parsed? ==>
      r.out.value == A.Declaration(name, annotation, value) && r.after == State(s.current + 1, s.errors, true)
      && tokens[s.current].kind in {Semicolon}
  {
    var semi := Consume(tokens, s, Semicolon, MsgLetSemicolon);
    if !semi.ok then Step(Failed, semi.after)
    else Step(Parsed(A.Declaration(name, annotation, value)), semi.after.(ateSemi := true))
  }

  /** `exprStmt`: a block expression with an optional `;`, or a blockless expression whose
      `;` may be left out only before `}`. */
  function ExprStmt(tokens: seq<Token>, s: State): (r: Step<A.Stmt>)
    requires Within(tokens, s)
    decreases |tokens| - s.current, 22
    ensures Kept(tokens, s, r.after) && (!r.out.Parsed? ==> |s.errors| < |r.after.errors|)
    ensures r.out.Parsed? ==>
      r.out.value.ExpressionStatement? && s.current < r.after.current
      && (r.after.ateSemi <==> tokens[r.after.current - 1].kind in {Semicolon})
    ensures r.out.Parsed? && tokens[s.current].kind !in BLOCK_STARTS ==>
      r.after.ateSemi || tokens[r.after.current].kind in {RCurly}
  {
    if tokens[s.current].kind in BLOCK_STARTS then
      var e := BlockExpression(tokens, s);
      if !e.out.Parsed? then Step(Abandon(e.out), e.after)
      else
        var semi := Match(tokens, e.after, {Semicolon});
        Step(Parsed(A.ExpressionStatement(e.out.value)), semi.after.(ateSemi := semi.ok))
    else
      var e := BlocklessExpression(tokens, s);
      if !e.out.Parsed? then Step(Abandon(e.out), e.after)
      else if tokens[e.after.current].kind !in {RCurly} then
        var semi := Consume(tokens, e.after, Semicolon, MsgStatementSemicolon);
        if !semi.ok then Step(Failed, semi.after)
        else Step(Parsed(A.ExpressionStatement(e.out.value)), semi.after.(ateSemi := true))
      else
        var semi := Match(tokens, e.after, {Semicolon});
        Step(Parsed(A.ExpressionStatement(e.out.value)), semi.after.(ateSemi := semi.ok))
  }

  // ---- expressions ----

  /** `expression`: a block expression at `if`, `while`, `for` or `{`, else a blockless one. */
  function Expression(tokens: seq<Token>, s: State): (r: Step<A.Expr>)
    requires Within(tokens, s)
    decreases |tokens| - s.current, 21
    ensures Settled(tokens, s, r)
  {
    if tokens[s.current].kind in BLOCK_STARTS then BlockExpression(tokens, s) else BlocklessExpression(tokens, s)
  }

  /** `blockExpression`: the node follows the first token: `if`, `while`, `for`, or a block. */
  function BlockExpression(tokens: seq<Token>, s: State): (r: Step<A.Expr>)
    requires Within(tokens, s)
    decreases |tokens| - s.current, 20
    ensures Settled(tokens, s, r)
    ensures r.out.Parsed? && tokens[s.current].kind in {If} ==> r.out.value.IfExpression?
    ensures r.out.Parsed? && tokens[s.current].kind in {While} ==> r.out.value.WhileExpression?
    ensures r.out.Parsed? && tokens[s.current].kind in {For} ==> r.out.value.ForExpression?
    ensures r.out.Parsed? && tokens[s.current].kind !in {If, While, For} ==> r.out.value.BlockExpression?
  {
    var isIf := Match(tokens, s, {If});
    if isIf.ok then IfExpression(tokens, isIf.after)
    else if tokens[s.current].kind in {While, For} then Loop(tokens, isIf.after)
    else
      var b := Block(tokens, isIf.after);
      if !b.out.Parsed? then Step(Abandon(b.out), b.after) else Step(Parsed(A.BlockExpression(b.out.value)), b.after)
  }

  /** `ifExpression` after `if`: condition, block, and a block after `else` if present. */
  function IfExpression(tokens: seq<Token>, s: State): (r: Step<A.Expr>)
    requires Within(tokens, s)
    decreases |tokens| - s.current, 22
    ensures Settled(tokens, s, r)
    ensures r.out.Parsed? ==> r.out.value.IfExpression?
  {
    var condition := Expression(tokens, s);
    if !condition.out.Parsed? then Step(Abandon(condition.out), condition.after)
    else
      var thenBranch := Block(tokens, condition.after);
      if !thenBranch.out.Parsed? then Step(Abandon(thenBranch.out), thenBranch.after)
      else
        var hasElse := Match(tokens, thenBranch.after, {Else});
        if hasElse.ok then
          var elseBranch := Block(tokens, hasElse.after);
          if !elseBranch.out.Parsed? then Step(Abandon(elseBranch.out), elseBranch.after)
          else Step(Parsed(A.IfExpression(condition.out.value, thenBranch.out.value, Some(elseBranch.out.value))), elseBranch.after)
        else Step(Parsed(A.IfExpression(condition.out.value, thenBranch.out.value, None)), hasElse.after)
  }

  /** `loop`, entered only at `while` or `for`. */
  function Loop(tokens: seq<Token>, s: State): (r: Step<A.Expr>)
    requires Within(tokens, s) && tokens[s.current].kind in {While, For}
    decreases |tokens| - s.current, 1
    ensures Settled(tokens, s, r)
    ensures r.out.Parsed? ==> (r.out.value.WhileExpression? <==> tokens[s.current].kind in {While})
    ensures r.out.Parsed? ==> (r.out.value.ForExpression? <==> tokens[s.current].kind in {For})
  {
    var isWhile := Match(tokens, s, {While});
    if isWhile.ok then WhileExpression(tokens, isWhile.after)
    else
      var isFor := Match(tokens, isWhile.after, {For});
      if isFor.ok then ForExpression(tokens, isFor.after)
      else assert false; Step(Failed, isFor.after)
  }

  /** `forExpression` after `for`: `name : type in expression block`. */
  function ForExpression(tokens: seq<Token>, s: State): (r: Step<A.Expr>)
    requires Within(tokens, s)
    decreases |tokens| - s.current, 22
    ensures Settled(tokens, s, r)
    ensures r.out.Parsed? ==>
      r.out.value.ForExpression? && AnnotatedAt(tokens, s.current, r.out.value.variable, r.out.value.varType)
      && tokens[s.current + 2 + Width(r.out.value.varType)].kind in {In}
  {
    var a := Annotation(tokens, s, MsgForName, MsgForColon);
    if !a.ok then Step(Failed, a.after) else ForRange(tokens, a.after, a.name, a.annotation)
  }

  /** `forExpression` after its variable: `in expression block`. */
  function ForRange(tokens: seq<Token>, s: State, variable: Token, varType: A.TypeAst): (r: Step<A.Expr>)
    requires Within(tokens, s)
    decreases |tokens| - s.current, 23
    ensures Settled(tokens, s, r)
    ensures r.out.Parsed? ==>
      r.out.value.ForExpression? && r.out.value.variable == variable && r.out.value.varType == varType
      && tokens[s.current].kind in {In}
  {
    var isIn := Consume(tokens, s, In, MsgForIn);
    if !isIn.ok then Step(Failed, isIn.after)
    else
      var range := Expression(tokens, isIn.after);
      if !range.out.Parsed? then Step(Abandon(range.out), range.after)
      else
        var body := Block(tokens, range.after);
        if !body.out.Parsed? then Step(Abandon(body.out), body.after)
        else Step(Parsed(A.ForExpression(variable, varType, range.out.value, body.out.value)), body.after)
  }

  /** `whileExpression` after `while`: condition and block. */
  function WhileExpression(tokens: seq<Token>, s: State): (r: Step<A.Expr>)
    requires Within(tokens, s)
    decreases |tokens| - s.current, 22
    ensures Settled(tokens, s, r)
    ensures r.out.Parsed? ==> r.out.value.WhileExpression?
  {
    var condition := Expression(tokens, s);
    if !condition.out.Parsed? then Step(Abandon(condition.out), condition.after)
    else
      var body := Block(tokens, condition.after);
      if !body.out.Parsed? then Step(Abandon(body.out), body.after)
      else Step(Parsed(A.WhileExpression(condition.out.value, body.out.value)), body.after)
  }

  /** `blocklessExpression`: `return` or `debug` with an expression, else an attribution. */
  function BlocklessExpression(tokens: seq<Token>, s: State): (r: Step<A.Expr>)
    requires Within(tokens, s)
    decreases |tokens| - s.current, 19
    ensures Settled(tokens, s, r)
    ensures r.out.Parsed? && tokens[s.current].kind in {Return} ==> r.out.value.ReturnExpression?
    ensures r.out.Parsed? && tokens[s.current].kind in {Debug} ==> r.out.value.DebugExpression?
  {
    var isReturn := Match(tokens, s, {Return});
    if isReturn.ok then
      var e := Expression(tokens, isReturn.after);
      if !e.out.Parsed? then Step(Abandon(e.out), e.after) else Step(Parsed(A.ReturnExpression(e.out.value)), e.after)
    else
      var isDebug := Match(tokens, isReturn.after, {Debug});
      if isDebug.ok then
        var e := Expression(tokens, isDebug.after);
        if !e.out.Parsed? then Step(Abandon(e.out), e.after) else Step(Parsed(A.DebugExpression(e.out.value)), e.after)
      else Attribution(tokens, isDebug.after)
  }

  /** `attribution`: `range (op attribution)?` for the assignment operators. */
  function Attribution(tokens: seq<Token>, s: State): (r: Step<A.Expr>)
    requires Within(tokens, s)
    decreases |tokens| - s.current, 18
    ensures Settled(tokens, s, r)
    ensures r.out.Parsed? ==> tokens[r.after.current].kind !in ASSIGNMENT_OPERATORS
  {
    var target := Range(tokens, s);
    if !target.out.Parsed? then Step(Abandon(target.out), target.after)
    else
      var assigns := Match(tokens, target.after, ASSIGNMENT_OPERATORS);
      if !assigns.ok then Step(target.out, assigns.after)
      else
        var operator := tokens[target.after.current];
        var value := Attribution(tokens, assigns.after);
        if !value.out.Parsed? then Step(Abandon(value.out), value.after)
        else Step(Parsed(A.BinaryExpression(target.out.value, operator, value.out.value)), value.after)
  }

  /** `range`: one `||`-level expression, or two joined by `..`. */
  function Range(tokens: seq<Token>, s: State): (r: Step<A.Expr>)
    requires Within(tokens, s)
    decreases |tokens| - s.current, 17
    ensures Settled(tokens, s, r)
  {
    var start := Binary(tokens, s, LogicOr);
    if !start.out.Parsed? then Step(Abandon(start.out), start.after)
    else
      var dots := Match(tokens, start.after, {DotDot});
      if !dots.ok then Step(start.out, dots.after)
      else
        var end := Binary(tokens, dots.after, LogicOr);
        if !end.out.Parsed? then Step(Abandon(end.out), end.after)
        else Step(Parsed(A.RangeExpression(start.out.value, end.out.value)), end.after)
  }

  /** The operand rule of a binary level: the next tighter level, or `exponent` for factors. */
  function Operand(tokens: seq<Token>, s: State, level: Level): (r: Step<A.Expr>)
    requires Within(tokens, s)
    decreases |tokens| - s.current, Rank(level) - 1
    ensures Settled(tokens, s, r)
  {
    if level == Factor then Exponent(tokens, s) else Binary(tokens, s, Tighter(level))
  }

  /** `logicOr`, `logicAnd`, `equality`, `comparison`, `term` and `factor`: an operand, then
      `operator operand` for as long as the operator belongs to the level. */
  function Binary(tokens: seq<Token>, s: State, level: Level): (r: Step<A.Expr>)
    requires Within(tokens, s)
    decreases |tokens| - s.current, Rank(level)
    ensures Settled(tokens, s, r)
    ensures r.out.Parsed? ==> tokens[r.after.current].kind !in Operators(level)
  {
    var first := Operand(tokens, s, level);
    if !first.out.Parsed? then first else BinaryTail(tokens, first.after, level, first.out.value)
  }

  /** The loop of a binary level, with `left` the expression built so far: each operator and
      operand make `left` the left operand of a new node. */
  function BinaryTail(tokens: seq<Token>, s: State, level: Level, left: A.Expr): (r: Step<A.Expr>)
    requires Within(tokens, s)
    decreases |tokens| - s.current, 0
    ensures Kept(tokens, s, r.after) && (!r.out.Parsed? ==> |s.errors| < |r.after.errors|)
    ensures r.out.Parsed? ==> tokens[r.after.current].kind !in Operators(level)
    ensures r.out.Parsed? && r.after != s ==> s.current < r.after.current && tokens[r.after.current - 1].kind !in {Semicolon}
  {
    var more := Match(tokens, s, Operators(level));
    if !more.ok then Step(Parsed(left), more.after)
    else
      var operator := tokens[s.current];
      var right := Operand(tokens, more.after, level);
      if !right.out.Parsed? then Step(Abandon(right.out), right.after)
      else BinaryTail(tokens, right.after, level, A.BinaryExpression(left, operator, right.out.value))
  }

  /** `exponent`: `unary (^ exponent)?`. */
  function Exponent(tokens: seq<Token>, s: State): (r: Step<A.Expr>)
    requires Within(tokens, s)
    decreases |tokens| - s.current, 4
    ensures Settled(tokens, s, r)
    ensures r.out.Parsed? ==> tokens[r.after.current].kind !in {Hat}
  {
    var left := Unary(tokens, s);
    if !left.out.Parsed? then Step(Abandon(left.out), left.after)
    else
      var hat := Match(tokens, left.after, {Hat});
      if !hat.ok then Step(left.out, hat.after)
      else
        var operator := tokens[left.after.current];
        var right := Exponent(tokens, hat.after);
        if !right.out.Parsed? then Step(Abandon(right.out), right.after)
        else Step(Parsed(A.BinaryExpression(left.out.value, operator, right.out.value)), right.after)
  }

  /** `unary`: `-`, `!` or `#` applied to a unary expression, else a call. */
  function Unary(tokens: seq<Token>, s: State): (r: Step<A.Expr>)
    requires Within(tokens, s)
    decreases |tokens| - s.current, 3
    ensures Settled(tokens, s, r)
    ensures r.out.Parsed? && tokens[s.current].kind in PREFIX_OPERATORS ==>
      r.out.value.UnaryExpression? && r.out.value.operator == tokens[s.current]
  {
    var prefixed := Match(tokens, s, PREFIX_OPERATORS);
    if prefixed.ok then
      var operand := Unary(tokens, prefixed.after);
      if !operand.out.Parsed? then Step(Abandon(operand.out), operand.after)
      else Step(Parsed(A.UnaryExpression(tokens[s.current], operand.out.value)), operand.after)
    else Call(tokens, prefixed.after)
  }

  /** `call`: a primary followed by call arguments, indexes and field accesses. */
  function Call(tokens: seq<Token>, s: State): (r: Step<A.Expr>)
    requires Within(tokens, s)
    decreases |tokens| - s.current, 2
    ensures Settled(tokens, s, r)
    ensures r.out.Parsed? ==> tokens[r.after.current].kind !in POSTFIX_OPENERS
  {
    var target := Primary(tokens, s);
    if !target.out.Parsed? then target else CallTail(tokens, target.after, target.out.value)
  }

  /** The loop of `call`, with `e` the expression built so far: each suffix wraps it. */
  function CallTail(tokens: seq<Token>, s: State, e: A.Expr): (r: Step<A.Expr>)
    requires Within(tokens, s)
    decreases |tokens| - s.current, 0
    ensures Kept(tokens, s, r.after) && (!r.out.Parsed? ==> |s.errors| < |r.after.errors|)
    ensures r.out.Parsed? ==> tokens[r.after.current].kind !in POSTFIX_OPENERS
    ensures r.out.Parsed? && r.after != s ==> s.current < r.after.current && tokens[r.after.current - 1].kind !in {Semicolon}
  {
    var more := Match(tokens, s, POSTFIX_OPENERS);
    if !more.ok then Step(Parsed(e), more.after)
    else
      var suffix := Suffix(tokens, more.after, tokens[s.current]);
      if !suffix.out.Parsed? then Step(Abandon(suffix.out), suffix.after)
      else CallTail(tokens, suffix.after, Apply(e, suffix.out.value))
  }

  /** The body of `call`'s loop after an `opener`: `arguments )`, `expression ]` or, after
      `.`, a field name. */
  function Suffix(tokens: seq<Token>, s: State, opener: Token): (r: Step<Postfix>)
    requires Within(tokens, s) && opener.kind in POSTFIX_OPENERS
    decreases |tokens| - s.current, 25
    ensures Kept(tokens, s, r.after) && (!r.out.Parsed? ==> |s.errors| < |r.after.errors|)
    ensures r.out.Parsed? ==>
      s.current < r.after.current && tokens[r.after.current - 1].kind in {RBracket, RParen, Identifier}
    ensures r.out.Parsed? ==> (r.out.value.Index? <==> opener.kind in {LBracket})
    ensures r.out.Parsed? ==> (r.out.value.Arguments? <==> opener.kind in {LParen})
  {
    if opener.kind in {LBracket} then
      var place := Expression(tokens, s);
      if !place.out.Parsed? then Step(Abandon(place.out), place.after)
      else
        var close := Consume(tokens, place.after, RBracket, MsgIndexClose);
        if !close.ok then Step(Failed, close.after) else Step(Parsed(Index(place.out.value)), close.after)
    else if opener.kind in {LParen} then
      var args := ArgList(tokens, s);
      if !args.out.Parsed? then Step(Abandon(args.out), args.after)
      else
        var close := Consume(tokens, args.after, RParen, MsgParenClose);
        if !close.ok then Step(Failed, close.after) else Step(Parsed(Arguments(args.out.value)), close.after)
    else
      var name := Consume(tokens, s, Identifier, MsgAccessName);
      if !name.ok then Step(Failed, name.after) else Step(Parsed(Field(name.token)), name.after)
  }

  /** `primary`: a literal, a variable, `[ items ]` or `( expression )`; anything else is an
      error naming the lexeme found. */
  function Primary(tokens: seq<Token>, s: State): (r: Step<A.Expr>)
    requires Within(tokens, s)
    decreases |tokens| - s.current, 1
    ensures Settled(tokens, s, r)
    ensures r.out.Parsed? && tokens[s.current].kind in LITERALS ==> r.out.value == A.Literal(tokens[s.current])
    ensures r.out.Parsed? && tokens[s.current].kind in {Identifier} ==> r.out.value == A.VariableExpression(tokens[s.current])
    ensures r.out.Parsed? && tokens[s.current].kind in {LBracket} ==> r.out.value.ListExpression?
    ensures tokens[s.current].kind !in LITERALS + {Identifier, LBracket, LParen} ==>
      r == Step(Failed, RecordError(tokens, s, MsgExpressionExpected + tokens[s.current].lexeme))
  {
    var isLiteral := Match(tokens, s, LITERALS);
    if isLiteral.ok then Step(Parsed(A.Literal(tokens[s.current])), isLiteral.after)
    else
      var isName := Match(tokens, isLiteral.after, {Identifier});
      if isName.ok then Step(Parsed(A.VariableExpression(tokens[s.current])), isName.after)
      else
        var isList := Match(tokens, isName.after, {LBracket});
        if isList.ok then
          var items := ListItems(tokens, isList.after);
          if !items.out.Parsed? then Step(Abandon(items.out), items.after)
          else
            var close := Consume(tokens, items.after, RBracket, MsgListClose);
            if !close.ok then Step(Failed, close.after) else Step(Parsed(A.ListExpression(items.out.value)), close.after)
        else
          var isGroup := Match(tokens, isList.after, {LParen});
          if isGroup.ok then
            var e := Expression(tokens, isGroup.after);
            if !e.out.Parsed? then e
            else
              var close := Consume(tokens, e.after, RParen, MsgParenClose);
              if !close.ok then Step(Failed, close.after) else Step(e.out, close.after)
          else Step(Failed, RecordError(tokens, isGroup.after, MsgExpressionExpected + tokens[s.current].lexeme))
  }

  /** `argList`: empty before `)`, otherwise arguments separated by `,`. */
  function ArgList(tokens: seq<Token>, s: State): (r: Step<seq<A.Argument>>)
    requires Within(tokens, s)
    decreases |tokens| - s.current, 24
    ensures Kept(tokens, s, r.after) && (!r.out.Parsed? ==> |s.errors| < |r.after.errors|)
    ensures r.out.Parsed? ==> (r.out.value == [] <==> tokens[s.current].kind in {RParen})
    ensures r.out.Parsed? && r.out.value == [] ==> r.after == s
    ensures r.out.Parsed? && r.out.value != [] ==>
      s.current < r.after.current && tokens[r.after.current - 1].kind !in {Semicolon}
  {
    if tokens[s.current].kind in {RParen} then Step(Parsed([]), s) else ArgumentList(tokens, s, [])
  }

  /** The loop of `argList`, after the arguments in `args`. */
  function ArgumentList(tokens: seq<Token>, s: State, args: seq<A.Argument>): (r: Step<seq<A.Argument>>)
    requires Within(tokens, s)
    decreases |tokens| - s.current, 23
    ensures Kept(tokens, s, r.after) && (!r.out.Parsed? ==> |s.errors| < |r.after.errors|)
    ensures r.out.Parsed? ==>
      |args| < |r.out.value| && s.current < r.after.current && tokens[r.after.current - 1].kind !in {Semicolon}
  {
    var arg := Argument(tokens, s);
    if !arg.out.Parsed? then Step(Abandon(arg.out), arg.after)
    else
      var items := args + [arg.out.value];
      var more := Match(tokens, arg.after, {Comma});
      if !more.ok then Step(Parsed(items), more.after) else ArgumentList(tokens, more.after, items)
  }

  /** `argument`: labelled (`label : expression`) iff an identifier is followed by `:`. */
  function Argument(tokens: seq<Token>, s: State): (r: Step<A.Argument>)
    requires Within(tokens, s)
    decreases |tokens| - s.current, 22
    ensures Settled(tokens, s, r)
    ensures r.out.Parsed? ==>
      (r.out.value.argLabel.Some? <==> tokens[s.current].kind in {Identifier} && TokenAfter(tokens, s.current).kind in {Colon})
    ensures r.out.Parsed? && r.out.value.argLabel.Some? ==> r.out.value.argLabel.value == tokens[s.current]
  {
    if tokens[s.current].kind in {Identifier} && TokenAfter(tokens, s.current).kind in {Colon} then
      var name := Consume(tokens, s, Identifier, MsgLabelName);
      var colon := Consume(tokens, name.after, Colon, MsgLabelColon);
      var e := Expression(tokens, colon.after);
      if !e.out.Parsed? then Step(Abandon(e.out), e.after) else Step(Parsed(A.Argument(Some(name.token), e.out.value)), e.after)
    else
      var e := Expression(tokens, s);
      if !e.out.Parsed? then Step(Abandon(e.out), e.after) else Step(Parsed(A.Argument(None, e.out.value)), e.after)
  }

  /** `listItems`: empty before `]`, otherwise expressions separated by `,`. */
  function ListItems(tokens: seq<Token>, s: State): (r: Step<seq<A.Expr>>)
    requires Within(tokens, s)
    decreases |tokens| - s.current, 23
    ensures Kept(tokens, s, r.after) && (!r.out.Parsed? ==> |s.errors| < |r.after.errors|)
    ensures r.out.Parsed? ==> (r.out.value == [] <==> tokens[s.current].kind in {RBracket})
    ensures r.out.Parsed? && r.out.value == [] ==> r.after == s
    ensures r.out.Parsed? && r.out.value != [] ==>
      s.current < r.after.current && tokens[r.after.current - 1].kind !in {Semicolon}
  {
    if tokens[s.current].kind in {RBracket} then Step(Parsed([]), s) else ItemList(tokens, s, [])
  }

  /** The loop of `listItems`, after the items in `items`. */
  function ItemList(tokens: seq<Token>, s: State, items: seq<A.Expr>): (r: Step<seq<A.Expr>>)
    requires Within(tokens, s)
    decreases |tokens| - s.current, 22
    ensures Kept(tokens, s, r.after) && (!r.out.Parsed? ==> |s.errors| < |r.after.errors|)
    ensures r.out.Parsed? ==>
      |items| < |r.out.value| && s.current < r.after.current && tokens[r.after.current - 1].kind !in {Semicolon}
  {
    var item := Expression(tokens, s);
    if !item.out.Parsed? then Step(Abandon(item.out), item.after)
    else
      var more := Match(tokens, item.after, {Comma});
      if !more.ok then Step(Parsed(items + [item.out.value]), more.after)
      else ItemList(tokens, more.after, items + [item.out.value])
  }

  // ---- the whole program ----

  /** The result of `parse` and the errors the parser recorded up to it. */
  datatype Parsing = Parsing(outcome: ParseOutcome, recorded: seq<CompilerError>)

  /** `name` is the token right after a token of kind `kind`. */
  ghost predicate NamedAfter(tokens: seq<Token>, kind: TokenKind, name: Token) {
    exists i | 0 <= i && i + 1 < |tokens| :: tokens[i].kind in {kind} && tokens[i + 1] == name
  }

  /** `parse`: records and functions until EOF; a failing item is skipped by function
      recovery. */
  function Parse(tokens: seq<Token>): (p: Parsing)
    requires EndsAtEof(tokens)
    ensures AllSyntactic(p.recorded)
    ensures p.outcome.Done? ==> (p.outcome.result.Error? <==> p.recorded != [])
    ensures p.outcome.Done? && p.outcome.result.Error? ==> p.outcome.result.error == p.recorded
    ensures p.outcome.Hang? ==> p.recorded != []
    ensures tokens[0].kind in {Eof} ==> p == Parsing(Done(Success(A.Program([], []))), [])
  {
    ParseItems(tokens, State(0, [], false), [], [])
  }

  /** What one round of `parse`'s loop adds to the program. */
  datatype Item = RecordItem(record: A.Rec) | FunctionItem(definition: A.Function)

  /** One round of `parse`'s loop: a record after `rec`, otherwise a function. */
  function ParseItem(tokens: seq<Token>, s: State): (r: Step<Item>)
    requires Within(tokens, s) && tokens[s.current].kind !in {Eof}
    ensures Kept(tokens, s, r.after)
    ensures r.out.Parsed? ==> s.current < r.after.current
    ensures !r.out.Parsed? ==> |s.errors| < |r.after.errors| && s.current < RecoverFunction(tokens, r.after).current
  {
    var isRec := Match(tokens, s, {Tokens.Rec});
    if isRec.ok then
      var rec := Rec(tokens, isRec.after);
      if rec.out.Parsed? then Step(Parsed(RecordItem(rec.out.value)), rec.after) else Step(Abandon(rec.out), rec.after)
    else
      var func := Function(tokens, isRec.after);
      if func.out.Parsed? then Step(Parsed(FunctionItem(func.out.value)), func.after) else Step(Abandon(func.out), func.after)
  }

  /** The loop of `parse`, after the functions and records in `functions` and `records`. */
  function ParseItems(tokens: seq<Token>, s: State, functions: seq<A.Function>, records: seq<A.Rec>): (p: Parsing)
    requires Within(tokens, s)
    decreases |tokens| - s.current
    ensures s.errors <= p.recorded && (AllSyntactic(s.errors) ==> AllSyntactic(p.recorded))
    ensures p.outcome.Done? ==> (p.outcome.result.Error? <==> p.recorded != [])
    ensures p.outcome.Done? && p.outcome.result.Error? ==> p.outcome.result.error == p.recorded
    ensures p.outcome.Hang? ==> |s.errors| < |p.recorded|
  {
    if tokens[s.current].kind in {Eof} then
      if s.errors != [] then Parsing(Done(Error(s.errors)), s.errors)
      else Parsing(Done(Success(A.Program(functions, records))), s.errors)
    else
      var item := ParseItem(tokens, s);
      if item.out.Diverged? then Parsing(Hang, item.after.errors)
      else if item.out.Failed? then ParseItems(tokens, RecoverFunction(tokens, item.after), functions, records)
      else match item.out.value
        case RecordItem(rec) => ParseItems(tokens, item.after, functions, records + [rec])
        case FunctionItem(f) => ParseItems(tokens, item.after, functions + [f], records)
  }
}
