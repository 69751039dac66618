/** Properties of the earlier lexer (popsi.Lexer), stated against LegacyLexerSpec: the shape
    of what `lex` returns, maximal munch without `->`, the seven keywords, skipped comments
    and white space, the numeric and string errors, and line counting by carriage returns. */
module LegacyLexerProperties {
  import opened Wrappers
  import opened FilePosition
  import opened Diagnostics
  import opened LegacyTokens
  import T = Tokens
  import S = LexerSpec
  import opened LegacyLexerSpec
  import StringLiterals

  // ---------------------------------------------------------------------------------------
  // The loop of `lex`

  /** Tokens recorded before the EOF token: none of them is the EOF token. */
  predicate NoEof(tokens: seq<LegacyToken>)
  {
    forall k :: 0 <= k < |tokens| ==> tokens[k].kind !in {Eof}
  }

  /** One turn of the loop of `lex` after a raised error: it is recorded and scanning goes on
      where the scan stopped. */
  lemma LexRunRaised(src: string, i: nat, cls: S.Classifier, tokens: seq<LegacyToken>, errors: seq<CompilerError>, end: nat, e: CompilerError)
    requires i <= |src| && Scan(src, i, cls) == Raised(end, e)
    ensures end <= |src| && LexRun(src, i, cls, tokens, errors) == LexRun(src, end, cls, tokens, errors + [e])
  {
  }

  /** One turn after a token other than EOF: it is added and scanning goes on. */
  lemma LexRunEmitted(src: string, i: nat, cls: S.Classifier, tokens: seq<LegacyToken>, errors: seq<CompilerError>, end: nat, t: LegacyToken)
    requires i <= |src| && Scan(src, i, cls) == Emitted(end, t) && t.kind !in {Eof}
    ensures end <= |src| && LexRun(src, i, cls, tokens, errors) == LexRun(src, end, cls, tokens + [t], errors)
  {
  }

  /** The last turn: the EOF token is added and the loop ends. */
  lemma LexRunEof(src: string, i: nat, cls: S.Classifier, tokens: seq<LegacyToken>, errors: seq<CompilerError>, end: nat, t: LegacyToken)
    requires i <= |src| && Scan(src, i, cls) == Emitted(end, t) && t.kind in {Eof}
    ensures LexRun(src, i, cls, tokens, errors) == Finished(tokens + [t], errors)
  {
  }

  /** What `lex` returns after a finished run. */
  lemma LexOfRun(src: string, cls: S.Classifier, tokens: seq<LegacyToken>, errors: seq<CompilerError>)
    requires LexRun(src, 0, cls, [], []) == Finished(tokens, errors)
    ensures Lex(src, cls) == Lexed(if errors == [] then Success(tokens) else Error(errors))
  {
  }

  /** A finished run keeps the tokens recorded before it and adds at least one. */
  lemma {:induction false} LexRunKeepsTokens(src: string, i: nat, cls: S.Classifier, tokens: seq<LegacyToken>, errors: seq<CompilerError>)
    requires i <= |src|
    ensures var run := LexRun(src, i, cls, tokens, errors);
      run.Finished? ==> |run.tokens| > |tokens| && run.tokens[..|tokens|] == tokens
    decreases |src| - i
  {
    match Scan(src, i, cls)
    case Crash =>
    case Raised(end, e) =>
      LexRunRaised(src, i, cls, tokens, errors, end, e);
      LexRunKeepsTokens(src, end, cls, tokens, errors + [e]);
    case Emitted(end, t) =>
      if t.kind !in {Eof} {
        LexRunEmitted(src, i, cls, tokens, errors, end, t);
        LexRunKeepsTokens(src, end, cls, tokens + [t], errors);
        var run := LexRun(src, end, cls, tokens + [t], errors);
        if run.Finished? {
          assert run.tokens[..|tokens|] == (run.tokens[..|tokens| + 1])[..|tokens|];
        }
      } else {
        LexRunEof(src, i, cls, tokens, errors, end, t);
        assert (tokens + [t])[..|tokens|] == tokens;
      }
  }

  /** A finished run keeps the errors recorded before it. */
  lemma {:induction false} LexRunKeepsErrors(src: string, i: nat, cls: S.Classifier, tokens: seq<LegacyToken>, errors: seq<CompilerError>)
    requires i <= |src|
    ensures var run := LexRun(src, i, cls, tokens, errors);
      run.Finished? ==> |run.errors| >= |errors| && run.errors[..|errors|] == errors
    decreases |src| - i
  {
    match Scan(src, i, cls)
    case Crash =>
    case Raised(end, e) =>
      LexRunRaised(src, i, cls, tokens, errors, end, e);
      LexRunKeepsErrors(src, end, cls, tokens, errors + [e]);
      var run := LexRun(src, end, cls, tokens, errors + [e]);
      if run.Finished? {
        assert run.errors[..|errors|] == (run.errors[..|errors| + 1])[..|errors|];
      }
    case Emitted(end, t) =>
      if t.kind !in {Eof} {
        LexRunEmitted(src, i, cls, tokens, errors, end, t);
        LexRunKeepsErrors(src, end, cls, tokens + [t], errors);
      } else {
        LexRunEof(src, i, cls, tokens, errors, end, t);
      }
  }

  /** A finished run ends with the EOF token, and only there if it was not among the tokens
      recorded before. */
  lemma {:induction false} LexRunEndsAtEof(src: string, i: nat, cls: S.Classifier, tokens: seq<LegacyToken>, errors: seq<CompilerError>)
    requires i <= |src| && NoEof(tokens)
    ensures var run := LexRun(src, i, cls, tokens, errors);
      run.Finished? ==> |run.tokens| > 0 && run.tokens[|run.tokens| - 1].kind in {Eof} && NoEof(run.tokens[..|run.tokens| - 1])
    decreases |src| - i
  {
    match Scan(src, i, cls)
    case Crash =>
    case Raised(end, e) =>
      LexRunRaised(src, i, cls, tokens, errors, end, e);
      LexRunEndsAtEof(src, end, cls, tokens, errors + [e]);
    case Emitted(end, t) =>
      if t.kind !in {Eof} {
        LexRunEmitted(src, i, cls, tokens, errors, end, t);
        LexRunEndsAtEof(src, end, cls, tokens + [t], errors);
      } else {
        LexRunEof(src, i, cls, tokens, errors, end, t);
        assert (tokens + [t])[..|tokens|] == tokens;
      }
  }

  /** `lex` returns the tokens, the last and only the last of them the EOF token, exactly
      when no error was raised; otherwise the errors. */
  lemma LexShape(src: string, cls: S.Classifier)
    ensures Lex(src, cls).Lexed? && Lex(src, cls).result.Success? ==>
      var ts := Lex(src, cls).result.value;
      |ts| > 0 && ts[|ts| - 1].kind in {Eof} && NoEof(ts[..|ts| - 1])
    ensures Lex(src, cls).Lexed? && Lex(src, cls).result.Error? ==>
      var es := Lex(src, cls).result.error;
      |es| > 0
    ensures Lex(src, cls).Lexed? <==> LexRun(src, 0, cls, [], []).Finished?
    ensures Lex(src, cls).Lexed? ==>
      (Lex(src, cls).result.Success? <==> LexRun(src, 0, cls, [], []).errors == [])
  {
    LexRunEndsAtEof(src, 0, cls, [], []);
  }

  // ---------------------------------------------------------------------------------------
  // Operators

  /** The operators and punctuation marks of one code point, with their kinds. */
  const SINGLE_OPERATORS: map<char, LegacyKind> := map[
    '(' := LParen, ')' := RParen, '[' := LBracket, ']' := RBracket, '{' := LCurly, '}' := RCurly,
    ':' := Colon, ';' := Semicolon, '#' := Hash, ',' := Comma,
    '=' := Equal, '%' := Percent, '!' := Bang, '+' := Plus, '-' := Minus, '/' := Slash,
    '*' := Star, '^' := Hat, '<' := Lesser, '>' := Greater, '.' := Dot]

  /** The operators of two code points, with their kinds: there is no `->`. */
  const DOUBLE_OPERATORS: map<(char, char), LegacyKind> := map[
    ('=', '=') := EqualEqual, ('%', '=') := PercentEqual, ('!', '=') := BangEqual,
    ('+', '=') := PlusEqual, ('-', '=') := MinusEqual, ('/', '=') := SlashEqual,
    ('*', '=') := StarEqual, ('^', '=') := HatEqual, ('<', '=') := LesserEqual,
    ('>', '=') := GreaterEqual, ('.', '.') := DotDot, ('&', '&') := And, ('|', '|') := Or]

  /** The length of the longest operator that starts at `i`: 2, 1, or 0 when there is none. */
  function LongestOperator(src: string, i: nat): (n: nat)
    requires i < |src|
    ensures n <= 2 && i + n <= |src|
    ensures n == 2 <==> i + 1 < |src| && (src[i], src[i + 1]) in DOUBLE_OPERATORS
    ensures n == 1 ==> src[i] in SINGLE_OPERATORS
    ensures n == 0 ==> src[i] !in SINGLE_OPERATORS
  {
    if i + 1 < |src| && (src[i], src[i + 1]) in DOUBLE_OPERATORS then 2
    else if src[i] in SINGLE_OPERATORS then 1
    else 0
  }

  /** The scan `r` from `i` emits the longest operator that starts at `i`; where none does
      (a lone `&` or `|`) it raises, after consuming the one code point. */
  ghost predicate Munches(src: string, i: nat, r: Scanned)
    requires i < |src|
  {
    var n := LongestOperator(src, i);
    && (n == 2 ==> r == Emit(src, i, i + 2, DOUBLE_OPERATORS[(src[i], src[i + 1])], T.NoLiteral))
    && (n == 1 ==> r == Emit(src, i, i + 1, SINGLE_OPERATORS[src[i]], T.NoLiteral))
    && (n == 0 ==> r.Raised? && r.end == i + 1 && r.error.where == PosAt(src, i))
  }

  /** The first code points of the two-code-point operators. */
  lemma DoubleStarts(c: char, d: char)
    requires (c, d) in DOUBLE_OPERATORS
    ensures EqualPair(c).Some? || c == '/' || c == '.' || c == '&' || c == '|'
    ensures EqualPair(c).Some? || c == '/' ==> d == '=' && DOUBLE_OPERATORS[(c, d)] == (if c == '/' then SlashEqual else EqualPair(c).value.1)
    ensures c == '.' || c == '&' || c == '|' ==> d == c
  {
  }

  /** A one-code-point punctuation mark is in the table of single operators with its kind, and
      no two-code-point operator starts with it. */
  lemma SingleInTable(c: char)
    requires SingleKind(c).Some?
    ensures c in SINGLE_OPERATORS && SINGLE_OPERATORS[c] == SingleKind(c).value
  {
    match c
    case '(' => assert SINGLE_OPERATORS['('] == LParen;
    case ')' => assert SINGLE_OPERATORS[')'] == RParen;
    case '[' => assert SINGLE_OPERATORS['['] == LBracket;
    case ']' => assert SINGLE_OPERATORS[']'] == RBracket;
    case '{' => assert SINGLE_OPERATORS['{'] == LCurly;
    case '}' => assert SINGLE_OPERATORS['}'] == RCurly;
    case ':' => assert SINGLE_OPERATORS[':'] == Colon;
    case ';' => assert SINGLE_OPERATORS[';'] == Semicolon;
    case '#' => assert SINGLE_OPERATORS['#'] == Hash;
    case ',' => assert SINGLE_OPERATORS[','] == Comma;
    case _ =>
  }

  /** A lone single-operator code point starts no other kind of symbol. */
  lemma SingleIsLone(c: char)
    requires SingleKind(c).Some?
    ensures EqualPair(c).None? && c !in {'/', '.', '&', '|'}
  {
  }

  /** A code point of an `=`-pair is a single operator... */
  lemma PairInSingles(c: char)
    requires EqualPair(c).Some?
    ensures c in SINGLE_OPERATORS && SINGLE_OPERATORS[c] == EqualPair(c).value.0
  {
  }

  /** ...and, followed by `=`, a double one. */
  lemma PairInDoubles(c: char)
    requires EqualPair(c).Some?
    ensures (c, '=') in DOUBLE_OPERATORS && DOUBLE_OPERATORS[(c, '=')] == EqualPair(c).value.1
  {
  }

  lemma SingleMunch(src: string, i: nat)
    requires i < |src| && SingleKind(src[i]).Some?
    ensures Munches(src, i, ScanSymbol(src, i))
  {
    var c := src[i];
    SingleInTable(c);
    SingleIsLone(c);
    if i + 1 < |src| && (c, src[i + 1]) in DOUBLE_OPERATORS {
      DoubleStarts(c, src[i + 1]);
    }
  }

  lemma EqualPairMunch(src: string, i: nat)
    requires i < |src| && EqualPair(src[i]).Some?
    ensures Munches(src, i, ScanSymbol(src, i))
  {
    if S.At(src, i + 1, '=') {
      EqualPairThenEqual(src, i);
    } else {
      EqualPairAlone(src, i);
    }
  }

  lemma EqualPairThenEqual(src: string, i: nat)
    requires i < |src| && EqualPair(src[i]).Some? && S.At(src, i + 1, '=')
    ensures Munches(src, i, ScanSymbol(src, i))
  {
    var c := src[i];
    assert ScanSymbol(src, i) == ScanEqualPair(src, i);
    PairInDoubles(c);
    assert LongestOperator(src, i) == 2;
  }

  lemma EqualPairAlone(src: string, i: nat)
    requires i < |src| && EqualPair(src[i]).Some? && !S.At(src, i + 1, '=')
    ensures Munches(src, i, ScanSymbol(src, i))
  {
    var c := src[i];
    assert ScanSymbol(src, i) == ScanEqualPair(src, i);
    if i + 1 < |src| && (c, src[i + 1]) in DOUBLE_OPERATORS {
      DoubleStarts(c, src[i + 1]);
    }
    PairInSingles(c);
    assert LongestOperator(src, i) == 1;
  }

  lemma SlashMunch(src: string, i: nat)
    requires i < |src| && src[i] == '/' && !CommentAt(src, i)
    ensures Munches(src, i, ScanSymbol(src, i))
  {
    if i + 1 < |src| && ('/', src[i + 1]) in DOUBLE_OPERATORS {
      DoubleStarts('/', src[i + 1]);
    }
  }

  lemma DotMunch(src: string, i: nat)
    requires i < |src| && src[i] == '.'
    ensures Munches(src, i, ScanSymbol(src, i))
  {
    if i + 1 < |src| && ('.', src[i + 1]) in DOUBLE_OPERATORS {
      DoubleStarts('.', src[i + 1]);
    }
  }

  lemma AmpersandMunch(src: string, i: nat)
    requires i < |src| && src[i] == '&'
    ensures Munches(src, i, ScanSymbol(src, i))
  {
    if i + 1 < |src| && ('&', src[i + 1]) in DOUBLE_OPERATORS {
      DoubleStarts('&', src[i + 1]);
    }
  }

  lemma BarMunch(src: string, i: nat)
    requires i < |src| && src[i] == '|'
    ensures Munches(src, i, ScanSymbol(src, i))
  {
    if i + 1 < |src| && ('|', src[i + 1]) in DOUBLE_OPERATORS {
      DoubleStarts('|', src[i + 1]);
    }
  }

  /** Operators are read by maximal munch: a scan at a code point that begins an operator
      emits the longest operator that starts there; a lone `&` or `|` raises. `//` begins a
      comment instead. */
  lemma MaximalMunch(src: string, i: nat, cls: S.Classifier)
    requires i < |src| && IsSymbolStart(src[i]) && !CommentAt(src, i)
    ensures Munches(src, i, Scan(src, i, cls))
  {
    var c := src[i];
    assert Scan(src, i, cls) == ScanSymbol(src, i);
    if SingleKind(c).Some? {
      SingleMunch(src, i);
    } else if EqualPair(c).Some? {
      EqualPairMunch(src, i);
    } else if c == '/' {
      SlashMunch(src, i);
    } else if c == '.' {
      DotMunch(src, i);
    } else if c == '&' {
      AmpersandMunch(src, i);
    } else {
      BarMunch(src, i);
    }
  }

  /** Without an ARROW kind, `->` is a MINUS and then a GREATER. */
  lemma ArrowIsTwoTokens(cls: S.Classifier)
    ensures var src := "->";
      && Scan(src, 0, cls) == Emit(src, 0, 1, Minus, T.NoLiteral)
      && Scan(src, 1, cls) == Emit(src, 1, 2, Greater, T.NoLiteral)
  {
    var src := "->";
    assert src[0] == '-' && src[1] == '>';
  }

  /** A lone `&` raises the message that asks for `&&`, at the `&`. */
  lemma LoneAmpersandRaises(src: string, i: nat, cls: S.Classifier)
    requires i < |src| && src[i] == '&' && !S.At(src, i + 1, '&')
    ensures Scan(src, i, cls) == Raise(i + 1, LONE_AMPERSAND, PosAt(src, i))
  {
  }

  /** A lone `|` raises the message that asks for `||`, at the `|`. */
  lemma LoneBarRaises(src: string, i: nat, cls: S.Classifier)
    requires i < |src| && src[i] == '|' && !S.At(src, i + 1, '|')
    ensures Scan(src, i, cls) == Raise(i + 1, LONE_BAR, PosAt(src, i))
  {
  }

  // ---------------------------------------------------------------------------------------
  // Comments and white space

  /** A line comment is skipped up to, not including, the next newline or the end of the
      text, and the scan starts over there: it emits nothing of its own. */
  lemma CommentSkipped(src: string, i: nat, cls: S.Classifier)
    requires CommentAt(src, i)
    ensures var k := S.Span(src, i + 2, S.NotNewline);
      && Scan(src, i, cls) == Scan(src, k, cls)
      && (k == |src| || src[k] == '\n')
      && forall n :: i + 2 <= n < k ==> src[n] != '\n'
  {
    S.SpanMaximal(src, i + 2, S.NotNewline);
    assert S.Span(src, i + 1, S.NotNewline) == S.Span(src, i + 2, S.NotNewline);
  }

  /** A run of white space is skipped whole and the scan starts over after it. */
  lemma WhitespaceSkipped(src: string, i: nat, cls: S.Classifier)
    requires i < |src| && S.IsWhitespace(src[i])
    ensures var k := S.Span(src, i, S.IsWhitespace);
      && i < k && Scan(src, i, cls) == Scan(src, k, cls)
      && (forall n :: i <= n < k ==> S.IsWhitespace(src[n]))
      && (k < |src| ==> !S.IsWhitespace(src[k]))
  {
    S.SpanMaximal(src, i, S.IsWhitespace);
  }

  // ---------------------------------------------------------------------------------------
  // Identifiers and keywords

  /** How a keyword kind is spelled. */
  function KeywordSpelling(k: LegacyKind): string
  {
    match k
    case Fn => "fn"
    case Let => "let"
    case For => "for"
    case While => "while"
    case Return => "return"
    case If => "if"
    case Debug => "debug"
    case _ => ""
  }

  /** A lexeme gets a keyword kind exactly when it is one of the seven keywords, and that
      kind spells it. */
  lemma KeywordTable(w: string)
    ensures KeywordKind(w) != Identifier <==> w in KEYWORDS
    ensures w in KEYWORDS ==> KeywordSpelling(KeywordKind(w)) == w
  {
  }

  /** The keywords of the current lexer that this one lacks are plain identifiers here. */
  lemma NewerKeywordsAreIdentifiers()
    ensures forall w :: w in {"rec", "else", "in", "true", "false"} ==> KeywordKind(w) == Identifier
  {
  }

  /** A code point that no earlier rule of `scan` claims and that may begin an identifier. */
  predicate StartsIdentifier(c: char, cls: S.Classifier)
  {
    !IsSymbolStart(c) && !S.IsWhitespace(c) && c != '"' && !S.IsDigit(c) && cls.identifierBegin(c)
  }

  /** An identifier takes every identifier-part code point after its first; its kind is a
      keyword exactly when the lexeme is one of the seven keywords. */
  lemma IdentifierOrKeyword(src: string, i: nat, cls: S.Classifier)
    requires i < |src| && StartsIdentifier(src[i], cls)
    ensures var r := Scan(src, i, cls);
      && r.Emitted? && i < r.end
      && (forall k :: i < k < r.end ==> cls.identifierPart(src[k]))
      && (r.end < |src| ==> !cls.identifierPart(src[r.end]))
      && r.token.lexeme == src[i..r.end] && r.token.where == PosAt(src, r.end)
      && (r.token.kind !in {Identifier} <==> r.token.lexeme in KEYWORDS)
  {
    S.SpanMaximal(src, i + 1, cls.identifierPart);
    assert Scan(src, i, cls) == ScanIdentifier(src, i, cls);
    KeywordTable(Scan(src, i, cls).token.lexeme);
  }

  // ---------------------------------------------------------------------------------------
  // Numbers

  /** The digits of a `0x`, `0b` or `0o` literal must be followed by white space or the end
      of the text: anything else raises "Literal numérico inválido" at the literal. */
  lemma RadixNeedsSeparator(src: string, i: nat, radix: nat, isDigit: char -> bool)
    requires i + 2 <= |src|
    ensures var end := S.Span(src, i + 2, isDigit);
      && (end < |src| && !S.IsWhitespace(src[end]) ==>
            ScanRadix(src, i, radix, isDigit) == Raise(end, INVALID_NUMBER, PosAt(src, i)))
      && (end == |src| || S.IsWhitespace(src[end]) ==>
            ScanRadix(src, i, radix, isDigit) == IntegerToken(src, i, i + 2, end, radix))
  {
  }

  /** `0x10;` raises: the `;` right after the digits is not white space. */
  lemma HexBeforeSemicolonRaises(cls: S.Classifier)
    ensures var src := "0x10;";
      Scan(src, 0, cls) == Raise(4, INVALID_NUMBER, Position(1, 1, src))
  {
    var src := "0x10;";
    assert src[0] == '0' && src[1] == 'x' && src[2] == '1' && src[3] == '0' && src[4] == ';';
    assert S.Span(src, 2, S.IsHexDigit) == 4;
  }

  /** `0xff` followed by white space is the INTEGER 255. */
  lemma HexThenSpace(cls: S.Classifier)
    ensures var src := "0xff ";
      Scan(src, 0, cls) == Emit(src, 0, 4, Integer, T.IntLiteral(255))
  {
    var src := "0xff ";
    assert src[0] == '0' && src[1] == 'x' && src[2] == 'f' && src[3] == 'f' && src[4] == ' ';
    assert S.Span(src, 2, S.IsHexDigit) == 4;
    assert src[2..4] == "ff";
    assert S.DigitsValue("ff", 16) == 255 by {
      assert "ff"[..1] == "f";
    }
  }

  /** A `.` after the digits of a decimal literal must be followed by a digit, otherwise the
      literal raises at its start, with the cursor just after the `.`. */
  lemma PointNeedsDigit(src: string, i: nat)
    requires i < |src|
    requires var end := S.Span(src, i + 1, S.IsDigit);
      S.At(src, end, '.') && !(end + 1 < |src| && S.IsDigit(src[end + 1]))
    ensures ScanDecimal(src, i) == Raise(S.Span(src, i + 1, S.IsDigit) + 1, DIGIT_AFTER_POINT, PosAt(src, i))
  {
  }

  /** Digits, a `.` and a digit make a FLOAT that takes every digit after the `.`, and keeps
      its lexeme as the literal. */
  lemma FloatLiteralScan(src: string, i: nat)
    requires i < |src|
    requires var end := S.Span(src, i + 1, S.IsDigit);
      S.At(src, end, '.') && end + 1 < |src| && S.IsDigit(src[end + 1])
    ensures var point := S.Span(src, i + 1, S.IsDigit);
      var r := ScanDecimal(src, i);
      && r.Emitted? && point + 1 < r.end
      && (forall k :: point < k < r.end ==> S.IsDigit(src[k]))
      && (r.end < |src| ==> !S.IsDigit(src[r.end]))
      && r.token == LegacyToken(src[i..r.end], Float, PosAt(src, r.end), T.FloatLiteral(src[i..r.end]))
  {
    var point := S.Span(src, i + 1, S.IsDigit);
    S.SpanMaximal(src, point + 1, S.IsDigit);
  }

  /** On a line without a carriage return before it, the position after `k` code points is
      column `k + 1` of line 1. */
  lemma {:induction false} PosAtFirstLine(src: string, k: nat)
    requires k <= |src| && forall n :: 0 <= n < k ==> src[n] != LINE_SEPARATOR
    ensures PosAt(src, k) == Position(1, k + 1, src)
  {
    if k > 0 {
      PosAtFirstLine(src, k - 1);
    }
  }

  /** The scans of `1..5`: the first raises at the 1, with the cursor after the first `.`. */
  lemma RangeFirstScan(src: string, cls: S.Classifier)
    requires src == "1..5"
    ensures Scan(src, 0, cls) == Raised(2, CompilerError(Lexical, DIGIT_AFTER_POINT, Position(1, 1, src)))
  {
    assert src[0] == '1' && src[1] == '.' && src[2] == '.';
    assert S.Span(src, 1, S.IsDigit) == 1;
    assert Scan(src, 0, cls) == ScanNumber(src, 0) == ScanDecimal(src, 0);
  }

  lemma RangeDotScan(src: string, cls: S.Classifier)
    requires src == "1..5"
    ensures Scan(src, 2, cls) == Emitted(3, LegacyToken(".", Dot, Position(1, 4, src), T.NoLiteral))
  {
    assert src[2] == '.' && src[3] == '5';
    PosAtFirstLine(src, 3);
    assert src[2..3] == ".";
  }

  lemma RangeLastScan(src: string, cls: S.Classifier)
    requires src == "1..5"
    ensures Scan(src, 3, cls) == Emitted(4, LegacyToken("5", Integer, Position(1, 5, src), T.IntLiteral(5)))
  {
    assert src[3] == '5';
    PosAtFirstLine(src, 4);
    assert S.Span(src, 4, S.IsDigit) == 4;
    assert Scan(src, 3, cls) == ScanNumber(src, 3) == ScanDecimal(src, 3);
    assert ScanDecimal(src, 3) == IntegerToken(src, 3, 3, 4, 10);
    assert src[3..4] == "5" && S.DigitsValue("5", 10) == 5;
  }

  lemma RangeEofScan(src: string, cls: S.Classifier)
    requires src == "1..5"
    ensures Scan(src, 4, cls) == Emitted(4, LegacyToken("", Eof, Position(1, 5, src), T.NoLiteral))
  {
    PosAtFirstLine(src, 4);
    assert src[4..4] == "";
  }

  /** After the error, the rest of `1..5` lexes as a DOT, an INTEGER and the EOF token. */
  lemma RangeRunAfterError(src: string, cls: S.Classifier, e: CompilerError)
    requires src == "1..5"
    ensures LexRun(src, 2, cls, [], [e]) == Finished([
        LegacyToken(".", Dot, Position(1, 4, src), T.NoLiteral),
        LegacyToken("5", Integer, Position(1, 5, src), T.IntLiteral(5)),
        LegacyToken("", Eof, Position(1, 5, src), T.NoLiteral)], [e])
  {
    RangeDotScan(src, cls);
    RangeLastScan(src, cls);
    RangeEofScan(src, cls);
    var dot := LegacyToken(".", Dot, Position(1, 4, src), T.NoLiteral);
    var five := LegacyToken("5", Integer, Position(1, 5, src), T.IntLiteral(5));
    var eof := LegacyToken("", Eof, Position(1, 5, src), T.NoLiteral);
    LexRunEmitted(src, 2, cls, [], [e], 3, dot);
    LexRunEmitted(src, 3, cls, [dot], [e], 4, five);
    LexRunEof(src, 4, cls, [dot, five], [e], 4, eof);
  }

  /** `1..5` is rejected: the `.` after the 1 is not followed by a digit. The scan resumes at
      the second `.`, so a DOT and an INTEGER follow, but `lex` returns the one error. */
  lemma RangeIsRejected(src: string, cls: S.Classifier)
    requires src == "1..5"
    ensures Lex(src, cls) == Lexed(Error([CompilerError(Lexical, DIGIT_AFTER_POINT, Position(1, 1, src))]))
  {
    var e := CompilerError(Lexical, DIGIT_AFTER_POINT, Position(1, 1, src));
    RangeFirstScan(src, cls);
    LexRunRaised(src, 0, cls, [], [], 2, e);
    assert [] + [e] == [e];
    RangeRunAfterError(src, cls, e);
    LexOfRun(src, cls, [
        LegacyToken(".", Dot, Position(1, 4, src), T.NoLiteral),
        LegacyToken("5", Integer, Position(1, 5, src), T.IntLiteral(5)),
        LegacyToken("", Eof, Position(1, 5, src), T.NoLiteral)], [e]);
  }

  // ---------------------------------------------------------------------------------------
  // Strings

  /** String content without a quote or a backslash; newlines may be part of it. */
  predicate PlainBetween(src: string, from: nat, to: nat)
    requires from <= to <= |src|
  {
    forall k :: from <= k < to ==> src[k] != '"' && src[k] != '\\'
  }

  /** Plain content is read over without anything happening. */
  lemma {:induction false} ScanStringSkipsPlain(src: string, begin: nat, j: nat, to: nat)
    requires begin < j <= to <= |src| && PlainBetween(src, j, to)
    ensures ScanString(src, begin, j, false) == ScanString(src, begin, to, false)
    decreases |src| - j
  {
    if j < to {
      ScanStringSkipsPlain(src, begin, j + 1, to);
    }
  }

  /** A quote, plain content and a closing quote make one STRING token whose value is the
      content, newlines included. */
  lemma ClosedPlainString(src: string, i: nat, j: nat, cls: S.Classifier)
    requires i < j < |src| && src[i] == '"' && src[j] == '"' && PlainBetween(src, i + 1, j)
    ensures Scan(src, i, cls) == Emit(src, i, j + 1, String, T.StringLiteral(src[i + 1..j]))
  {
    assert Scan(src, i, cls) == ScanStringLiteral(src, i);
    ScanStringSkipsPlain(src, i, i + 1, j);
    StringLiterals.UnescapeWithoutBackslash(src[i + 1..j]);
  }

  /** A quote and plain content up to the end of the text raise the error of the failed
      `match`: "fim do arquivo", one column back from the end. */
  lemma UnclosedPlainString(src: string, i: nat, cls: S.Classifier)
    requires i < |src| && src[i] == '"' && PlainBetween(src, i + 1, |src|)
    ensures Scan(src, i, cls) == Raise(|src|, ExpectedAtEnd("\""), PreviousColumn(PosAt(src, |src|)))
  {
    assert Scan(src, i, cls) == ScanStringLiteral(src, i);
    ScanStringSkipsPlain(src, i, i + 1, |src|);
  }

  /** A quote, plain content, then a backslash before a code point that no escape uses: the
      literal is consumed through the next quote and "Escape inválido" is raised at the
      backslash, with no STRING token; with no quote left, the failed `match` raises at the
      end of the text instead. */
  lemma InvalidEscapeRaises(src: string, i: nat, j: nat, cls: S.Classifier)
    requires i + 1 < j < |src| && src[i] == '"' && PlainBetween(src, i + 1, j - 1)
    requires src[j - 1] == '\\' && !StringLiterals.IsEscapeLetter(src[j])
    ensures var k := S.Span(src, j + 1, NotQuote);
      Scan(src, i, cls)
        == if k < |src| then Raise(k + 1, S.INVALID_ESCAPE, PreviousColumn(PosAt(src, j)))
           else Raise(k, ExpectedAtEnd("\""), PreviousColumn(PosAt(src, k)))
  {
    assert Scan(src, i, cls) == ScanStringLiteral(src, i);
    ScanStringSkipsPlain(src, i, i + 1, j - 1);
    assert ScanString(src, i, j - 1, false) == ScanString(src, i, j, true);
  }

  /** For instance `"\q"` raises "Escape inválido" at the backslash, column 2 of line 1. */
  lemma InvalidEscapeExample(cls: S.Classifier)
    ensures var src := "\"\\q\"";
      Scan(src, 0, cls) == Raise(4, S.INVALID_ESCAPE, Position(1, 2, src))
  {
    var src := "\"\\q\"";
    assert src[0] == '"' && src[1] == '\\' && src[2] == 'q' && src[3] == '"';
    PosAtFirstLine(src, 2);
    assert S.Span(src, 3, NotQuote) == 3;
    InvalidEscapeRaises(src, 0, 2, cls);
  }

  /** `lex` of that literal returns the one error. */
  lemma InvalidEscapeLexes(cls: S.Classifier)
    ensures var src := "\"\\q\"";
      Lex(src, cls) == Lexed(Error([CompilerError(Lexical, S.INVALID_ESCAPE, Position(1, 2, src))]))
  {
    var src := "\"\\q\"";
    InvalidEscapeExample(cls);
    var e := CompilerError(Lexical, S.INVALID_ESCAPE, Position(1, 2, src));
    var eof := LegacyToken("", Eof, PosAt(src, 4), T.NoLiteral);
    assert src[4..4] == "";
    assert Scan(src, 4, cls) == Emitted(4, eof);
    LexRunRaised(src, 0, cls, [], [], 4, e);
    LexRunEof(src, 4, cls, [], [e], 4, eof);
    LexOfRun(src, cls, [eof], [e]);
  }

  // ---------------------------------------------------------------------------------------
  // Positions

  /** A line feed only moves one column on; the carriage return is what starts a new line. */
  lemma OnlyCarriageReturnStartsALine()
    ensures PosAt("a\nb", 3) == Position(1, 4, "a\nb")
    ensures PosAt("a\rb", 3) == Position(2, 2, "a\rb")
  {
    PosAtFirstLine("a\nb", 3);
    var s := "a\rb";
    assert s[0] == 'a' && s[1] == '\r' && s[2] == 'b';
  }
}
