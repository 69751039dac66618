/** Properties of the current lexer, stated against LexerSpec: maximal munch for operators,
    what comments, white space, identifiers, numbers and strings produce, and small texts
    lexed end to end. */
module LexerProperties {
  import opened Wrappers
  import opened FilePosition
  import opened Tokens
  import opened Diagnostics
  import opened LexerSpec
  import StringLiterals

  /** The operators and punctuation marks of one code point, with their kinds. */
  const SINGLE_OPERATORS: map<char, TokenKind> := map[
    '(' := LParen, ')' := RParen, '[' := LBracket, ']' := RBracket, '{' := LCurly, '}' := RCurly,
    ':' := Colon, ';' := Semicolon, '#' := Hash, ',' := Comma,
    '=' := Equal, '%' := Percent, '!' := Bang, '+' := Plus, '-' := Minus, '/' := Slash,
    '*' := Star, '^' := Hat, '<' := Lesser, '>' := Greater, '.' := Dot]

  /** The operators of two code points, with their kinds. */
  const DOUBLE_OPERATORS: map<(char, char), TokenKind> := map[
    ('=', '=') := EqualEqual, ('%', '=') := PercentEqual, ('!', '=') := BangEqual,
    ('+', '=') := PlusEqual, ('-', '=') := MinusEqual, ('-', '>') := Arrow, ('/', '=') := SlashEqual,
    ('*', '=') := StarEqual, ('^', '=') := HatEqual, ('<', '=') := LesserEqual,
    ('>', '=') := GreaterEqual, ('.', '.') := DotDot, ('&', '&') := And, ('|', '|') := Or]

  /** The length of the longest operator that starts at `i`: 2, 1, or 0 when there is none. */
  function LongestOperator(src: string, i: nat): (n: nat)
    requires i < |src|
    ensures n <= 2 && i + n <= |src|
    ensures n == 2 <==> i + 1 < |src| && (src[i], src[i + 1]) in DOUBLE_OPERATORS
    ensures n == 1 ==> src[i] in SINGLE_OPERATORS
    ensures n == 0 ==> src[i] !in SINGLE_OPERATORS
  {
    if i + 1 < |src| && (src[i], src[i + 1]) in DOUBLE_OPERATORS then 2
    else if src[i] in SINGLE_OPERATORS then 1
    else 0
  }

  /** The scan `r` from `i` records the longest operator that starts at `i` and nothing
      else, or, where no operator starts there, one error and no token. */
  ghost predicate Munches(src: string, i: nat, r: Scanned)
    requires i < |src|
  {
    var n := LongestOperator(src, i);
    && (n == 2 ==> r == Emit(src, i, i + 2, DOUBLE_OPERATORS[(src[i], src[i + 1])], NoLiteral))
    && (n == 1 ==> r == Emit(src, i, i + 1, SINGLE_OPERATORS[src[i]], NoLiteral))
    && (n == 0 ==> r.Scanned? && r.lexemeStart == i && r.end == i + 1 && r.tokens == [] && |r.errors| == 1)
  }

  /** The first code points of the two-code-point operators. */
  lemma DoubleStarts(c: char, d: char)
    requires (c, d) in DOUBLE_OPERATORS
    ensures EqualPair(c).Some? || c in {'-', '/', '.', '&', '|'}
    ensures EqualPair(c).Some? || c == '/' ==> d == '=' && DOUBLE_OPERATORS[(c, d)] == (if c == '/' then SlashEqual else EqualPair(c).value.1)
    ensures c == '-' ==> d in {'=', '>'}
    ensures c in {'.', '&', '|'} ==> d == c
  {
  }

  /** A one-code-point punctuation mark is in the table of single operators with its kind. */
  lemma SingleInTable(c: char)
    requires SingleKind(c).Some?
    ensures c in SINGLE_OPERATORS && SINGLE_OPERATORS[c] == SingleKind(c).value
  {
    match c
    case '(' => assert SINGLE_OPERATORS['('] == LParen;
    case ')' => assert SINGLE_OPERATORS[')'] == RParen;
    case '[' => assert SINGLE_OPERATORS['['] == LBracket;
    case ']' => assert SINGLE_OPERATORS[']'] == RBracket;
    case '{' => assert SINGLE_OPERATORS['{'] == LCurly;
    case '}' => assert SINGLE_OPERATORS['}'] == RCurly;
    case ':' => assert SINGLE_OPERATORS[':'] == Colon;
    case ';' => assert SINGLE_OPERATORS[';'] == Semicolon;
    case '#' => assert SINGLE_OPERATORS['#'] == Hash;
    case ',' => assert SINGLE_OPERATORS[','] == Comma;
    case _ =>
  }

  /** A lone single-operator code point starts no other kind of symbol. */
  lemma SingleIsLone(c: char)
    requires SingleKind(c).Some?
    ensures EqualPair(c).None? && c !in {'-', '/', '.', '&', '|'}
  {
  }

  /** A code point of an `=`-pair is a single operator... */
  lemma PairInSingles(c: char)
    requires EqualPair(c).Some?
    ensures c in SINGLE_OPERATORS && SINGLE_OPERATORS[c] == EqualPair(c).value.0
  {
  }

  /** ...and, followed by `=`, a double one. */
  lemma PairInDoubles(c: char)
    requires EqualPair(c).Some?
    ensures (c, '=') in DOUBLE_OPERATORS && DOUBLE_OPERATORS[(c, '=')] == EqualPair(c).value.1
  {
    match c
    case '=' => assert DOUBLE_OPERATORS[('=', '=')] == EqualEqual;
    case '%' => assert DOUBLE_OPERATORS[('%', '=')] == PercentEqual;
    case '!' => assert DOUBLE_OPERATORS[('!', '=')] == BangEqual;
    case '+' => assert DOUBLE_OPERATORS[('+', '=')] == PlusEqual;
    case '*' => assert DOUBLE_OPERATORS[('*', '=')] == StarEqual;
    case '^' => assert DOUBLE_OPERATORS[('^', '=')] == HatEqual;
    case '<' => assert DOUBLE_OPERATORS[('<', '=')] == LesserEqual;
    case '>' => assert DOUBLE_OPERATORS[('>', '=')] == GreaterEqual;
  }

  lemma SingleMunch(src: string, i: nat)
    requires i < |src| && SingleKind(src[i]).Some?
    ensures Munches(src, i, ScanSymbol(src, i))
  {
    var c := src[i];
    SingleInTable(c);
    SingleIsLone(c);
    if i + 1 < |src| && (c, src[i + 1]) in DOUBLE_OPERATORS {
      DoubleStarts(c, src[i + 1]);
    }
  }

  lemma EqualPairMunch(src: string, i: nat)
    requires i < |src| && EqualPair(src[i]).Some?
    ensures Munches(src, i, ScanSymbol(src, i))
  {
    if At(src, i + 1, '=') {
      EqualPairThenEqual(src, i);
    } else {
      EqualPairAlone(src, i);
    }
  }

  lemma EqualPairThenEqual(src: string, i: nat)
    requires i < |src| && EqualPair(src[i]).Some? && At(src, i + 1, '=')
    ensures Munches(src, i, ScanSymbol(src, i))
  {
    var c := src[i];
    assert ScanSymbol(src, i) == ScanEqualPair(src, i);
    PairInDoubles(c);
    assert LongestOperator(src, i) == 2;
  }

  lemma EqualPairAlone(src: string, i: nat)
    requires i < |src| && EqualPair(src[i]).Some? && !At(src, i + 1, '=')
    ensures Munches(src, i, ScanSymbol(src, i))
  {
    var c := src[i];
    assert ScanSymbol(src, i) == ScanEqualPair(src, i);
    if i + 1 < |src| && (c, src[i + 1]) in DOUBLE_OPERATORS {
      DoubleStarts(c, src[i + 1]);
    }
    PairInSingles(c);
    assert LongestOperator(src, i) == 1;
  }

  lemma MinusMunch(src: string, i: nat)
    requires i < |src| && src[i] == '-'
    ensures Munches(src, i, ScanSymbol(src, i))
  {
    if i + 1 < |src| && ('-', src[i + 1]) in DOUBLE_OPERATORS {
      DoubleStarts('-', src[i + 1]);
    }
  }

  lemma SlashMunch(src: string, i: nat)
    requires i < |src| && src[i] == '/' && !At(src, i + 1, '/')
    ensures Munches(src, i, ScanSymbol(src, i))
  {
    if i + 1 < |src| && ('/', src[i + 1]) in DOUBLE_OPERATORS {
      DoubleStarts('/', src[i + 1]);
    }
  }

  lemma DotMunch(src: string, i: nat)
    requires i < |src| && src[i] == '.'
    ensures Munches(src, i, ScanSymbol(src, i))
  {
    if i + 1 < |src| && ('.', src[i + 1]) in DOUBLE_OPERATORS {
      DoubleStarts('.', src[i + 1]);
    }
  }

  lemma AmpersandMunch(src: string, i: nat)
    requires i < |src| && src[i] == '&'
    ensures Munches(src, i, ScanSymbol(src, i))
  {
    if i + 1 < |src| && ('&', src[i + 1]) in DOUBLE_OPERATORS {
      DoubleStarts('&', src[i + 1]);
    }
  }

  lemma BarMunch(src: string, i: nat)
    requires i < |src| && src[i] == '|'
    ensures Munches(src, i, ScanSymbol(src, i))
  {
    if i + 1 < |src| && ('|', src[i + 1]) in DOUBLE_OPERATORS {
      DoubleStarts('|', src[i + 1]);
    }
  }

  /** Operators are read by maximal munch: a scan at a code point that begins an operator
      records the longest operator that starts there, and nothing else; where none does (a
      lone `&` or `|`) it records one error and no token. `//` begins a comment instead. */
  lemma MaximalMunch(src: string, i: nat, cls: Classifier)
    requires i < |src| && IsSymbolStart(src[i]) && !(src[i] == '/' && At(src, i + 1, '/'))
    ensures Munches(src, i, Scan(src, i, cls))
  {
    var c := src[i];
    if SingleKind(c).Some? {
      SingleMunch(src, i);
    } else if EqualPair(c).Some? {
      EqualPairMunch(src, i);
    } else if c == '-' {
      MinusMunch(src, i);
    } else if c == '/' {
      SlashMunch(src, i);
    } else if c == '.' {
      DotMunch(src, i);
    } else if c == '&' {
      AmpersandMunch(src, i);
    } else {
      BarMunch(src, i);
    }
  }

  /** A line comment runs up to, not including, the next newline or the end of the text; it
      records nothing, and the next lexeme starts after it. */
  lemma CommentEmitsNothing(src: string, i: nat, cls: Classifier)
    requires i + 1 < |src| && src[i] == '/' && src[i + 1] == '/'
    ensures var r := Scan(src, i, cls);
      && r.Scanned? && r.tokens == [] && r.errors == [] && r.lexemeStart == r.end
      && i + 2 <= r.end && (r.end == |src| || src[r.end] == '\n')
      && forall k :: i + 2 <= k < r.end ==> src[k] != '\n'
  {
    SpanMaximal(src, i + 2, NotNewline);
  }

  /** A run of white space is consumed whole and records nothing. */
  lemma WhitespaceEmitsNothing(src: string, i: nat, cls: Classifier)
    requires i < |src| && IsWhitespace(src[i])
    ensures var r := Scan(src, i, cls);
      && r.Scanned? && r.tokens == [] && r.errors == [] && r.lexemeStart == i
      && (forall k :: i <= k < r.end ==> IsWhitespace(src[k]))
      && (r.end < |src| ==> !IsWhitespace(src[r.end]))
  {
    SpanMaximal(src, i + 1, IsWhitespace);
  }

  /** A code point that no earlier rule of `scan` claims and that may begin an identifier. */
  predicate StartsIdentifier(c: char, cls: Classifier)
  {
    !IsSymbolStart(c) && !IsWhitespace(c) && c != '"' && !IsDigit(c) && cls.identifierBegin(c)
  }

  /** An identifier takes every identifier-part code point after its first, and its token is
      a keyword exactly when the lexeme is one of the twelve keywords. */
  lemma IdentifierOrKeyword(src: string, i: nat, cls: Classifier)
    requires i < |src| && StartsIdentifier(src[i], cls)
    ensures var r := Scan(src, i, cls);
      && r.Scanned? && r.errors == [] && r.lexemeStart == i && |r.tokens| == 1
      && (forall k :: i < k < r.end ==> cls.identifierPart(src[k]))
      && (r.end < |src| ==> !cls.identifierPart(src[r.end]))
      && r.tokens[0].lexeme == src[i..r.end] && r.tokens[0].where == PosAt(src, r.end)
      && r.tokens[0].literal == NoLiteral
      && (r.tokens[0].kind !in {Identifier} <==> r.tokens[0].lexeme in KEYWORDS)
  {
    SpanMaximal(src, i + 1, cls.identifierPart);
    var r := Scan(src, i, cls);
    KeywordTable(r.tokens[0].lexeme);
  }

  /** How a keyword kind is spelled. */
  function KeywordSpelling(k: TokenKind): string
  {
    match k
    case Fn => "fn"
    case Rec => "rec"
    case Let => "let"
    case For => "for"
    case While => "while"
    case Return => "return"
    case If => "if"
    case Debug => "debug"
    case Else => "else"
    case In => "in"
    case True => "true"
    case False => "false"
    case _ => ""
  }

  /** Each keyword's kind spells that keyword, so different keywords get different kinds. */
  lemma KeywordKindSpelled(w: string)
    requires w in KEYWORDS
    ensures KeywordSpelling(KeywordKind(w)) == w
  {
  }

  /** What a `0x`, `0b` or `0o` literal at `i` scans to: the longest run of digits of the
      radix after the prefix, read as an INTEGER of their value; a crash where there is no
      digit or the value exceeds Long.MAX_VALUE. */
  ghost predicate RadixShape(src: string, i: nat, radix: nat, isDigit: char -> bool, r: Scanned)
    requires i + 2 <= |src|
  {
    var end := Span(src, i + 2, isDigit);
    && (forall k :: i + 2 <= k < end ==> isDigit(src[k]))
    && (end < |src| ==> !isDigit(src[end]))
    && (r.Crash? <==> end == i + 2 || DigitsValue(src[i + 2..end], radix) > MAX_LONG)
    && (r.Scanned? ==>
          r == Scanned(end, [Token(src[i..end], Integer, PosAt(src, end), IntLiteral(DigitsValue(src[i + 2..end], radix)))], [], i))
  }

  lemma HexLiteral(src: string, i: nat, cls: Classifier)
    requires i + 1 < |src| && src[i] == '0' && src[i + 1] == 'x'
    ensures RadixShape(src, i, 16, IsHexDigit, Scan(src, i, cls))
  {
    SpanMaximal(src, i + 2, IsHexDigit);
  }

  lemma BinaryLiteral(src: string, i: nat, cls: Classifier)
    requires i + 1 < |src| && src[i] == '0' && src[i + 1] == 'b'
    ensures RadixShape(src, i, 2, IsBinaryDigit, Scan(src, i, cls))
  {
    SpanMaximal(src, i + 2, IsBinaryDigit);
  }

  lemma OctalLiteral(src: string, i: nat, cls: Classifier)
    requires i + 1 < |src| && src[i] == '0' && src[i + 1] == 'o'
    ensures RadixShape(src, i, 8, IsOctalDigit, Scan(src, i, cls))
  {
    SpanMaximal(src, i + 2, IsOctalDigit);
  }

  /** A digit that does not begin a radix prefix begins a decimal literal. */
  predicate StartsDecimal(src: string, i: nat)
    requires i < |src|
  {
    IsDigit(src[i]) && !(src[i] == '0' && (At(src, i + 1, 'x') || At(src, i + 1, 'b') || At(src, i + 1, 'o')))
  }

  /** Without a radix prefix, a number is scanned as a decimal literal. */
  lemma DecimalNumber(src: string, i: nat)
    requires i < |src| && StartsDecimal(src, i)
    ensures ScanNumber(src, i) == ScanDecimal(src, i)
  {
  }

  /** A decimal literal is a FLOAT when a fraction follows its integer digits, else an INTEGER. */
  lemma DecimalCases(src: string, i: nat)
    requires i < |src| && IsDigit(src[i])
    ensures HasFraction(src, IntegerPart(src, i)) ==> ScanDecimal(src, i) == FloatToken(src, i, IntegerPart(src, i))
    ensures !HasFraction(src, IntegerPart(src, i)) ==> ScanDecimal(src, i) == IntegerToken(src, i, i, IntegerPart(src, i), 10)
  {
  }

  /** A digit begins a number literal. */
  lemma ScanIsNumber(src: string, i: nat, cls: Classifier)
    requires i < |src| && IsDigit(src[i])
    ensures Scan(src, i, cls) == ScanNumber(src, i)
  {
  }

  /** The end of the integer digits of the decimal literal at `i`. */
  function IntegerPart(src: string, i: nat): (end: nat)
    requires i < |src| && IsDigit(src[i])
    ensures i < end <= |src|
    ensures forall k :: i <= k < end ==> IsDigit(src[k])
    ensures end < |src| ==> !IsDigit(src[end])
  {
    SpanMaximal(src, i + 1, IsDigit);
    Span(src, i + 1, IsDigit)
  }

  /** The integer digits are followed by a `.` and a digit. */
  predicate HasFraction(src: string, end: nat)
  {
    At(src, end, '.') && end + 1 < |src| && IsDigit(src[end + 1])
  }

  /** The end of the fraction digits after the `.` at `point`. */
  function FractionEnd(src: string, point: nat): (end: nat)
    requires point + 1 < |src| && IsDigit(src[point + 1])
    ensures point + 1 < end <= |src|
    ensures forall k :: point < k < end ==> IsDigit(src[k])
    ensures end < |src| ==> !IsDigit(src[end])
  {
    SpanMaximal(src, point + 1, IsDigit);
    Span(src, point + 1, IsDigit)
  }

  /** Decimal digits, a `.` and a digit make a FLOAT that takes every digit after the `.`;
      the token keeps the lexeme as its literal. */
  lemma FloatLiteralScan(src: string, i: nat, cls: Classifier)
    requires i < |src| && StartsDecimal(src, i) && HasFraction(src, IntegerPart(src, i))
    ensures var end := FractionEnd(src, IntegerPart(src, i));
      Scan(src, i, cls) == Scanned(end, [Token(src[i..end], Float, PosAt(src, end), FloatLiteral(src[i..end]))], [], i)
  {
    var point := IntegerPart(src, i);
    var end := FractionEnd(src, point);
    ScanIsNumber(src, i, cls);
    DecimalNumber(src, i);
    DecimalCases(src, i);
    assert ScanDecimal(src, i) == FloatToken(src, i, point);
  }

  /** Decimal digits not followed by a `.` and a digit make an INTEGER of their value, or a
      crash above Long.MAX_VALUE; the `.` is left for the next scan. */
  lemma IntegerLiteralScan(src: string, i: nat, cls: Classifier)
    requires i < |src| && StartsDecimal(src, i) && !HasFraction(src, IntegerPart(src, i))
    ensures var end := IntegerPart(src, i);
      var r := Scan(src, i, cls);
      && (r.Crash? <==> DigitsValue(src[i..end], 10) > MAX_LONG)
      && (r.Scanned? ==>
            r == Scanned(end, [Token(src[i..end], Integer, PosAt(src, end), IntLiteral(DigitsValue(src[i..end], 10)))], [], i))
  {
    var end := IntegerPart(src, i);
    ScanIsNumber(src, i, cls);
    DecimalNumber(src, i);
    DecimalCases(src, i);
  }

  /** A string scan is StringShape: the STRING token up to the closing quote with the decoded
      body, after one "Escape inválido" per invalid escape; or, at a newline or the end of
      the text, no token and "String não fechada" last. */
  lemma StringLiteralScan(src: string, i: nat, cls: Classifier)
    requires i < |src| && src[i] == '"'
    ensures StringShape(src, i, [], Scan(src, i, cls))
  {
    ScanStringLiteralShape(src, i);
  }

  /** Plain string content: no quote, newline or backslash. */
  predicate PlainBetween(src: string, from: nat, to: nat)
    requires from <= to <= |src|
  {
    forall k :: from <= k < to ==> src[k] != '"' && src[k] != '\n' && src[k] != '\\'
  }

  /** Plain content is skipped over without recording anything. */
  lemma {:induction false} ScanStringSkipsPlain(src: string, begin: nat, j: nat, to: nat, errors: seq<CompilerError>)
    requires begin < j <= to <= |src| && PlainBetween(src, j, to)
    ensures ScanString(src, begin, j, errors) == ScanString(src, begin, to, errors)
    decreases |src| - j
  {
    if j < to {
      ScanStringSkipsPlain(src, begin, j + 1, to, errors);
    }
  }

  /** A quote, plain content and a closing quote make one STRING token whose value is the
      content, and record nothing. */
  lemma ClosedPlainString(src: string, i: nat, j: nat, cls: Classifier)
    requires i < j < |src| && src[i] == '"' && src[j] == '"' && PlainBetween(src, i + 1, j)
    ensures Scan(src, i, cls) == Scanned(j + 1, [Token(src[i..j + 1], String, PosAt(src, j + 1), StringLiteral(src[i + 1..j]))], [], i)
  {
    ScanStringSkipsPlain(src, i, i + 1, j, []);
    StringLiterals.UnescapeWithoutBackslash(src[i + 1..j]);
  }

  /** A quote and plain content up to a newline or the end record "String não fechada" and
      no token, and stop before the newline. */
  lemma UnclosedPlainString(src: string, i: nat, j: nat, cls: Classifier)
    requires i < j <= |src| && src[i] == '"' && (j == |src| || src[j] == '\n') && PlainBetween(src, i + 1, j)
    ensures Scan(src, i, cls) == Scanned(j, [], [LexError(src, i, UNCLOSED_STRING)], i)
  {
    ScanStringSkipsPlain(src, i, i + 1, j, []);
  }

  /** A quote, plain content, a backslash before a code point that no escape uses, more plain
      content and a closing quote: "Escape inválido" is recorded once at the quote, and the
      STRING token is still emitted, its value the body as written, backslash kept. */
  lemma InvalidEscapeStillEmits(src: string, i: nat, j: nat, k: nat, cls: Classifier)
    requires i < j && j + 1 < k < |src| && src[i] == '"' && PlainBetween(src, i + 1, j)
    requires src[j] == '\\' && !StringLiterals.IsEscapeLetter(src[j + 1])
    requires PlainBetween(src, j + 2, k) && src[k] == '"'
    ensures Scan(src, i, cls)
      == Scanned(k + 1, [Token(src[i..k + 1], String, PosAt(src, k + 1), StringLiteral(src[i + 1..k]))],
                 [LexError(src, i, INVALID_ESCAPE)], i)
  {
    InvalidEscapeSkipped(src, i, j, k);
    assert src[i + 1..k] == src[i + 1..j] + ['\\', src[j + 1]] + src[j + 2..k];
    StringLiterals.UnescapeKeepsBody(src[i + 1..j], src[j + 1], src[j + 2..k]);
  }

  /** The string loop of InvalidEscapeStillEmits: it reads on to the closing quote with one
      "Escape inválido" recorded. */
  lemma InvalidEscapeSkipped(src: string, i: nat, j: nat, k: nat)
    requires i < j && j + 1 < k < |src| && PlainBetween(src, i + 1, j)
    requires src[j] == '\\' && !StringLiterals.IsEscapeLetter(src[j + 1]) && PlainBetween(src, j + 2, k)
    ensures ScanString(src, i, i + 1, []) == ScanString(src, i, k, [LexError(src, i, INVALID_ESCAPE)])
  {
    var e := [LexError(src, i, INVALID_ESCAPE)];
    ScanStringSkipsPlain(src, i, i + 1, j, []);
    assert ScanString(src, i, j, []) == ScanString(src, i, j + 2, [] + e);
    assert [] + e == e;
    ScanStringSkipsPlain(src, i, j + 2, k, e);
  }

  /** For instance `"\q"` records "Escape inválido" and still emits its STRING token. */
  lemma InvalidEscapeExample(cls: Classifier)
    ensures var src := "\"\\q\"";
      Scan(src, 0, cls) == Scanned(4, [Token(src, String, PosAt(src, 4), StringLiteral("\\q"))], [LexError(src, 0, INVALID_ESCAPE)], 0)
  {
    var src := "\"\\q\"";
    assert src[0] == '"' && src[1] == '\\' && src[2] == 'q' && src[3] == '"';
    InvalidEscapeStillEmits(src, 0, 1, 3, cls);
    assert src[0..4] == src;
    assert src[1..3] == "\\q";
  }

  /** On a line without a newline before it, the position after `k` code points is column
      `k + 1` of line 1. */
  lemma {:induction false} PosAtFirstLine(src: string, k: nat)
    requires k <= |src| && forall n :: 0 <= n < k ==> src[n] != '\n'
    ensures PosAt(src, k) == Position(1, k + 1, src)
  {
    if k > 0 {
      PosAtFirstLine(src, k - 1);
    }
  }

  /** The integer scans of `1..5`. */
  lemma RangeFirstScan(cls: Classifier)
    ensures var src := "1..5";
      Scan(src, 0, cls) == Scanned(1, [Token("1", Integer, Position(1, 2, src), IntLiteral(1))], [], 0)
  {
    var src := "1..5";
    assert src[0] == '1' && src[1] == '.' && src[2] == '.';
    ScanIsNumber(src, 0, cls);
    PosAtFirstLine(src, 1);
    assert Span(src, 1, IsDigit) == 1;
    assert ScanNumber(src, 0) == IntegerToken(src, 0, 0, 1, 10);
    assert src[0..1] == "1" && DigitsValue("1", 10) == 1;
  }

  lemma RangeLastScan(cls: Classifier)
    ensures var src := "1..5";
      Scan(src, 3, cls) == Scanned(4, [Token("5", Integer, Position(1, 5, src), IntLiteral(5))], [], 3)
  {
    var src := "1..5";
    assert src[3] == '5';
    ScanIsNumber(src, 3, cls);
    PosAtFirstLine(src, 4);
    assert Span(src, 4, IsDigit) == 4;
    assert ScanNumber(src, 3) == IntegerToken(src, 3, 3, 4, 10);
    assert src[3..4] == "5" && DigitsValue("5", 10) == 5;
  }

  /** The `..` scan of `1..5`. */
  lemma RangeDotDotScan(cls: Classifier)
    ensures var src := "1..5";
      Scan(src, 1, cls) == Scanned(3, [Token("..", DotDot, Position(1, 4, src), NoLiteral)], [], 1)
  {
    var src := "1..5";
    assert src[1] == '.' && src[2] == '.';
    PosAtFirstLine(src, 3);
    assert src[1..3] == "..";
  }

  /** One turn of the loop: the scan from `i` and the rest of the loop after it. */
  lemma LexRunStep(src: string, i: nat, cls: Classifier, tokens: seq<Token>, errors: seq<CompilerError>, begin: nat, s: Scanned)
    requires begin <= i < |src| && Scan(src, i, cls) == s && s.Scanned?
    ensures s.lexemeStart <= s.end <= |src|
    ensures LexRun(src, i, cls, tokens, errors, begin) == LexRun(src, s.end, cls, tokens + s.tokens, errors + s.errors, s.lexemeStart)
  {
  }

  /** The first two scans of `1..5` record the INTEGER 1 and the DOT_DOT. */
  lemma RangeFirstSteps(cls: Classifier)
    ensures var src := "1..5";
      LexRun(src, 0, cls, [], [], 0) == LexRun(src, 3, cls, [
        Token("1", Integer, Position(1, 2, src), IntLiteral(1)),
        Token("..", DotDot, Position(1, 4, src), NoLiteral)], [], 1)
  {
    var src := "1..5";
    RangeFirstScan(cls);
    RangeDotDotScan(cls);
    var t1 := Token("1", Integer, Position(1, 2, src), IntLiteral(1));
    var t2 := Token("..", DotDot, Position(1, 4, src), NoLiteral);
    var none: seq<CompilerError> := [];
    LexRunStep(src, 0, cls, [], none, 0, Scanned(1, [t1], none, 0));
    assert [] + [t1] == [t1] && none + none == none;
    LexRunStep(src, 1, cls, [t1], none, 0, Scanned(3, [t2], none, 1));
    assert [t1] + [t2] == [t1, t2];
  }

  /** `1..5` is an INTEGER, a DOT_DOT and an INTEGER: the `.` after the 1 is not followed by a
      digit, so it does not start a fraction. The EOF token spells the last lexeme. */
  lemma RangeLexesAsIntegers(cls: Classifier)
    ensures var src := "1..5";
      Lex(src, cls) == Lexed(Success([
        Token("1", Integer, Position(1, 2, src), IntLiteral(1)),
        Token("..", DotDot, Position(1, 4, src), NoLiteral),
        Token("5", Integer, Position(1, 5, src), IntLiteral(5)),
        Token("5", Eof, Position(1, 5, src), NoLiteral)]))
  {
    var src := "1..5";
    RangeFirstSteps(cls);
    RangeLastScan(cls);
    PosAtFirstLine(src, 4);
    assert src[3..4] == "5";
    var t1 := Token("1", Integer, Position(1, 2, src), IntLiteral(1));
    var t2 := Token("..", DotDot, Position(1, 4, src), NoLiteral);
    var t3 := Token("5", Integer, Position(1, 5, src), IntLiteral(5));
    var eof := Token("5", Eof, Position(1, 5, src), NoLiteral);
    var none: seq<CompilerError> := [];
    LexRunStep(src, 3, cls, [t1, t2], none, 1, Scanned(4, [t3], none, 3));
    assert [t1, t2] + [t3] == [t1, t2, t3] && none + none == none;
    assert LexRun(src, 4, cls, [t1, t2, t3], none, 3) == Finished([t1, t2, t3, eof], none);
  }

  /** The scan of `0xff`. */
  lemma HexScan(cls: Classifier)
    ensures var src := "0xff";
      Scan(src, 0, cls) == Scanned(4, [Token("0xff", Integer, Position(1, 5, src), IntLiteral(255))], [], 0)
  {
    var src := "0xff";
    assert src[0] == '0' && src[1] == 'x' && src[2] == 'f' && src[3] == 'f';
    PosAtFirstLine(src, 4);
    assert Span(src, 2, IsHexDigit) == 4;
    assert src[2..4] == "ff" && src[0..4] == src;
    assert DigitsValue("ff", 16) == 255 by {
      assert "ff"[..1] == "f";
    }
  }

  /** `0xff` is one INTEGER of value 255; `0x` with no digit makes Long.parseLong throw. */
  lemma HexExamples(cls: Classifier)
    ensures var src := "0xff";
      Lex(src, cls) == Lexed(Success([
        Token("0xff", Integer, Position(1, 5, src), IntLiteral(255)),
        Token("0xff", Eof, Position(1, 5, src), NoLiteral)]))
    ensures Lex("0x", cls) == LexCrash
  {
    var src := "0xff";
    HexScan(cls);
    PosAtFirstLine(src, 4);
    assert src[0..4] == src;
    var t := Token("0xff", Integer, Position(1, 5, src), IntLiteral(255));
    assert LexRun(src, 0, cls, [], [], 0) == LexRun(src, 4, cls, [t], [], 0);
    assert LexRun(src, 4, cls, [t], [], 0) == Finished([t, Token("0xff", Eof, Position(1, 5, src), NoLiteral)], []);
    var empty := "0x";
    assert empty[0] == '0' && empty[1] == 'x';
    assert Span(empty, 2, IsHexDigit) == 2;
    assert empty[2..2] == "";
    assert Scan(empty, 0, cls) == Crash;
  }
}
