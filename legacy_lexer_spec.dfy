/** What the earlier lexer (popsi.Lexer) computes, as functions over the source text. A scan
    skips white space and comments by starting over, then returns one token or raises one
    error; `lex` records raised errors and scans on until it has added the EOF token. */
module LegacyLexerSpec {
  import opened Wrappers
  import opened FilePosition
  import opened Diagnostics
  import opened LegacyTokens
  import T = Tokens
  import S = LexerSpec
  import StringLiterals

  const LONE_AMPERSAND := "Símbolo não reconhecido (esperava '&&', encontrou '&')"
  const LONE_BAR := "Símbolo não reconhecido (esperava '||', encontrou '|')"
  const INVALID_NUMBER := "Literal numérico inválido"
  const DIGIT_AFTER_POINT := "Literal numérico inválido: esperava dígito após o ponto"

  /** The message of a failed `match` at the end of the text. */
  function ExpectedAtEnd(expected: string): string
  {
    "Esperava " + expected + ", encontrado fim do arquivo"
  }

  /** The message of a failed `match` that read `found` instead. */
  function ExpectedFound(expected: string, found: string): string
  {
    "Esperava " + expected + ", encontrado \"" + found + "\""
  }

  /** Character.LINE_SEPARATOR is the general-category constant 13; compared with a code
      point it singles out the carriage return. */
  const LINE_SEPARATOR: char := 13 as char

  /** The position after the first `k` code points: a carriage return moves to the next
      line, any other code point (a line feed too) one column on. */
  function PosAt(src: string, k: nat): Position
    requires k <= |src|
  {
    if k == 0 then Start(src)
    else if src[k - 1] == LINE_SEPARATOR then NextLine(PosAt(src, k - 1))
    else NextColumn(PosAt(src, k - 1))
  }

  /** The line is one more than the number of carriage returns before the position. */
  lemma {:induction false} LinesCountCarriageReturns(src: string, k: nat)
    requires k <= |src|
    ensures PosAt(src, k).line == 1 + |set n | 0 <= n < k && src[n] == '\r'|
    ensures PosAt(src, k).src == src && PosAt(src, k).column >= 1
  {
    if k > 0 {
      LinesCountCarriageReturns(src, k - 1);
      var before := set n | 0 <= n < k - 1 && src[n] == '\r';
      var upto := set n | 0 <= n < k && src[n] == '\r';
      if src[k - 1] == '\r' {
        assert upto == before + {k - 1};
      } else {
        assert upto == before;
      }
    }
  }

  /** The outcome of one scan: a token or a raised error, each with where the cursor stopped;
      or a crash where Long.parseLong throws. */
  datatype Scanned =
    | Emitted(end: nat, token: LegacyToken)
    | Raised(end: nat, error: CompilerError)
    | Crash

  /** A token for `src[begin..end]`, placed at the position after it. */
  function Emit(src: string, begin: nat, end: nat, kind: LegacyKind, literal: T.Literal): Scanned
    requires begin <= end <= |src|
  {
    Emitted(end, LegacyToken(src[begin..end], kind, PosAt(src, end), literal))
  }

  /** A LexerException: a lexical error at `where`, raised with the cursor at `end`. */
  function Raise(end: nat, message: string, where: Position): Scanned
  {
    Raised(end, CompilerError(Lexical, message, where))
  }

  /** A scan from `i` stops no later than the end of the text; everything but the EOF token
      consumes something, the EOF token is emitted only at the end, and at the end nothing
      but the EOF token is. */
  predicate Advances(src: string, i: nat, r: Scanned)
  {
    && (r.Emitted? ==> i <= r.end <= |src| && (r.token.kind in {Eof} ==> r.end == |src|) && (r.token.kind !in {Eof} ==> i < r.end))
    && (r.Raised? ==> i < r.end <= |src|)
    && (i == |src| ==> r.Emitted? && r.token.kind in {Eof})
  }

  /** Like Advances, for a scan that starts at a token: the EOF token is not among its
      outcomes. */
  predicate Consumes(src: string, i: nat, r: Scanned)
  {
    && (r.Emitted? ==> i < r.end <= |src| && r.token.kind !in {Eof})
    && (r.Raised? ==> i < r.end <= |src|)
  }

  /** Code points that are a whole token by themselves. */
  function SingleKind(c: char): Option<LegacyKind>
  {
    match c
    case '(' => Some(LParen)
    case ')' => Some(RParen)
    case '[' => Some(LBracket)
    case ']' => Some(RBracket)
    case '{' => Some(LCurly)
    case '}' => Some(RCurly)
    case ':' => Some(Colon)
    case ';' => Some(Semicolon)
    case '#' => Some(Hash)
    case ',' => Some(Comma)
    case _ => None
  }

  /** Code points that form one kind alone and another when `=` follows. */
  function EqualPair(c: char): Option<(LegacyKind, LegacyKind)>
  {
    match c
    case '=' => Some((Equal, EqualEqual))
    case '%' => Some((Percent, PercentEqual))
    case '!' => Some((Bang, BangEqual))
    case '+' => Some((Plus, PlusEqual))
    case '-' => Some((Minus, MinusEqual))
    case '*' => Some((Star, StarEqual))
    case '^' => Some((Hat, HatEqual))
    case '<' => Some((Lesser, LesserEqual))
    case '>' => Some((Greater, GreaterEqual))
    case _ => None
  }

  /** A line comment begins at `i`. */
  predicate CommentAt(src: string, i: nat)
  {
    i < |src| && src[i] == '/' && S.At(src, i + 1, '/')
  }

  /** White space or a comment begins at `i`: what `scan` skips by starting over. */
  predicate TriviaAt(src: string, i: nat)
  {
    CommentAt(src, i) || (i < |src| && S.IsWhitespace(src[i]))
  }

  /** The code points that begin an operator or a punctuation mark. */
  predicate IsSymbolStart(c: char)
  {
    SingleKind(c).Some? || EqualPair(c).Some? || c == '/' || c == '.' || c == '&' || c == '|'
  }

  /** A code point of EqualPair, alone or followed by `=`. */
  function ScanEqualPair(src: string, i: nat): (r: Scanned)
    requires i < |src| && EqualPair(src[i]).Some?
    ensures Consumes(src, i, r)
  {
    var kinds := EqualPair(src[i]).value;
    if S.At(src, i + 1, '=') then Emit(src, i, i + 2, kinds.1, T.NoLiteral)
    else Emit(src, i, i + 1, kinds.0, T.NoLiteral)
  }

  /** `/=` or `/`, where no comment begins. */
  function ScanSlash(src: string, i: nat): (r: Scanned)
    requires i < |src| && src[i] == '/' && !CommentAt(src, i)
    ensures Consumes(src, i, r)
  {
    if S.At(src, i + 1, '=') then Emit(src, i, i + 2, SlashEqual, T.NoLiteral)
    else Emit(src, i, i + 1, Slash, T.NoLiteral)
  }

  /** `..` or `.`; `&&` or a lone `&`; `||` or a lone `|`. A lone `&` or `|` raises. */
  function ScanDoubled(src: string, i: nat): (r: Scanned)
    requires i < |src| && (src[i] == '.' || src[i] == '&' || src[i] == '|')
    ensures Consumes(src, i, r)
  {
    var c := src[i];
    var doubled := S.At(src, i + 1, c);
    if c == '.' then
      if doubled then Emit(src, i, i + 2, DotDot, T.NoLiteral) else Emit(src, i, i + 1, Dot, T.NoLiteral)
    else if c == '&' then
      if doubled then Emit(src, i, i + 2, And, T.NoLiteral) else Raise(i + 1, LONE_AMPERSAND, PosAt(src, i))
    else
      if doubled then Emit(src, i, i + 2, Or, T.NoLiteral) else Raise(i + 1, LONE_BAR, PosAt(src, i))
  }

  /** An operator or a punctuation mark starting at `i`. */
  function ScanSymbol(src: string, i: nat): (r: Scanned)
    requires i < |src| && IsSymbolStart(src[i]) && !CommentAt(src, i)
    ensures Consumes(src, i, r)
  {
    var c := src[i];
    if SingleKind(c).Some? then Emit(src, i, i + 1, SingleKind(c).value, T.NoLiteral)
    else if EqualPair(c).Some? then ScanEqualPair(src, i)
    else if c == '/' then ScanSlash(src, i)
    else ScanDoubled(src, i)
  }

  /** The kind an identifier lexeme gets: its keyword kind, else Identifier. */
  function KeywordKind(lexeme: string): LegacyKind
  {
    if lexeme == "fn" then Fn
    else if lexeme == "let" then Let
    else if lexeme == "for" then For
    else if lexeme == "while" then While
    else if lexeme == "return" then Return
    else if lexeme == "if" then If
    else if lexeme == "debug" then Debug
    else Identifier
  }

  const KEYWORDS: set<string> := {"fn", "let", "for", "while", "return", "if", "debug"}

  /** An identifier or keyword whose first code point is at `begin`. */
  function ScanIdentifier(src: string, begin: nat, cls: S.Classifier): (r: Scanned)
    requires begin < |src|
    ensures Consumes(src, begin, r)
  {
    var end := S.Span(src, begin + 1, cls.identifierPart);
    Emit(src, begin, end, KeywordKind(src[begin..end]), T.NoLiteral)
  }

  /** The INTEGER token for the lexeme `src[begin..end]`, whose digits of the radix are
      `src[from..end]`; a crash where Long.parseLong throws. */
  function IntegerToken(src: string, begin: nat, from: nat, end: nat, radix: nat): (r: Scanned)
    requires begin <= from <= end <= |src| && begin < end
    ensures Consumes(src, begin, r)
  {
    var value := S.ParseLong(src[from..end], radix);
    if value.None? then Crash else Emit(src, begin, end, Integer, T.IntLiteral(value.value))
  }

  /** `0x`, `0b` or `0o` and the digits of the radix, which must be followed by white space
      or the end of the text. */
  function ScanRadix(src: string, begin: nat, radix: nat, isDigit: char -> bool): (r: Scanned)
    requires begin + 2 <= |src|
    ensures Consumes(src, begin, r)
  {
    var end := S.Span(src, begin + 2, isDigit);
    if end < |src| && !S.IsWhitespace(src[end]) then Raise(end, INVALID_NUMBER, PosAt(src, begin))
    else IntegerToken(src, begin, begin + 2, end, radix)
  }

  /** Decimal digits; a `.` after them must be followed by a digit, and makes a FLOAT. */
  function ScanDecimal(src: string, begin: nat): (r: Scanned)
    requires begin < |src|
    ensures Consumes(src, begin, r)
  {
    var end := S.Span(src, begin + 1, S.IsDigit);
    if S.At(src, end, '.') then ScanFraction(src, begin, end + 1)
    else IntegerToken(src, begin, begin, end, 10)
  }

  /** The two cases of ScanDecimal, named for the scanner that follows them step by step. */
  lemma DecimalCases(src: string, begin: nat, end: nat)
    requires begin < |src| && end == S.Span(src, begin + 1, S.IsDigit)
    ensures S.At(src, end, '.') ==> ScanDecimal(src, begin) == ScanFraction(src, begin, end + 1)
    ensures !S.At(src, end, '.') ==> ScanDecimal(src, begin) == IntegerToken(src, begin, begin, end, 10)
  {
  }

  /** The digits after the `.` that ends at `point`: at least one, else the literal raises. */
  function ScanFraction(src: string, begin: nat, point: nat): (r: Scanned)
    requires begin < point <= |src|
    ensures Consumes(src, begin, r)
  {
    if point < |src| && S.IsDigit(src[point]) then
      var last := S.Span(src, point, S.IsDigit);
      Emit(src, begin, last, Float, T.FloatLiteral(src[begin..last]))
    else Raise(point, DIGIT_AFTER_POINT, PosAt(src, begin))
  }

  /** A number literal starting with the digit at `begin`. */
  function ScanNumber(src: string, begin: nat): (r: Scanned)
    requires begin < |src|
    ensures Consumes(src, begin, r)
  {
    var zero := src[begin] == '0';
    if zero && S.At(src, begin + 1, 'x') then ScanRadix(src, begin, 16, S.IsHexDigit)
    else if zero && S.At(src, begin + 1, 'b') then ScanRadix(src, begin, 2, S.IsBinaryDigit)
    else if zero && S.At(src, begin + 1, 'o') then ScanRadix(src, begin, 8, S.IsOctalDigit)
    else ScanDecimal(src, begin)
  }

  predicate NotQuote(c: char) { c != '"' }

  /** The body of a string literal from `j` on; `escaping` says a backslash was just read.
      Newlines are allowed; the end of the text makes the closing `match` fail. The value is
      decoded by the one-pass StringLiterals.Unescape, which agrees with the source's
      `replace` chain on every literal in which no backslash follows another
      (StringLiterals.AsWrittenAgreesWithoutEscapedBackslash). */
  function ScanString(src: string, begin: nat, j: nat, escaping: bool): (r: Scanned)
    requires begin < j <= |src|
    ensures Consumes(src, begin, r)
    decreases |src| - j
  {
    if j == |src| then Raise(j, ExpectedAtEnd("\""), PreviousColumn(PosAt(src, j)))
    else if src[j] == '"' && !escaping then
      Emit(src, begin, j + 1, String, T.StringLiteral(StringLiterals.Unescape(src[begin + 1..j])))
    else if escaping && !StringLiterals.IsEscapeLetter(src[j]) then
      SkipInvalidEscape(src, begin, j, PreviousColumn(PosAt(src, j)))
    else ScanString(src, begin, j + 1, !escaping && src[j] == '\\')
  }

  /** After an invalid escape letter at `j`: everything up to the next quote is consumed,
      the quote is matched, and "Escape inválido" is raised at the backslash (`where`); at
      the end of the text the failed match raises instead. */
  function SkipInvalidEscape(src: string, begin: nat, j: nat, where: Position): (r: Scanned)
    requires begin < j < |src|
    ensures Consumes(src, begin, r)
  {
    var k := S.Span(src, j + 1, NotQuote);
    if k == |src| then Raise(k, ExpectedAtEnd("\""), PreviousColumn(PosAt(src, k)))
    else Raise(k + 1, S.INVALID_ESCAPE, where)
  }

  /** A string literal whose opening quote is at `begin`. */
  function ScanStringLiteral(src: string, begin: nat): (r: Scanned)
    requires begin < |src| && src[begin] == '"'
    ensures Consumes(src, begin, r)
  {
    ScanString(src, begin, begin + 1, false)
  }

  /** One token, or one raised error, starting at the code point at `i`. */
  function ScanToken(src: string, i: nat, cls: S.Classifier): (r: Scanned)
    requires i < |src| && !TriviaAt(src, i)
    ensures Consumes(src, i, r)
  {
    var c := src[i];
    if IsSymbolStart(c) then ScanSymbol(src, i)
    else if c == '"' then ScanStringLiteral(src, i)
    else if S.IsDigit(c) then ScanNumber(src, i)
    else if cls.identifierBegin(c) then ScanIdentifier(src, i, cls)
    else Raise(i + 1, S.UNRECOGNIZED, PosAt(src, i))
  }

  /** `scan` from `i`: the EOF token at the end; white space and comments are consumed and
      `scan` starts over after them. */
  function Scan(src: string, i: nat, cls: S.Classifier): (r: Scanned)
    requires i <= |src|
    ensures Advances(src, i, r)
    decreases |src| - i
  {
    if i == |src| then Emit(src, i, i, Eof, T.NoLiteral)
    else if CommentAt(src, i) then Scan(src, S.Span(src, i + 1, S.NotNewline), cls)
    else if S.IsWhitespace(src[i]) then Scan(src, S.Span(src, i + 1, S.IsWhitespace), cls)
    else ScanToken(src, i, cls)
  }

  /** Where the loop of `lex` stops: the tokens and errors recorded, or a crash. */
  datatype RunResult = Finished(tokens: seq<LegacyToken>, errors: seq<CompilerError>) | Crashed

  /** The loop of `lex` from index `i`: a token is added, a raised error recorded, and the
      loop ends once the EOF token has been added. */
  function LexRun(src: string, i: nat, cls: S.Classifier, tokens: seq<LegacyToken>, errors: seq<CompilerError>): RunResult
    requires i <= |src|
    decreases |src| - i
  {
    var s := Scan(src, i, cls);
    match s
    case Crash => Crashed
    case Raised(end, e) => LexRun(src, end, cls, tokens, errors + [e])
    case Emitted(end, t) =>
      if t.kind in {Eof} then Finished(tokens + [t], errors)
      else LexRun(src, end, cls, tokens + [t], errors)
  }

  /** The outcome of `lex`: the tokens if no error was raised, else the errors; or a crash. */
  datatype LexOutcome = Lexed(result: Result<seq<LegacyToken>, seq<CompilerError>>) | LexCrash

  function Lex(src: string, cls: S.Classifier): LexOutcome
  {
    var run := LexRun(src, 0, cls, [], []);
    if run.Crashed? then LexCrash
    else if |run.errors| == 0 then Lexed(Success(run.tokens))
    else Lexed(Error(run.errors))
  }
}
