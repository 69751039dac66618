/** What the current lexer (popsi.lexer.Lexer) computes, as functions over the source text.
    A scan starts at an index and returns where it stopped, the tokens and errors it
    recorded and the lexeme start it leaves behind, or Crash where the source would throw. */
module LexerSpec {
  import opened Wrappers
  import opened FilePosition
  import opened Tokens
  import opened Diagnostics
  import StringLiterals

  /** Character.isUnicodeIdentifierStart / isUnicodeIdentifierPart (each or isEmoji): foreign
      classifications, taken as parameters. */
  datatype Classifier = Classifier(identifierBegin: char -> bool, identifierPart: char -> bool)

  /** Long.MAX_VALUE: larger integer literals make Long.parseLong throw. */
  const MAX_LONG: int := 0x7fff_ffff_ffff_ffff

  const UNRECOGNIZED := "Símbolo não reconhecido"
  const LONE_AMPERSAND := "Símbolo não reconhecido (encontrado '&', você não quis dizer '&&'?)"
  const LONE_BAR := "Símbolo não reconhecido (encontrado '|', você não quis dizer '||'?)"
  const UNCLOSED_STRING := "String não fechada"
  const INVALID_ESCAPE := "Escape inválido"

  predicate IsDigit(c: char) { '0' <= c <= '9' }
  predicate IsHexDigit(c: char) { IsDigit(c) || 'a' <= c <= 'f' || 'A' <= c <= 'F' }
  predicate IsBinaryDigit(c: char) { c == '0' || c == '1' }
  predicate IsOctalDigit(c: char) { '0' <= c <= '7' }
  predicate IsWhitespace(c: char) { c == ' ' || c == '\t' || c == '\r' || c == '\n' }
  predicate NotNewline(c: char) { c != '\n' }

  /** The value of one digit of a radix-prefixed or decimal literal. */
  function DigitValue(c: char): (v: nat)
    ensures IsDigit(c) ==> v == c as int - '0' as int
    ensures v < 16
  {
    if IsDigit(c) then c as int - '0' as int
    else if 'a' <= c <= 'f' then c as int - 'a' as int + 10
    else if 'A' <= c <= 'F' then c as int - 'A' as int + 10
    else 0
  }

  /** The value of a digit string, most significant digit first. */
  function DigitsValue(s: string, radix: nat): nat
  {
    if |s| == 0 then 0 else DigitsValue(s[..|s| - 1], radix) * radix + DigitValue(s[|s| - 1])
  }

  /** Long.parseLong on a string of digits of the radix: it throws for the empty string and
      for a value above Long.MAX_VALUE. */
  function ParseLong(s: string, radix: nat): (r: Option<int>)
    ensures r.Some? <==> |s| > 0 && DigitsValue(s, radix) <= MAX_LONG
    ensures r.Some? ==> 0 <= r.value <= MAX_LONG
  {
    if |s| == 0 || DigitsValue(s, radix) > MAX_LONG then None else Some(DigitsValue(s, radix))
  }

  /** The position after the first `k` code points: a newline moves to the next line, any
      other code point one column on. */
  function PosAt(src: string, k: nat): Position
    requires k <= |src|
  {
    if k == 0 then Start(src)
    else if src[k - 1] == '\n' then NextLine(PosAt(src, k - 1))
    else NextColumn(PosAt(src, k - 1))
  }

  /** Positions are 1-based and refer to the whole text; the line is one more than the
      number of newlines before the position. */
  lemma {:induction false} PosAtIsPosition(src: string, k: nat)
    requires k <= |src|
    ensures PosAt(src, k).src == src && PosAt(src, k).line >= 1 && PosAt(src, k).column >= 1
    ensures PosAt(src, k).line == 1 + |set n | 0 <= n < k && src[n] == '\n'|
  {
    if k > 0 {
      PosAtIsPosition(src, k - 1);
      var before := set n | 0 <= n < k - 1 && src[n] == '\n';
      var upto := set n | 0 <= n < k && src[n] == '\n';
      if src[k - 1] == '\n' {
        assert upto == before + {k - 1};
      } else {
        assert upto == before;
      }
    }
  }

  /** The end of the longest run of code points satisfying `p` that starts at `i`. */
  function Span(src: string, i: nat, p: char -> bool): (j: nat)
    requires i <= |src|
    ensures i <= j <= |src|
    decreases |src| - i
  {
    if i < |src| && p(src[i]) then Span(src, i + 1, p) else i
  }

  /** Every code point of the run satisfies `p`, and the one after it does not. */
  lemma {:induction false} SpanMaximal(src: string, i: nat, p: char -> bool)
    requires i <= |src|
    ensures forall k :: i <= k < Span(src, i, p) ==> p(src[k])
    ensures Span(src, i, p) < |src| ==> !p(src[Span(src, i, p)])
    decreases |src| - i
  {
    if i < |src| && p(src[i]) {
      SpanMaximal(src, i + 1, p);
    }
  }

  /** The run is determined by its two defining properties. */
  lemma {:induction false} SpanUnique(src: string, i: nat, p: char -> bool, j: nat)
    requires i <= j <= |src|
    requires forall k :: i <= k < j ==> p(src[k])
    requires j < |src| ==> !p(src[j])
    ensures Span(src, i, p) == j
    decreases j - i
  {
    if i < j {
      SpanUnique(src, i + 1, p, j);
    }
  }

  /** The code point at `j` is `c`. */
  predicate At(src: string, j: nat, c: char)
  {
    j < |src| && src[j] == c
  }

  /** The kind an identifier lexeme gets: its keyword kind, else Identifier. */
  function KeywordKind(lexeme: string): TokenKind
  {
    if lexeme == "fn" then Fn
    else if lexeme == "rec" then Rec
    else if lexeme == "let" then Let
    else if lexeme == "for" then For
    else if lexeme == "while" then While
    else if lexeme == "return" then Return
    else if lexeme == "if" then If
    else if lexeme == "debug" then Debug
    else if lexeme == "else" then Else
    else if lexeme == "in" then In
    else if lexeme == "true" then True
    else if lexeme == "false" then False
    else Identifier
  }

  const KEYWORDS: set<string> := {"fn", "rec", "let", "for", "while", "return", "if", "debug", "else", "in", "true", "false"}

  /** Exactly the twelve keywords get a kind other than Identifier. */
  lemma KeywordTable(lexeme: string)
    ensures KeywordKind(lexeme) != Identifier <==> lexeme in KEYWORDS
  {
  }

  /** Code points that are a whole token by themselves. */
  function SingleKind(c: char): Option<TokenKind>
  {
    match c
    case '(' => Some(LParen)
    case ')' => Some(RParen)
    case '[' => Some(LBracket)
    case ']' => Some(RBracket)
    case '{' => Some(LCurly)
    case '}' => Some(RCurly)
    case ':' => Some(Colon)
    case ';' => Some(Semicolon)
    case '#' => Some(Hash)
    case ',' => Some(Comma)
    case _ => None
  }

  /** Code points that form one kind alone and another when `=` follows. */
  function EqualPair(c: char): Option<(TokenKind, TokenKind)>
  {
    match c
    case '=' => Some((Equal, EqualEqual))
    case '%' => Some((Percent, PercentEqual))
    case '!' => Some((Bang, BangEqual))
    case '+' => Some((Plus, PlusEqual))
    case '*' => Some((Star, StarEqual))
    case '^' => Some((Hat, HatEqual))
    case '<' => Some((Lesser, LesserEqual))
    case '>' => Some((Greater, GreaterEqual))
    case _ => None
  }

  /** The outcome of one scan. `lexemeStart` is where the current lexeme begins afterwards. */
  datatype Scanned =
    | Scanned(end: nat, tokens: seq<Token>, errors: seq<CompilerError>, lexemeStart: nat)
    | Crash

  /** A token for `src[begin..end]`, placed at the position after it. */
  function Emit(src: string, begin: nat, end: nat, kind: TokenKind, literal: Literal): (r: Scanned)
    requires begin < end <= |src|
  {
    Scanned(end, [Token(src[begin..end], kind, PosAt(src, end), literal)], [], begin)
  }

  /** A lexical error placed at the start of the lexeme. */
  function LexError(src: string, begin: nat, message: string): CompilerError
    requires begin <= |src|
  {
    CompilerError(Lexical, message, PosAt(src, begin))
  }

  /** A scan from `i` ends further on, no later than the end of the text, and leaves the
      lexeme start no later than its end. */
  predicate Advances(src: string, i: nat, r: Scanned)
  {
    r.Scanned? ==> i < r.end <= |src| && r.lexemeStart <= r.end
  }

  /** What a scan from `i` must satisfy: it ends further on and no later than the text, every
      token it emits is one non-EOF token spelling `src[i..end]` and placed at the position
      after it, and every error it records is lexical and placed at the position of `i`. */
  ghost predicate WellScanned(src: string, i: nat, r: Scanned)
    requires i < |src|
  {
    r.Scanned? ==>
      && i < r.end <= |src|
      && r.lexemeStart <= r.end
      && |r.tokens| <= 1
      && (forall t :: t in r.tokens ==> t.kind !in {Eof} && t.lexeme == src[i..r.end] && t.where == PosAt(src, r.end))
      && (forall e :: e in r.errors ==> e.kind == Lexical && e.where == PosAt(src, i))
  }

  /** The body of a string literal from `j` on. `errors` are the escape errors so far. The
      value is decoded by the one-pass StringLiterals.Unescape, which agrees with the
      source's `replace` chain on every literal in which no backslash follows another
      (StringLiterals.AsWrittenAgreesWithoutEscapedBackslash). */
  function ScanString(src: string, begin: nat, j: nat, errors: seq<CompilerError>): (r: Scanned)
    requires begin < j <= |src|
    ensures r.Scanned? ==> j <= r.end <= |src| && r.lexemeStart == begin
    decreases |src| - j
  {
    if j == |src| then Scanned(j, [], errors + [LexError(src, begin, UNCLOSED_STRING)], begin)
    else if src[j] == '"' then
      Scanned(j + 1, [Token(src[begin..j + 1], String, PosAt(src, j + 1), StringLiteral(StringLiterals.Unescape(src[begin + 1..j])))],
              errors, begin)
    else if src[j] == '\n' then Scanned(j, [], errors + [LexError(src, begin, UNCLOSED_STRING)], begin)
    else if src[j] == '\\' then
      if j + 1 == |src| then Crash
      else if StringLiterals.IsEscapeLetter(src[j + 1]) then ScanString(src, begin, j + 2, errors)
      else ScanString(src, begin, j + 2, errors + [LexError(src, begin, INVALID_ESCAPE)])
    else ScanString(src, begin, j + 1, errors)
  }

  /** What a string scan records: either the STRING token ending at the closing quote, with
      the decoded body as its literal, after any number of "Escape inválido" errors; or no
      token, stopping at a newline or the end, with "String não fechada" as the last error. */
  ghost predicate StringShape(src: string, begin: nat, errors: seq<CompilerError>, r: Scanned)
    requires begin < |src|
  {
    r.Scanned? ==>
      && begin < r.end <= |src| && r.lexemeStart == begin
      && |r.tokens| <= 1 && |r.errors| >= |errors| && r.errors[..|errors|] == errors
      && (|r.tokens| == 1 ==>
            && r.end - 1 > begin && src[r.end - 1] == '"'
            && r.tokens[0] == Token(src[begin..r.end], String, PosAt(src, r.end),
                                    StringLiteral(StringLiterals.Unescape(src[begin + 1..r.end - 1])))
            && forall k :: |errors| <= k < |r.errors| ==> r.errors[k] == LexError(src, begin, INVALID_ESCAPE))
      && (|r.tokens| == 0 ==>
            && (r.end == |src| || src[r.end] == '\n')
            && |r.errors| > |errors|
            && r.errors[|r.errors| - 1] == LexError(src, begin, UNCLOSED_STRING)
            && forall k :: |errors| <= k < |r.errors| - 1 ==> r.errors[k] == LexError(src, begin, INVALID_ESCAPE))
  }

  lemma {:induction false} ScanStringShape(src: string, begin: nat, j: nat, errors: seq<CompilerError>)
    requires begin < j <= |src|
    requires forall k :: 0 <= k < |errors| ==> errors[k] == LexError(src, begin, INVALID_ESCAPE)
    ensures StringShape(src, begin, [], ScanString(src, begin, j, errors))
    decreases |src| - j
  {
    if j < |src| && src[j] != '"' && src[j] != '\n' {
      if src[j] == '\\' {
        if j + 1 < |src| {
          if StringLiterals.IsEscapeLetter(src[j + 1]) {
            ScanStringShape(src, begin, j + 2, errors);
          } else {
            ScanStringShape(src, begin, j + 2, errors + [LexError(src, begin, INVALID_ESCAPE)]);
          }
        }
      } else {
        ScanStringShape(src, begin, j + 1, errors);
      }
    }
  }

  /** A string scan of the shape above is a well-formed scan. */
  lemma StringShapeIsWellScanned(src: string, begin: nat, r: Scanned)
    requires begin < |src| && StringShape(src, begin, [], r)
    ensures WellScanned(src, begin, r)
  {
    if r.Scanned? {
      var last := if |r.tokens| == 0 then |r.errors| - 1 else |r.errors|;
      assert forall k :: 0 <= k < last ==> r.errors[k] == LexError(src, begin, INVALID_ESCAPE);
      forall k | 0 <= k < |r.errors| ensures r.errors[k].kind == Lexical && r.errors[k].where == PosAt(src, begin) {
        if k == last {
          assert r.errors[k] == LexError(src, begin, UNCLOSED_STRING);
        } else {
          assert r.errors[k] == LexError(src, begin, INVALID_ESCAPE);
        }
      }
      if |r.tokens| == 1 {
        assert r.tokens == [r.tokens[0]];
      }
    }
  }

  /** A string literal whose opening quote is at `begin`. */
  function ScanStringLiteral(src: string, begin: nat): (r: Scanned)
    requires begin < |src| && src[begin] == '"'
    ensures Advances(src, begin, r)
  {
    ScanString(src, begin, begin + 1, [])
  }

  /** A string scan records what StringShape says, and is well formed. */
  lemma ScanStringLiteralShape(src: string, begin: nat)
    requires begin < |src| && src[begin] == '"'
    ensures StringShape(src, begin, [], ScanStringLiteral(src, begin))
    ensures WellScanned(src, begin, ScanStringLiteral(src, begin))
  {
    ScanStringShape(src, begin, begin + 1, []);
    StringShapeIsWellScanned(src, begin, ScanString(src, begin, begin + 1, []));
  }

  /** `0x`, `0b` or `0o` followed by digits of the radix. */
  function ScanRadix(src: string, begin: nat, radix: nat, isDigit: char -> bool): (r: Scanned)
    requires begin + 2 <= |src|
    ensures Advances(src, begin, r)
  {
    IntegerToken(src, begin, begin + 2, Span(src, begin + 2, isDigit), radix)
  }

  /** The INTEGER token for the lexeme `src[begin..end]`, whose digits of the radix are
      `src[from..end]`; a crash where Long.parseLong throws. */
  function IntegerToken(src: string, begin: nat, from: nat, end: nat, radix: nat): (r: Scanned)
    requires begin <= from <= end <= |src| && begin < end
    ensures Advances(src, begin, r)
  {
    var value := ParseLong(src[from..end], radix);
    if value.None? then Crash else Emit(src, begin, end, Integer, IntLiteral(value.value))
  }

  /** Decimal digits, and a fraction when a `.` is followed by a digit. */
  function ScanDecimal(src: string, begin: nat): (r: Scanned)
    requires begin < |src|
    ensures Advances(src, begin, r)
  {
    var end := Span(src, begin + 1, IsDigit);
    if At(src, end, '.') && end + 1 < |src| && IsDigit(src[end + 1]) then FloatToken(src, begin, end)
    else IntegerToken(src, begin, begin, end, 10)
  }

  /** The FLOAT token whose integer digits are `src[begin..point]`, continued by the `.` at
      `point` and the digits after it. */
  function FloatToken(src: string, begin: nat, point: nat): (r: Scanned)
    requires begin < point < |src|
    ensures Advances(src, begin, r)
  {
    var end := Span(src, point + 1, IsDigit);
    Emit(src, begin, end, Float, FloatLiteral(src[begin..end]))
  }

  /** A number literal starting with the digit at `begin`. */
  function ScanNumber(src: string, begin: nat): (r: Scanned)
    requires begin < |src|
    ensures Advances(src, begin, r)
  {
    var zero := src[begin] == '0';
    if zero && At(src, begin + 1, 'x') then ScanRadix(src, begin, 16, IsHexDigit)
    else if zero && At(src, begin + 1, 'b') then ScanRadix(src, begin, 2, IsBinaryDigit)
    else if zero && At(src, begin + 1, 'o') then ScanRadix(src, begin, 8, IsOctalDigit)
    else ScanDecimal(src, begin)
  }

  /** An identifier or keyword whose first code point is at `begin`. */
  function ScanIdentifier(src: string, begin: nat, cls: Classifier): (r: Scanned)
    requires begin < |src|
    ensures Advances(src, begin, r)
  {
    var end := Span(src, begin + 1, cls.identifierPart);
    Emit(src, begin, end, KeywordKind(src[begin..end]), NoLiteral)
  }

  /** The code points that begin an operator, a punctuation mark or a comment. */
  predicate IsSymbolStart(c: char)
  {
    SingleKind(c).Some? || EqualPair(c).Some? || c == '-' || c == '/' || c == '.' || c == '&' || c == '|'
  }

  /** A code point of EqualPair, alone or followed by `=`. */
  function ScanEqualPair(src: string, i: nat): (r: Scanned)
    requires i < |src| && EqualPair(src[i]).Some?
    ensures Advances(src, i, r)
  {
    var kinds := EqualPair(src[i]).value;
    if At(src, i + 1, '=') then Emit(src, i, i + 2, kinds.1, NoLiteral)
    else Emit(src, i, i + 1, kinds.0, NoLiteral)
  }

  /** `-=`, `->` or `-`. */
  function ScanMinus(src: string, i: nat): (r: Scanned)
    requires i < |src| && src[i] == '-'
    ensures Advances(src, i, r)
  {
    if At(src, i + 1, '=') then Emit(src, i, i + 2, MinusEqual, NoLiteral)
    else if At(src, i + 1, '>') then Emit(src, i, i + 2, Arrow, NoLiteral)
    else Emit(src, i, i + 1, Minus, NoLiteral)
  }

  /** A line comment up to the newline (not included), `/=` or `/`. A comment emits
      nothing and moves the lexeme start to its end. */
  function ScanSlash(src: string, i: nat): (r: Scanned)
    requires i < |src| && src[i] == '/'
    ensures Advances(src, i, r)
  {
    if At(src, i + 1, '/') then
      var end := Span(src, i + 2, NotNewline);
      Scanned(end, [], [], end)
    else if At(src, i + 1, '=') then Emit(src, i, i + 2, SlashEqual, NoLiteral)
    else Emit(src, i, i + 1, Slash, NoLiteral)
  }

  /** `..` or `.`; `&&` or a lone `&`; `||` or a lone `|`. A lone `&` or `|` is an error. */
  function ScanDoubled(src: string, i: nat): (r: Scanned)
    requires i < |src| && (src[i] == '.' || src[i] == '&' || src[i] == '|')
    ensures Advances(src, i, r)
  {
    var c := src[i];
    var doubled := At(src, i + 1, c);
    if c == '.' then
      if doubled then Emit(src, i, i + 2, DotDot, NoLiteral) else Emit(src, i, i + 1, Dot, NoLiteral)
    else if c == '&' then
      if doubled then Emit(src, i, i + 2, And, NoLiteral)
      else Scanned(i + 1, [], [LexError(src, i, LONE_AMPERSAND)], i)
    else
      if doubled then Emit(src, i, i + 2, Or, NoLiteral)
      else Scanned(i + 1, [], [LexError(src, i, LONE_BAR)], i)
  }

  /** An operator, a punctuation mark or a comment starting at `i`: the longest symbol
      that starts there. */
  function ScanSymbol(src: string, i: nat): (r: Scanned)
    requires i < |src| && IsSymbolStart(src[i])
    ensures Advances(src, i, r)
  {
    var c := src[i];
    if SingleKind(c).Some? then Emit(src, i, i + 1, SingleKind(c).value, NoLiteral)
    else if EqualPair(c).Some? then ScanEqualPair(src, i)
    else if c == '-' then ScanMinus(src, i)
    else if c == '/' then ScanSlash(src, i)
    else ScanDoubled(src, i)
  }

  /** One scan from `i`, which is not at the end. */
  function Scan(src: string, i: nat, cls: Classifier): (r: Scanned)
    requires i < |src|
    ensures Advances(src, i, r)
  {
    var c := src[i];
    if IsSymbolStart(c) then ScanSymbol(src, i)
    else if IsWhitespace(c) then Scanned(Span(src, i + 1, IsWhitespace), [], [], i)
    else if c == '"' then ScanStringLiteral(src, i)
    else if IsDigit(c) then ScanNumber(src, i)
    else if cls.identifierBegin(c) then ScanIdentifier(src, i, cls)
    else Scanned(i + 1, [], [LexError(src, i, UNRECOGNIZED)], i)
  }

  /** Operators, punctuation and comments scan well formed. */
  lemma ScanSymbolWellScanned(src: string, i: nat)
    requires i < |src| && IsSymbolStart(src[i])
    ensures WellScanned(src, i, ScanSymbol(src, i))
  {
  }

  /** Number literals scan well formed. */
  lemma ScanNumberWellScanned(src: string, i: nat)
    requires i < |src|
    ensures WellScanned(src, i, ScanNumber(src, i))
  {
  }

  /** Every scan is well formed: whatever it records belongs to the lexeme it consumed. */
  lemma ScanWellScanned(src: string, i: nat, cls: Classifier)
    requires i < |src|
    ensures WellScanned(src, i, Scan(src, i, cls))
  {
    var c := src[i];
    if IsSymbolStart(c) {
      ScanSymbolWellScanned(src, i);
    } else if IsWhitespace(c) {
    } else if c == '"' {
      ScanStringLiteralShape(src, i);
    } else if IsDigit(c) {
      ScanNumberWellScanned(src, i);
    }
  }

  /** The last token is an EOF token placed at the end of the text. */
  ghost predicate EndsWithEof(src: string, ts: seq<Token>)
  {
    |ts| > 0 && ts[|ts| - 1].kind in {Eof} && ts[|ts| - 1].where == PosAt(src, |src|)
  }

  /** No token but the last is an EOF token. */
  ghost predicate NoEofBeforeLast(ts: seq<Token>)
  {
    forall k :: 0 <= k < |ts| - 1 ==> ts[k].kind !in {Eof}
  }

  /** A token list as `lex` returns it: one EOF token, last, at the end of the text. */
  ghost predicate EndsWithSingleEof(src: string, ts: seq<Token>)
  {
    EndsWithEof(src, ts) && NoEofBeforeLast(ts)
  }

  /** Where the scanning loop stops: the tokens and errors recorded, or a crash. */
  datatype LexRunResult = Finished(tokens: seq<Token>, errors: seq<CompilerError>) | Crashed

  /** The loop of `lex` from index `i`, with the tokens, errors and lexeme start so far; at
      the end, one EOF token spelling the last lexeme. */
  function LexRun(src: string, i: nat, cls: Classifier, tokens: seq<Token>, errors: seq<CompilerError>, begin: nat): (r: LexRunResult)
    requires begin <= i <= |src|
    decreases |src| - i
  {
    if i == |src| then Finished(tokens + [Token(src[begin..i], Eof, PosAt(src, i), NoLiteral)], errors)
    else
      var s := Scan(src, i, cls);
      if s.Crash? then Crashed
      else LexRun(src, s.end, cls, tokens + s.tokens, errors + s.errors, s.lexemeStart)
  }

  /** The loop only appends to what it has recorded. */
  lemma {:induction false} LexRunExtends(src: string, i: nat, cls: Classifier, tokens: seq<Token>, errors: seq<CompilerError>, begin: nat)
    requires begin <= i <= |src|
    ensures var r := LexRun(src, i, cls, tokens, errors, begin);
      r.Finished? ==> tokens <= r.tokens && errors <= r.errors
    decreases |src| - i
  {
    if i < |src| {
      var s := Scan(src, i, cls);
      if s.Scanned? {
        LexRunExtends(src, s.end, cls, tokens + s.tokens, errors + s.errors, s.lexemeStart);
      }
    }
  }

  /** The loop ends with an EOF token placed at the end of the text. */
  lemma {:induction false} LexRunEndsWithEof(src: string, i: nat, cls: Classifier, tokens: seq<Token>, errors: seq<CompilerError>, begin: nat)
    requires begin <= i <= |src|
    ensures var r := LexRun(src, i, cls, tokens, errors, begin);
      r.Finished? ==> EndsWithEof(src, r.tokens)
    decreases |src| - i
  {
    if i < |src| {
      var s := Scan(src, i, cls);
      if s.Scanned? {
        LexRunEndsWithEof(src, s.end, cls, tokens + s.tokens, errors + s.errors, s.lexemeStart);
      }
    }
  }

  /** Scanning never produces an EOF token, so the loop's EOF token is its only one. */
  lemma {:induction false} LexRunSingleEof(src: string, i: nat, cls: Classifier, tokens: seq<Token>, errors: seq<CompilerError>, begin: nat)
    requires begin <= i <= |src|
    requires forall t :: t in tokens ==> t.kind !in {Eof}
    ensures var r := LexRun(src, i, cls, tokens, errors, begin);
      r.Finished? ==> NoEofBeforeLast(r.tokens)
    decreases |src| - i
  {
    if i < |src| {
      var s := Scan(src, i, cls);
      ScanWellScanned(src, i, cls);
      if s.Scanned? {
        LexRunSingleEof(src, s.end, cls, tokens + s.tokens, errors + s.errors, s.lexemeStart);
      }
    } else {
      var r := LexRun(src, i, cls, tokens, errors, begin);
      assert r.tokens[..|r.tokens| - 1] == tokens;
      forall k | 0 <= k < |r.tokens| - 1 ensures r.tokens[k].kind !in {Eof} {
        assert r.tokens[k] == tokens[k];
      }
    }
  }

  /** Every error the loop records is lexical. */
  lemma {:induction false} LexRunErrorsLexical(src: string, i: nat, cls: Classifier, tokens: seq<Token>, errors: seq<CompilerError>, begin: nat)
    requires begin <= i <= |src|
    requires forall e :: e in errors ==> e.kind == Lexical
    ensures var r := LexRun(src, i, cls, tokens, errors, begin);
      r.Finished? ==> forall e :: e in r.errors ==> e.kind == Lexical
    decreases |src| - i
  {
    if i < |src| {
      var s := Scan(src, i, cls);
      ScanWellScanned(src, i, cls);
      if s.Scanned? {
        LexRunErrorsLexical(src, s.end, cls, tokens + s.tokens, errors + s.errors, s.lexemeStart);
      }
    }
  }

  /** The outcome of `lex`: the tokens if no error was recorded, else the errors; or a crash. */
  datatype LexOutcome = Lexed(result: Result<seq<Token>, seq<CompilerError>>) | LexCrash

  /** `lex`: the tokens if the loop recorded no error, else the errors; or a crash. */
  function Lex(src: string, cls: Classifier): LexOutcome
  {
    var run := LexRun(src, 0, cls, [], [], 0);
    if run.Crashed? then LexCrash
    else if |run.errors| == 0 then Lexed(Success(run.tokens))
    else Lexed(Error(run.errors))
  }

  /** A successful `lex` returns exactly one EOF token, last, at the end of the text; a
      failed one returns at least one error, all of them lexical. */
  lemma LexResultShape(src: string, cls: Classifier)
    ensures Lex(src, cls).Lexed? && Lex(src, cls).result.Success? ==> EndsWithSingleEof(src, Lex(src, cls).result.value)
    ensures Lex(src, cls).Lexed? && Lex(src, cls).result.Error? ==>
      |Lex(src, cls).result.error| > 0 && forall e :: e in Lex(src, cls).result.error ==> e.kind == Lexical
  {
    var run := LexRun(src, 0, cls, [], [], 0);
    if run.Finished? {
      if |run.errors| == 0 {
        LexRunEndsWithEof(src, 0, cls, [], [], 0);
        LexRunSingleEof(src, 0, cls, [], [], 0);
        assert EndsWithSingleEof(src, run.tokens);
      } else {
        LexRunErrorsLexical(src, 0, cls, [], [], 0);
      }
    }
  }

  /** `lex` succeeds iff the loop finishes without recording an error, and then returns the
      loop's tokens; it crashes iff the loop does. */
  lemma LexSucceedsIffNoErrors(src: string, cls: Classifier)
    ensures var run := LexRun(src, 0, cls, [], [], 0);
      && (Lex(src, cls).LexCrash? <==> run.Crashed?)
      && (Lex(src, cls).Lexed? ==>
            (Lex(src, cls).result.Success? <==> |run.errors| == 0)
            && (Lex(src, cls).result.Success? ==> Lex(src, cls).result.value == run.tokens)
            && (Lex(src, cls).result.Error? ==> Lex(src, cls).result.error == run.errors))
  {
  }
}
