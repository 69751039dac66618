/** The earlier lexer (popsi.Lexer) as the object it is: a cursor over the source text whose
    `scan` returns one token or throws one error. Every operation is proved to do what the
    functions of LegacyLexerSpec say, and `Lex` to return what LegacyLexerSpec.Lex returns. */
module LegacyLexer {
  import opened Wrappers
  import opened FilePosition
  import opened Diagnostics
  import opened LegacyTokens
  import T = Tokens
  import S = LexerSpec
  import opened LegacyLexerSpec
  import StringLiterals

  /** `String.matches` with a one-character class: `s` is one code point satisfying `p`. */
  predicate Matches(s: string, p: char -> bool)
  {
    |s| == 1 && p(s[0])
  }

  class Lexer {
    /** The text being lexed, and the foreign identifier classification it uses. */
    const src: string
    const cls: S.Classifier
    /** The position where the current lexeme starts, and the current position. */
    var beginPos: Position
    var pos: Position
    /** The index of the first code point of the current lexeme, and of the next one. */
    var begin: nat
    var current: nat

    /** The cursor is inside the text, behind or at the lexeme start, and `pos` is the
        position of `current`. */
    ghost predicate Valid()
      reads this
    {
      begin <= current <= |src| && pos == PosAt(src, current)
    }

    /** Inside a scan: also `beginPos` is the position of `begin`. */
    ghost predicate InScan()
      reads this
    {
      Valid() && beginPos == PosAt(src, begin)
    }

    /** The cursor stands where the scan outcome `r` says, unless `r` is a crash. */
    ghost predicate StoppedAt(r: Scanned)
      reads this
    {
      (r.Emitted? || r.Raised?) ==> current == r.end
    }

    constructor (src: string, cls: S.Classifier)
      ensures InScan()
      ensures this.src == src && this.cls == cls && begin == 0 && current == 0
    {
      this.src := src;
      this.cls := cls;
      pos := Position(1, 1, src);
      beginPos := Position(1, 1, src);
      current := 0;
      begin := 0;
    }

    function AtEof(): (r: bool)
      reads this
      ensures r <==> current >= |src|
    {
      current >= |src|
    }

    /** The next code point as a string, or "" at the end. */
    function Peek(): (r: string)
      reads this
      ensures current < |src| ==> |r| == 1 && r[0] == src[current]
      ensures current >= |src| ==> |r| == 0
    {
      if AtEof() then "" else [src[current]]
    }

    /** `peek().equals(c)`. */
    function PeekIs(c: char): (r: bool)
      reads this
      ensures r <==> S.At(src, current, c)
    {
      Peek() == [c]
    }

    /** `peek()` matches the one-character class `p`. */
    function PeekMatches(p: char -> bool): (r: bool)
      reads this
      ensures r <==> current < |src| && p(src[current])
    {
      Matches(Peek(), p)
    }

    /** Consumes one code point; only Character.LINE_SEPARATOR moves to the next line. */
    method Next() returns (ch: string)
      requires Valid() && current < |src|
      modifies this
      ensures Valid()
      ensures ch == [src[old(current)]] && current == old(current) + 1
      ensures begin == old(begin) && beginPos == old(beginPos)
    {
      var cp := src[current];
      current := current + 1;
      if cp == LINE_SEPARATOR {
        pos := NextLine(pos);
      } else {
        pos := NextColumn(pos);
      }
      ch := [cp];
    }

    /** Consumes the code point `expected`; at the end of the text, or on another code point
        (which is consumed), the error it throws, placed one column back. */
    method Match(expected: char) returns (thrown: Option<CompilerError>)
      requires Valid()
      modifies this
      ensures Valid() && begin == old(begin) && beginPos == old(beginPos)
      ensures old(current) == |src| ==> current == old(current)
      ensures old(current) == |src| ==>
        thrown == Some(CompilerError(Lexical, ExpectedAtEnd([expected]), PreviousColumn(PosAt(src, current))))
      ensures old(current) < |src| ==> current == old(current) + 1
      ensures old(current) < |src| ==> (thrown.None? <==> src[old(current)] == expected)
      ensures old(current) < |src| && thrown.Some? ==>
        thrown.value == CompilerError(Lexical, ExpectedFound([expected], [src[old(current)]]), PreviousColumn(PosAt(src, current)))
    {
      if AtEof() {
        return Some(CompilerError(Lexical, ExpectedAtEnd([expected]), PreviousColumn(pos)));
      }
      var ch := Next();
      if ch == [expected] {
        return None;
      }
      return Some(CompilerError(Lexical, ExpectedFound([expected], ch), PreviousColumn(pos)));
    }

    /** Consumes code points while they satisfy `p`: up to S.Span(src, current, p). */
    method Skip(p: char -> bool)
      requires Valid()
      modifies this
      ensures Valid() && current == S.Span(src, old(current), p)
      ensures begin == old(begin) && beginPos == old(beginPos)
    {
      ghost var end := S.Span(src, current, p);
      while PeekMatches(p)
        invariant Valid() && S.Span(src, current, p) == end
        invariant begin == old(begin) && beginPos == old(beginPos)
        decreases |src| - current
      {
        var _ := Next();
      }
    }

    /** The token spelling the current lexeme, placed at the current position. */
    function Token(kind: LegacyKind, literal: T.Literal): (t: LegacyToken)
      reads this
      requires Valid()
      ensures t.lexeme == src[begin..current] && t.kind in {kind} && t.where == pos && t.literal == literal
    {
      LegacyToken(src[begin..current], kind, pos, literal)
    }

    /** The token spelling the current lexeme, as `scan` returns it. */
    function Emitting(kind: LegacyKind, literal: T.Literal): (r: Scanned)
      reads this
      requires Valid()
      ensures r == Emit(src, begin, current, kind, literal)
    {
      Emitted(current, Token(kind, literal))
    }

    /** The error a LexerException carries: lexical, placed at the start of the lexeme. */
    function Thrown(message: string): (r: Scanned)
      reads this
      ensures r.Raised? && r.end == current && r.error == CompilerError(Lexical, message, beginPos)
    {
      Raised(current, CompilerError(Lexical, message, beginPos))
    }

    /** The rest of an identifier or keyword whose first code point is consumed. */
    method Identifier() returns (r: Scanned)
      requires InScan() && begin < |src| && current == begin + 1
      modifies this
      ensures Valid() && StoppedAt(r) && r == ScanIdentifier(src, old(begin), cls)
    {
      Skip(cls.identifierPart);
      r := Emitting(KeywordKind(src[begin..current]), T.NoLiteral);
    }

    /** The INTEGER token whose digits of the radix are `src[from..current]`; a crash where
        Long.parseLong throws. */
    method IntegerToken(from: nat, radix: nat) returns (r: Scanned)
      requires Valid() && begin <= from <= current && begin < current
      ensures r == LegacyLexerSpec.IntegerToken(src, begin, from, current, radix)
    {
      var literal := S.ParseLong(src[from..current], radix);
      if literal.None? {
        return Crash;
      }
      r := Emitting(Integer, T.IntLiteral(literal.value));
    }

    /** The digits after `0x`, `0b` or `0o`; they must be followed by white space or the end. */
    method RadixNumber(radix: nat, isDigit: char -> bool) returns (r: Scanned)
      requires InScan() && begin + 2 <= |src| && current == begin + 2
      modifies this
      ensures Valid() && StoppedAt(r) && r == ScanRadix(src, old(begin), radix, isDigit)
    {
      Skip(isDigit);
      if Peek() != "" && !PeekMatches(S.IsWhitespace) {
        assert ScanRadix(src, begin, radix, isDigit) == Raise(current, INVALID_NUMBER, PosAt(src, begin));
        return Thrown(INVALID_NUMBER);
      }
      assert ScanRadix(src, begin, radix, isDigit) == LegacyLexerSpec.IntegerToken(src, begin, begin + 2, current, radix);
      r := IntegerToken(begin + 2, radix);
    }

    /** The rest of a decimal literal whose first digit is consumed: a `.` must be followed by
        a digit and makes it a FLOAT. */
    method DecimalNumber() returns (r: Scanned)
      requires InScan() && begin < |src| && current == begin + 1
      modifies this
      ensures Valid() && StoppedAt(r) && r == ScanDecimal(src, old(begin))
    {
      Skip(S.IsDigit);
      DecimalCases(src, begin, current);
      if PeekIs('.') {
        var _ := Next();
        r := Fraction();
        return;
      }
      r := IntegerToken(begin, 10);
    }

    /** The digits after the `.` of a decimal literal, which is consumed. */
    method Fraction() returns (r: Scanned)
      requires InScan() && begin < current - 1 && current <= |src| && src[current - 1] == '.'
      modifies this
      ensures Valid() && StoppedAt(r) && r == ScanFraction(src, old(begin), old(current))
    {
      if !PeekMatches(S.IsDigit) {
        return Thrown(DIGIT_AFTER_POINT);
      }
      Skip(S.IsDigit);
      r := Emitting(Float, T.FloatLiteral(src[begin..current]));
    }

    /** A number literal whose first digit `firstDigit` is consumed. */
    method Number(firstDigit: string) returns (r: Scanned)
      requires InScan() && begin < |src| && current == begin + 1 && firstDigit == [src[begin]]
      modifies this
      ensures Valid() && StoppedAt(r) && r == ScanNumber(src, old(begin))
    {
      if firstDigit == "0" {
        if PeekIs('x') {
          var _ := Next();
          r := RadixNumber(16, S.IsHexDigit);
          return;
        } else if PeekIs('b') {
          var _ := Next();
          r := RadixNumber(2, S.IsBinaryDigit);
          return;
        } else if PeekIs('o') {
          var _ := Next();
          r := RadixNumber(8, S.IsOctalDigit);
          return;
        }
      }
      r := DecimalNumber();
    }

    /** After an invalid escape letter at the cursor: consumes up to the next quote, matches
        it, and throws "Escape inválido" at `where`, or the error of the failed match. */
    method InvalidEscape(where: Position) returns (r: Scanned)
      requires InScan() && begin < current < |src|
      modifies this
      ensures Valid() && StoppedAt(r) && r == SkipInvalidEscape(src, old(begin), old(current), where)
    {
      ghost var j := current;
      var escaping := true;
      var _ := Next();
      escaping := false;
      while Peek() != "" && (Peek() != "\"" || escaping)
        invariant InScan() && begin == old(begin) && j < current <= |src| && !escaping
        invariant S.Span(src, current, NotQuote) == S.Span(src, j + 1, NotQuote)
        decreases |src| - current
      {
        if escaping {
          escaping := false;
        } else if Peek() == "\"" {
          escaping := true;
        }
        var _ := Next();
      }
      var thrown := Match('"');
      if thrown.Some? {
        return Raised(current, thrown.value);
      }
      r := Raised(current, CompilerError(Lexical, S.INVALID_ESCAPE, where));
    }

    /** The rest of a string literal whose opening quote is consumed; newlines are part of
        it. The value is decoded by the one-pass StringLiterals.Unescape, not by the source's
        `replace` chain; the two agree unless a backslash follows another. */
    method StringBody() returns (r: Scanned)
      requires InScan() && begin < |src| && src[begin] == '"' && current == begin + 1
      modifies this
      ensures Valid() && StoppedAt(r) && r == ScanStringLiteral(src, old(begin))
    {
      ghost var target := ScanString(src, begin, begin + 1, false);
      var escaping := false;
      while Peek() != "" && (Peek() != "\"" || escaping)
        invariant InScan() && begin == old(begin) && begin < current <= |src|
        invariant ScanString(src, begin, current, escaping) == target
        decreases |src| - current
      {
        var ch := Peek();
        if escaping {
          if !StringLiterals.IsEscapeLetter(ch[0]) {
            var where := PreviousColumn(pos);
            assert target == SkipInvalidEscape(src, begin, current, where);
            r := InvalidEscape(where);
            return;
          }
          escaping := false;
          assert target == ScanString(src, begin, current + 1, false);
        } else if ch == "\\" {
          escaping := true;
          assert target == ScanString(src, begin, current + 1, true);
        } else {
          assert target == ScanString(src, begin, current + 1, false);
        }
        var _ := Next();
      }
      r := CloseString(escaping);
    }

    /** The closing quote of a string literal, or the error of its failed `match` at the end
        of the text. */
    method CloseString(ghost escaping: bool) returns (r: Scanned)
      requires InScan() && begin < current <= |src| && src[begin] == '"'
      requires current == |src| || (src[current] == '"' && !escaping)
      modifies this
      ensures Valid() && StoppedAt(r) && r == ScanString(src, old(begin), old(current), escaping)
    {
      ghost var j := current;
      var thrown := Match('"');
      if thrown.Some? {
        assert j == |src| && current == j;
        assert ScanString(src, begin, j, escaping) == Raise(j, ExpectedAtEnd("\""), PreviousColumn(PosAt(src, j)));
        return Raised(current, thrown.value);
      }
      assert j < |src| && current == j + 1 && src[j] == '"' && !escaping;
      var literal := StringLiterals.Unescape(src[begin + 1..current - 1]);
      assert ScanString(src, begin, j, escaping) == Emit(src, begin, j + 1, String, T.StringLiteral(literal));
      r := Emitting(String, T.StringLiteral(literal));
    }

    /** A code point of EqualPair, just consumed, and the `=` that may follow it. */
    method EqualPairToken(c: char) returns (r: Scanned)
      requires Valid() && begin < |src| && current == begin + 1 && src[begin] == c && EqualPair(c).Some?
      modifies this
      ensures Valid() && StoppedAt(r) && r == ScanEqualPair(src, old(begin))
    {
      var kinds := EqualPair(c).value;
      if PeekIs('=') {
        var _ := Next();
        return Emitting(kinds.1, T.NoLiteral);
      }
      r := Emitting(kinds.0, T.NoLiteral);
    }

    /** `..` or `.`, `&&` or a lone `&`, `||` or a lone `|`, whose first code point `c` is
        consumed. */
    method DoubledToken(c: char) returns (r: Scanned)
      requires InScan() && begin < |src| && current == begin + 1 && src[begin] == c
      requires c == '.' || c == '&' || c == '|'
      modifies this
      ensures Valid() && StoppedAt(r) && r == ScanDoubled(src, old(begin))
    {
      var doubled := PeekIs(c);
      assert doubled == S.At(src, begin + 1, c);
      if c == '.' {
        if doubled {
          var _ := Next();
          assert ScanDoubled(src, begin) == Emit(src, begin, current, DotDot, T.NoLiteral);
          r := Emitting(DotDot, T.NoLiteral);
        } else {
          assert ScanDoubled(src, begin) == Emit(src, begin, current, Dot, T.NoLiteral);
          r := Emitting(Dot, T.NoLiteral);
        }
      } else if c == '&' {
        if doubled {
          var _ := Next();
          assert ScanDoubled(src, begin) == Emit(src, begin, current, And, T.NoLiteral);
          r := Emitting(And, T.NoLiteral);
        } else {
          assert ScanDoubled(src, begin) == Raise(current, LONE_AMPERSAND, beginPos);
          r := Thrown(LONE_AMPERSAND);
        }
      } else {
        if doubled {
          var _ := Next();
          assert ScanDoubled(src, begin) == Emit(src, begin, current, Or, T.NoLiteral);
          r := Emitting(Or, T.NoLiteral);
        } else {
          assert ScanDoubled(src, begin) == Raise(current, LONE_BAR, beginPos);
          r := Thrown(LONE_BAR);
        }
      }
    }

    /** `/=`, a line comment or `/`, whose first `/` is consumed. A comment is consumed up
        to the newline and `scan` starts over after it. */
    method SlashOrComment() returns (r: Scanned)
      requires InScan() && begin < |src| && current == begin + 1 && src[begin] == '/'
      modifies this
      ensures Valid() && StoppedAt(r) && r == LegacyLexerSpec.Scan(src, old(begin), cls)
      decreases |src| - current, 2
    {
      if PeekIs('/') {
        r := Comment();
        return;
      }
      assert !TriviaAt(src, begin);
      assert LegacyLexerSpec.Scan(src, begin, cls) == ScanSlash(src, begin);
      if PeekIs('=') {
        var _ := Next();
        r := Emitting(SlashEqual, T.NoLiteral);
      } else {
        r := Emitting(Slash, T.NoLiteral);
      }
    }

    /** A line comment whose first `/` is consumed: consumed up to the newline, and `scan`
        starts over after it. */
    method Comment() returns (r: Scanned)
      requires InScan() && current == begin + 1 && CommentAt(src, begin)
      modifies this
      ensures Valid() && StoppedAt(r) && r == LegacyLexerSpec.Scan(src, old(begin), cls)
      decreases |src| - current, 1
    {
      ghost var from := current;
      while !AtEof() && !PeekIs('\n')
        invariant InScan() && begin == old(begin) && from <= current
        invariant S.Span(src, current, S.NotNewline) == S.Span(src, from, S.NotNewline)
        decreases |src| - current
      {
        var _ := Next();
      }
      assert S.Span(src, current, S.NotNewline) == current;
      assert LegacyLexerSpec.Scan(src, begin, cls) == LegacyLexerSpec.Scan(src, current, cls);
      r := Scan();
    }

    /** The token, or the thrown error, whose first code point `ch` is consumed and is
        neither white space nor `/`. */
    method TokenAfter(ch: string) returns (r: Scanned)
      requires InScan() && begin < |src| && current == begin + 1 && ch == [src[begin]]
      requires !S.IsWhitespace(ch[0]) && ch[0] != '/'
      modifies this
      ensures Valid() && StoppedAt(r) && r == ScanToken(src, old(begin), cls)
    {
      var c := ch[0];
      if SingleKind(c).Some? {
        assert ScanToken(src, begin, cls) == Emit(src, begin, current, SingleKind(c).value, T.NoLiteral);
        r := Emitting(SingleKind(c).value, T.NoLiteral);
      } else if EqualPair(c).Some? {
        assert ScanToken(src, begin, cls) == ScanEqualPair(src, begin);
        r := EqualPairToken(c);
      } else if c == '.' || c == '&' || c == '|' {
        assert ScanToken(src, begin, cls) == ScanDoubled(src, begin);
        r := DoubledToken(c);
      } else if c == '"' {
        assert ScanToken(src, begin, cls) == ScanStringLiteral(src, begin);
        r := StringBody();
      } else if Matches(ch, S.IsDigit) {
        assert ScanToken(src, begin, cls) == ScanNumber(src, begin);
        r := Number(ch);
      } else if cls.identifierBegin(c) {
        assert ScanToken(src, begin, cls) == ScanIdentifier(src, begin, cls);
        r := Identifier();
      } else {
        assert ScanToken(src, begin, cls) == Raise(current, S.UNRECOGNIZED, beginPos);
        r := Thrown(S.UNRECOGNIZED);
      }
    }

    /** `scan`: the lexeme starts at the cursor; at the end the EOF token; white space and
        comments are consumed and `scan` starts over after them; otherwise the longest token
        that starts there, or the error thrown. */
    method Scan() returns (r: Scanned)
      requires Valid()
      modifies this
      ensures Valid() && StoppedAt(r) && r == LegacyLexerSpec.Scan(src, old(current), cls)
      decreases |src| - current, 0
    {
      begin := current;
      beginPos := pos;
      if AtEof() {
        return Emitting(Eof, T.NoLiteral);
      }
      var ch := Next();
      var c := ch[0];
      if c == '/' {
        r := SlashOrComment();
      } else if S.IsWhitespace(c) {
        Skip(S.IsWhitespace);
        assert LegacyLexerSpec.Scan(src, begin, cls) == LegacyLexerSpec.Scan(src, current, cls);
        r := Scan();
      } else {
        assert LegacyLexerSpec.Scan(src, begin, cls) == ScanToken(src, begin, cls);
        r := TokenAfter(ch);
      }
    }

    /** `lex`: scans until the EOF token has been added, recording every thrown error and
        scanning on; returns the tokens when no error was thrown and the errors otherwise,
        exactly as LegacyLexerSpec.Lex says, or LexCrash where Long.parseLong throws. */
    static method Lex(src: string, cls: S.Classifier) returns (outcome: LexOutcome)
      ensures outcome == LegacyLexerSpec.Lex(src, cls)
    {
      var lexer := new Lexer(src, cls);
      var tokens: seq<LegacyToken> := [];
      var errors: seq<CompilerError> := [];
      var done := false;
      while !done
        invariant lexer.Valid() && lexer.src == src && lexer.cls == cls
        invariant !done ==> LexRun(src, lexer.current, cls, tokens, errors) == LexRun(src, 0, cls, [], [])
        invariant done ==> LexRun(src, 0, cls, [], []) == Finished(tokens, errors)
        decreases |src| - lexer.current, !done
      {
        var s := lexer.Scan();
        match s
        case Crash =>
          return LexCrash;
        case Raised(_, e) =>
          errors := errors + [e];
        case Emitted(_, t) =>
          tokens := tokens + [t];
          done := t.kind in {Eof};
      }
      if |errors| == 0 {
        return Lexed(Success(tokens));
      } else {
        return Lexed(Error(errors));
      }
    }
  }
}
