/** The current lexer (popsi.lexer.Lexer) as the object it is: a cursor over the source text
    that appends tokens and errors as it goes. Every operation is proved to do what the
    functions of LexerSpec say, and `Lex` to return what LexerSpec.Lex returns. */
module CurrentLexer {
  import opened Wrappers
  import opened FilePosition
  import opened Tokens
  import opened Diagnostics
  import opened LexerSpec
  import StringLiterals

  /** `String.matches` with a one-character class: `s` is one code point satisfying `p`. */
  predicate Matches(s: string, p: char -> bool)
  {
    |s| == 1 && p(s[0])
  }

  /** Appending a run of errors after another. */
  lemma Regrouped<T>(a: seq<T>, b: seq<T>, c: seq<T>)
    ensures a + b + c == a + (b + c)
  {
  }

  class Lexer {
    /** The text being lexed, and the foreign identifier classification it uses. */
    const src: string
    const cls: Classifier
    /** The tokens and errors recorded so far. */
    var tokens: seq<Token>
    var errors: seq<CompilerError>
    /** The position where the current lexeme starts, and the current position. */
    var beginPos: Position
    var pos: Position
    /** The index of the first code point of the current lexeme, and of the next one. */
    var begin: nat
    var current: nat

    /** The cursor is inside the text, behind or at the lexeme start, and `pos` is the
        position of `current`. */
    ghost predicate Valid()
      reads this
    {
      begin <= current <= |src| && pos == PosAt(src, current)
    }

    /** Inside a scan: also `beginPos` is the position of `begin`. */
    ghost predicate InScan()
      reads this
    {
      Valid() && beginPos == PosAt(src, begin)
    }

    /** The fields are those after the scan `s`, run on top of `tokens0` and `errors0`. */
    ghost predicate Produced(s: Scanned, tokens0: seq<Token>, errors0: seq<CompilerError>)
      reads this
    {
      s.Scanned? && current == s.end && begin == s.lexemeStart
      && tokens == tokens0 + s.tokens && errors == errors0 + s.errors
    }

    constructor (src: string, cls: Classifier)
      ensures Valid() && InScan()
      ensures this.src == src && this.cls == cls
      ensures tokens == [] && errors == [] && begin == 0 && current == 0
    {
      this.src := src;
      this.cls := cls;
      tokens := [];
      errors := [];
      pos := Position(1, 1, src);
      beginPos := Position(1, 1, src);
      current := 0;
      begin := 0;
    }

    function AtEof(): (r: bool)
      reads this
      ensures r <==> current >= |src|
    {
      current >= |src|
    }

    /** The next code point as a string, or "" at the end. */
    function Peek(): (r: string)
      reads this
      ensures current < |src| ==> |r| == 1 && r[0] == src[current]
      ensures current >= |src| ==> |r| == 0
    {
      if AtEof() then "" else [src[current]]
    }

    /** `peek().equals(c)`. */
    function PeekIs(c: char): (r: bool)
      reads this
      ensures r <==> At(src, current, c)
    {
      Peek() == [c]
    }

    /** The code point after the next one, or "" when there is none. */
    function PeekNext(): (r: string)
      reads this
      ensures current + 1 < |src| ==> |r| == 1 && r[0] == src[current + 1]
      ensures current + 1 >= |src| ==> |r| == 0
    {
      if current + 1 >= |src| then "" else [src[current + 1]]
    }

    /** Consumes one code point; a newline moves to the next line. */
    method Next() returns (ch: string)
      requires Valid() && current < |src|
      modifies this
      ensures Valid()
      ensures ch == [src[old(current)]] && current == old(current) + 1
      ensures tokens == old(tokens) && errors == old(errors)
      ensures begin == old(begin) && beginPos == old(beginPos)
    {
      var cp := src[current];
      current := current + 1;
      if [cp] == "\n" {
        pos := NextLine(pos);
      } else {
        pos := NextColumn(pos);
      }
      ch := [cp];
    }

    /** Consumes the next code point iff it is `expected`. */
    method Match(expected: char) returns (matched: bool)
      requires Valid()
      modifies this
      ensures Valid()
      ensures matched <==> At(src, old(current), expected)
      ensures current == old(current) + (if matched then 1 else 0)
      ensures tokens == old(tokens) && errors == old(errors)
      ensures begin == old(begin) && beginPos == old(beginPos)
    {
      if AtEof() {
        return false;
      }
      if !PeekIs(expected) {
        return false;
      }
      var _ := Next();
      return true;
    }

    /** Records a token spelling the current lexeme, at the current position. */
    method AddToken(kind: TokenKind, literal: Literal)
      requires Valid()
      modifies this
      ensures errors == old(errors) && current == old(current) && begin == old(begin)
      ensures tokens == old(tokens) + [Token(src[begin..current], kind, pos, literal)]
      ensures pos == old(pos) && beginPos == old(beginPos)
    {
      tokens := tokens + [Token(src[begin..current], kind, pos, literal)];
    }

    /** Records a lexical error at the start of the current lexeme. */
    method AddError(message: string)
      modifies this
      ensures errors == old(errors) + [CompilerError(Lexical, message, beginPos)]
      ensures tokens == old(tokens) && current == old(current) && begin == old(begin)
      ensures pos == old(pos) && beginPos == old(beginPos)
    {
      errors := errors + [CompilerError(Lexical, message, beginPos)];
    }

    /** Consumes code points while they satisfy `p`: up to Span(src, current, p). */
    method Skip(p: char -> bool)
      requires Valid()
      modifies this
      ensures Valid() && current == Span(src, old(current), p)
      ensures tokens == old(tokens) && errors == old(errors)
      ensures begin == old(begin) && beginPos == old(beginPos)
    {
      ghost var end := Span(src, current, p);
      while Matches(Peek(), p)
        invariant Valid() && Span(src, current, p) == end
        invariant tokens == old(tokens) && errors == old(errors)
        invariant begin == old(begin) && beginPos == old(beginPos)
        decreases |src| - current
      {
        var _ := Next();
      }
    }

    /** The rest of an identifier or keyword whose first code point is consumed. */
    method Identifier()
      requires InScan() && begin < |src| && current == begin + 1
      modifies this
      ensures Valid() && Produced(ScanIdentifier(src, old(begin), cls), old(tokens), old(errors))
    {
      Skip(cls.identifierPart);
      AddToken(KeywordKind(src[begin..current]), NoLiteral);
    }

    /** The digits after `0x`, `0b` or `0o`. */
    method RadixNumber(radix: nat, isDigit: char -> bool) returns (ok: bool)
      requires InScan() && begin + 2 <= |src| && current == begin + 2
      modifies this
      ensures Valid()
      ensures ok <==> ScanRadix(src, old(begin), radix, isDigit).Scanned?
      ensures ok ==> Produced(ScanRadix(src, old(begin), radix, isDigit), old(tokens), old(errors))
    {
      Skip(isDigit);
      assert ScanRadix(src, begin, radix, isDigit) == LexerSpec.IntegerToken(src, begin, begin + 2, current, radix);
      ok := IntegerToken(begin + 2, radix);
    }

    /** Records the INTEGER token whose digits of the radix are `src[from..current]`; fails
        where Long.parseLong throws. */
    method IntegerToken(from: nat, radix: nat) returns (ok: bool)
      requires Valid() && begin <= from <= current && begin < current
      modifies this
      ensures Valid()
      ensures ok <==> LexerSpec.IntegerToken(src, old(begin), from, old(current), radix).Scanned?
      ensures ok ==> Produced(LexerSpec.IntegerToken(src, old(begin), from, old(current), radix), old(tokens), old(errors))
    {
      var literal := ParseLong(src[from..current], radix);
      if literal.None? {
        return false;
      }
      AddToken(Integer, IntLiteral(literal.value));
      return true;
    }

    /** The `.` at the cursor and the digits after it, ending a FLOAT literal. */
    method Fraction()
      requires Valid() && begin < current < |src|
      modifies this
      ensures Valid()
      ensures Produced(FloatToken(src, old(begin), old(current)), old(tokens), old(errors))
    {
      var _ := Next();
      Skip(IsDigit);
      AddToken(Float, FloatLiteral(src[begin..current]));
    }

    /** The rest of a decimal literal whose first digit is consumed; a `.` followed by a
        digit makes it a FLOAT. */
    method DecimalNumber() returns (ok: bool)
      requires InScan() && begin < |src| && current == begin + 1
      modifies this
      ensures Valid()
      ensures ok <==> ScanDecimal(src, old(begin)).Scanned?
      ensures ok ==> Produced(ScanDecimal(src, old(begin)), old(tokens), old(errors))
    {
      Skip(IsDigit);
      if PeekIs('.') && Matches(PeekNext(), IsDigit) {
        assert ScanDecimal(src, begin) == FloatToken(src, begin, current);
        Fraction();
        return true;
      }
      assert ScanDecimal(src, begin) == LexerSpec.IntegerToken(src, begin, begin, current, 10);
      ok := IntegerToken(begin, 10);
    }

    /** A number literal whose first digit `firstDigit` is consumed. */
    method Number(firstDigit: string) returns (ok: bool)
      requires InScan() && begin < |src| && current == begin + 1 && firstDigit == [src[begin]]
      modifies this
      ensures Valid()
      ensures ok <==> ScanNumber(src, old(begin)).Scanned?
      ensures ok ==> Produced(ScanNumber(src, old(begin)), old(tokens), old(errors))
    {
      var zero := firstDigit == "0";
      var matched := false;
      if zero {
        matched := Match('x');
      }
      if matched {
        assert ScanNumber(src, begin) == ScanRadix(src, begin, 16, IsHexDigit);
        ok := RadixNumber(16, IsHexDigit);
        return;
      }
      if zero {
        matched := Match('b');
      }
      if matched {
        assert ScanNumber(src, begin) == ScanRadix(src, begin, 2, IsBinaryDigit);
        ok := RadixNumber(2, IsBinaryDigit);
        return;
      }
      if zero {
        matched := Match('o');
      }
      if matched {
        assert ScanNumber(src, begin) == ScanRadix(src, begin, 8, IsOctalDigit);
        ok := RadixNumber(8, IsOctalDigit);
        return;
      }
      assert ScanNumber(src, begin) == ScanDecimal(src, begin);
      ok := DecimalNumber();
    }

    /** The code point after a backslash inside a string: an escape letter is consumed;
        anything else is an error and is consumed as well, which throws at the end of the
        text. */
    method StringEscape() returns (ok: bool, ghost escapeErrors: seq<CompilerError>)
      requires InScan() && current < |src| && src[current] == '\\'
      modifies this
      ensures InScan() && begin == old(begin) && tokens == old(tokens) && current > old(current)
      ensures ok <==> old(current) + 1 < |src|
      ensures ok ==> current == old(current) + 2
      ensures ok ==> errors == old(errors) + escapeErrors
      ensures ok ==> escapeErrors == if StringLiterals.IsEscapeLetter(src[old(current) + 1]) then []
                                    else [LexError(src, begin, INVALID_ESCAPE)]
    {
      var _ := Next();
      if PeekIs('"') || PeekIs('\\') || PeekIs('n') || PeekIs('r') || PeekIs('t') {
        var _ := Next();
        return true, [];
      }
      AddError(INVALID_ESCAPE);
      if AtEof() {
        return false, [LexError(src, begin, INVALID_ESCAPE)];
      }
      var _ := Next();
      return true, [LexError(src, begin, INVALID_ESCAPE)];
    }

    /** One code point of a string body, or an escape sequence. `mine` are the errors the
        string has recorded on top of `errors0`, and `mine'` those after this step. */
    method StringContent(ghost errors0: seq<CompilerError>, ghost mine: seq<CompilerError>) returns (ok: bool, ghost mine': seq<CompilerError>)
      requires InScan() && begin < current < |src| && src[current] != '"' && src[current] != '\n'
      requires errors == errors0 + mine
      modifies this
      ensures InScan() && begin == old(begin) && tokens == old(tokens) && old(current) < current
      ensures !ok ==> ScanString(src, begin, old(current), mine).Crash?
      ensures ok ==> errors == errors0 + mine'
      ensures ok ==> ScanString(src, begin, current, mine') == ScanString(src, begin, old(current), mine)
    {
      if PeekIs('\\') {
        ghost var j := current;
        ghost var escapeErrors;
        ok, escapeErrors := StringEscape();
        mine' := mine + escapeErrors;
        if ok && StringLiterals.IsEscapeLetter(src[j + 1]) {
          assert mine' == mine;
        }
      } else {
        var _ := Next();
        ok, mine' := true, mine;
      }
    }

    /** The rest of a string literal whose opening quote is consumed. */
    method StringBody() returns (ok: bool)
      requires InScan() && begin < |src| && src[begin] == '"' && current == begin + 1
      modifies this
      ensures Valid()
      ensures ok <==> ScanStringLiteral(src, old(begin)).Scanned?
      ensures ok ==> Produced(ScanStringLiteral(src, old(begin)), old(tokens), old(errors))
    {
      ghost var target := ScanString(src, begin, begin + 1, []);
      ghost var mine: seq<CompilerError> := [];
      while !AtEof() && !PeekIs('"')
        invariant InScan() && begin == old(begin) && begin < current
        invariant tokens == old(tokens) && errors == old(errors) + mine
        invariant ScanString(src, begin, current, mine) == target
        decreases |src| - current
      {
        if PeekIs('\n') {
          AddError(UNCLOSED_STRING);
          Regrouped(old(errors), mine, [LexError(src, begin, UNCLOSED_STRING)]);
          return true;
        }
        ok, mine := StringContent(old(errors), mine);
        if !ok {
          return;
        }
      }
      if AtEof() {
        AddError(UNCLOSED_STRING);
        Regrouped(old(errors), mine, [LexError(src, begin, UNCLOSED_STRING)]);
        return true;
      }
      var _ := Next();
      var literal := StringLiterals.Unescape(src[begin + 1..current - 1]);
      AddToken(String, StringLiteral(literal));
      return true;
    }

    /** `=`, `%`, `!`, `+`, `*`, `^`, `<` or `>`, just consumed, and the `=` that may
        follow it. */
    method EqualPairToken(c: char)
      requires Valid() && begin < |src| && current == begin + 1 && src[begin] == c && EqualPair(c).Some?
      modifies this
      ensures Valid() && Produced(ScanEqualPair(src, old(begin)), old(tokens), old(errors))
    {
      var matched := Match('=');
      var kinds := EqualPair(c).value;
      AddToken(if matched then kinds.1 else kinds.0, NoLiteral);
    }

    /** `-=`, `->` or `-`, whose `-` is consumed. */
    method MinusToken()
      requires Valid() && begin < |src| && current == begin + 1 && src[begin] == '-'
      modifies this
      ensures Valid() && Produced(ScanMinus(src, old(begin)), old(tokens), old(errors))
    {
      var matched := Match('=');
      if matched {
        AddToken(MinusEqual, NoLiteral);
      } else {
        matched := Match('>');
        AddToken(if matched then Arrow else Minus, NoLiteral);
      }
    }

    /** A line comment, `/=` or `/`, whose first `/` is consumed. A comment is skipped up to
        the newline and moves the lexeme start behind it. */
    method SlashOrComment()
      requires Valid() && begin < |src| && current == begin + 1 && src[begin] == '/'
      modifies this
      ensures Valid() && Produced(ScanSlash(src, old(begin)), old(tokens), old(errors))
    {
      var matched := Match('/');
      if matched {
        Skip(NotNewline);
        begin := current;
      } else {
        matched := Match('=');
        AddToken(if matched then SlashEqual else Slash, NoLiteral);
      }
    }

    /** `..` or `.`, `&&` or a lone `&`, `||` or a lone `|`, whose first code point `c` is
        consumed. */
    method DoubledToken(c: char)
      requires InScan() && begin < |src| && current == begin + 1 && src[begin] == c
      requires c == '.' || c == '&' || c == '|'
      modifies this
      ensures Valid() && Produced(ScanDoubled(src, old(begin)), old(tokens), old(errors))
    {
      if c == '.' {
        var matched := Match('.');
        AddToken(if matched then DotDot else Dot, NoLiteral);
      } else if c == '&' {
        if PeekIs('&') {
          var _ := Next();
          AddToken(And, NoLiteral);
        } else {
          AddError(LONE_AMPERSAND);
        }
      } else {
        if PeekIs('|') {
          var _ := Next();
          AddToken(Or, NoLiteral);
        } else {
          AddError(LONE_BAR);
        }
      }
    }

    /** One scan: the lexeme starts at the cursor, and the longest token that starts there
        is recorded, or an error, or nothing for white space and comments. It fails where
        the source throws. */
    method Scan() returns (ok: bool)
      requires Valid()
      modifies this
      ensures Valid()
      ensures old(current) == |src| ==> ok && current == begin == old(current)
      ensures old(current) == |src| ==> tokens == old(tokens) && errors == old(errors)
      ensures old(current) < |src| ==> (ok <==> LexerSpec.Scan(src, old(current), cls).Scanned?)
      ensures old(current) < |src| && ok ==> Produced(LexerSpec.Scan(src, old(current), cls), old(tokens), old(errors))
    {
      begin := current;
      beginPos := pos;
      if AtEof() {
        return true;
      }
      var ch := Next();
      var c := ch[0];
      ok := true;
      if SingleKind(c).Some? {
        AddToken(SingleKind(c).value, NoLiteral);
      } else if EqualPair(c).Some? {
        EqualPairToken(c);
      } else if c == '-' {
        MinusToken();
      } else if c == '/' {
        SlashOrComment();
      } else if c == '.' || c == '&' || c == '|' {
        DoubledToken(c);
      } else if IsWhitespace(c) {
        Skip(IsWhitespace);
      } else if c == '"' {
        ok := StringBody();
      } else if Matches(ch, IsDigit) {
        ok := Number(ch);
      } else if cls.identifierBegin(c) {
        Identifier();
      } else {
        AddError(UNRECOGNIZED);
      }
    }

    /** `lex`: scans until the end of the text, then records the EOF token; returns the
        tokens when no error was recorded and the errors otherwise, exactly as LexerSpec.Lex
        says, or LexCrash where the source throws. */
    static method Lex(src: string, cls: Classifier) returns (outcome: LexOutcome)
      ensures outcome == LexerSpec.Lex(src, cls)
    {
      var lexer := new Lexer(src, cls);
      while !lexer.AtEof()
        invariant lexer.Valid() && lexer.src == src && lexer.cls == cls
        invariant LexRun(src, lexer.current, cls, lexer.tokens, lexer.errors, lexer.begin) == LexRun(src, 0, cls, [], [], 0)
        decreases |src| - lexer.current
      {
        var ok := lexer.Scan();
        if !ok {
          return LexCrash;
        }
      }
      lexer.AddToken(Eof, NoLiteral);
      if |lexer.errors| == 0 {
        return Lexed(Success(lexer.tokens));
      } else {
        return Lexed(Error(lexer.errors));
      }
    }
  }
}
