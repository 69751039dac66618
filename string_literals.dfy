/** The value of a string literal: the text between the quotes with its escape sequences
    (`\n`, `\r`, `\t`, `\"`, `\\`) decoded. Both lexers decode by a chain of
    `String.replace` calls; that chain is modelled here as written, next to a single
    left-to-right decoder that the lexer models use. */
module StringLiterals {

  /** Java's `String.replace(target, replacement)`: every occurrence of `target`, found left
      to right without overlaps, is replaced. */
  function Replace(s: string, target: string, replacement: string): string
    requires |target| > 0
    decreases |s|
  {
    if |s| < |target| then s
    else if s[..|target|] == target then replacement + Replace(s[|target|..], target, replacement)
    else [s[0]] + Replace(s[1..], target, replacement)
  }

  /** `target` occurs in `s` at index `k`. */
  predicate OccursAt(s: string, target: string, k: nat)
  {
    k + |target| <= |s| && s[k..k + |target|] == target
  }

  /** A string without `target` is left alone. */
  lemma {:induction false} ReplaceAbsent(s: string, target: string, replacement: string)
    requires |target| > 0
    requires forall k: nat :: !OccursAt(s, target, k)
    ensures Replace(s, target, replacement) == s
    decreases |s|
  {
    if |s| >= |target| {
      assert !OccursAt(s, target, 0);
      assert s[0..|target|] == s[..|target|];
      forall k: nat ensures !OccursAt(s[1..], target, k) {
        assert !OccursAt(s, target, k + 1);
        if k + |target| <= |s[1..]| {
          assert s[1..][k..k + |target|] == s[k + 1..k + 1 + |target|];
        }
      }
      ReplaceAbsent(s[1..], target, replacement);
    }
  }

  /** The decoding chain as the lexers write it: `\n`, `\r`, `\t`, `\"` and `\\` are replaced
      one after the other, each over the whole text. */
  function UnescapeAsWritten(s: string): string
  {
    Replace(Replace(Replace(Replace(Replace(s, "\\n", "\n"), "\\r", "\r"), "\\t", "\t"), "\\\"", "\""), "\\\\", "\\")
  }

  /** The letters that may follow a backslash. */
  predicate IsEscapeLetter(c: char)
  {
    c == '"' || c == '\\' || c == 'n' || c == 'r' || c == 't'
  }

  /** The character an escape letter stands for. */
  function EscapedChar(c: char): char
    requires IsEscapeLetter(c)
  {
    match c
    case 'n' => '\n'
    case 'r' => '\r'
    case 't' => '\t'
    case _ => c
  }

  /** Decodes escapes in one pass, left to right: a backslash and an escape letter become
      one character; anything else is kept as it is. */
  function Unescape(s: string): (r: string)
    ensures |r| <= |s|
    decreases |s|
  {
    if |s| == 0 then ""
    else if s[0] == '\\' && |s| >= 2 && IsEscapeLetter(s[1]) then [EscapedChar(s[1])] + Unescape(s[2..])
    else [s[0]] + Unescape(s[1..])
  }

  /** Text without a backslash decodes to itself. */
  lemma {:induction false} UnescapeWithoutBackslash(s: string)
    requires forall k :: 0 <= k < |s| ==> s[k] != '\\'
    ensures Unescape(s) == s
  {
    if |s| > 0 {
      UnescapeWithoutBackslash(s[1..]);
      assert [s[0]] + s[1..] == s;
    }
  }

  /** A front without a backslash decodes to itself, whatever follows it. */
  lemma {:induction false} UnescapeAfterPlain(a: string, b: string)
    requires forall k :: 0 <= k < |a| ==> a[k] != '\\'
    ensures Unescape(a + b) == a + Unescape(b)
  {
    if |a| == 0 {
      assert a + b == b;
    } else {
      UnescapeAfterPlain(a[1..], b);
      assert (a + b)[0] == a[0] && (a + b)[1..] == a[1..] + b;
      assert [a[0]] + (a[1..] + Unescape(b)) == a + Unescape(b);
    }
  }

  /** A backslash before a code point that no escape uses is kept, with that code point. */
  lemma UnescapeKeepsInvalidEscape(c: char, b: string)
    requires !IsEscapeLetter(c)
    ensures Unescape(['\\', c] + b) == ['\\', c] + Unescape(b)
  {
    assert (['\\', c] + b)[1..] == [c] + b;
    assert ([c] + b)[1..] == b;
  }

  /** A body whose only backslash stands before a code point that no escape uses decodes
      to itself. */
  lemma UnescapeKeepsBody(front: string, c: char, rest: string)
    requires forall k :: 0 <= k < |front| ==> front[k] != '\\'
    requires forall k :: 0 <= k < |rest| ==> rest[k] != '\\'
    requires !IsEscapeLetter(c)
    ensures Unescape(front + ['\\', c] + rest) == front + ['\\', c] + rest
  {
    assert front + ['\\', c] + rest == front + (['\\', c] + rest);
    UnescapeAfterPlain(front, ['\\', c] + rest);
    UnescapeKeepsInvalidEscape(c, rest);
    UnescapeWithoutBackslash(rest);
  }

  /** How the source text writes a character inside a string literal. */
  function EscapeChar(c: char): string
  {
    match c
    case '\n' => "\\n"
    case '\r' => "\\r"
    case '\t' => "\\t"
    case '"' => "\\\""
    case '\\' => "\\\\"
    case _ => [c]
  }

  /** How the source text writes a string. */
  function Escape(t: string): (r: string)
    ensures |r| >= |t|
  {
    if |t| == 0 then "" else EscapeChar(t[0]) + Escape(t[1..])
  }

  lemma UnescapeEscapedChar(c: char, rest: string)
    ensures Unescape(EscapeChar(c) + rest) == [c] + Unescape(rest)
  {
    var e := EscapeChar(c) + rest;
    if |EscapeChar(c)| == 2 {
      assert e[2..] == rest;
    } else {
      assert e[1..] == rest;
    }
  }

  /** Decoding undoes writing: every string is the value of the literal that writes it. */
  lemma {:induction false} UnescapeEscape(t: string)
    ensures Unescape(Escape(t)) == t
  {
    if |t| > 0 {
      UnescapeEscapedChar(t[0], Escape(t[1..]));
      UnescapeEscape(t[1..]);
      assert [t[0]] + t[1..] == t;
    }
  }

  /** The written chain does not undo writing: the literal `"\\n"` (an escaped backslash, then
      the letter n) should stand for a backslash and an `n`, but the chain first turns the
      second backslash and the `n` into a line feed. */
  lemma AsWrittenMisreadsEscapedBackslash()
    ensures Escape("\\n") == "\\\\n"
    ensures UnescapeAsWritten("\\\\n") == "\\\n"
    ensures UnescapeAsWritten(Escape("\\n")) != "\\n"
    ensures Unescape(Escape("\\n")) == "\\n"
  {
    assert Escape("\\n") == "\\\\" + Escape("n");
    assert Escape("n") == "n" + Escape("");
    var s := "\\\\n";
    assert s[..2] != "\\n";
    assert s[1..] == "\\n";
    assert s[1..][..2] == "\\n";
    assert Replace(s[1..], "\\n", "\n") == "\n" + Replace("", "\\n", "\n");
    var s1 := "\\\n";
    assert Replace(s, "\\n", "\n") == s1;
    forall k: nat ensures !OccursAt(s1, "\\r", k) && !OccursAt(s1, "\\t", k)
      && !OccursAt(s1, "\\\"", k) && !OccursAt(s1, "\\\\", k)
    {
      if k == 0 { assert s1[0..2] == s1; }
    }
    ReplaceAbsent(s1, "\\r", "\r");
    ReplaceAbsent(s1, "\\t", "\t");
    ReplaceAbsent(s1, "\\\"", "\"");
    ReplaceAbsent(s1, "\\\\", "\\");
    UnescapeEscape("\\n");
  }
  /** No backslash in `s` is written right after another one. */
  predicate NoEscapedBackslash(s: string)
  {
    forall k :: 0 <= k < |s| - 1 ==> !(s[k] == '\\' && s[k + 1] == '\\')
  }

  /** A first code point that cannot start `target` is kept, and the rest is replaced. */
  lemma ReplaceCons(c: char, rest: string, target: string, replacement: string)
    requires |target| > 0 && c != target[0]
    ensures Replace([c] + rest, target, replacement) == [c] + Replace(rest, target, replacement)
  {
    var s := [c] + rest;
    assert s[1..] == rest;
    if |s| >= |target| {
      assert s[..|target|][0] == c;
    }
  }

  /** A leading pair that is not the two-letter `target`, and whose second letter cannot
      start it, is kept. */
  lemma ReplacePair(a: char, b: char, rest: string, target: string, replacement: string)
    requires |target| == 2 && [a, b] != target && b != target[0]
    ensures Replace([a, b] + rest, target, replacement) == [a, b] + Replace(rest, target, replacement)
  {
    var s := [a, b] + rest;
    assert s[..2] == [a, b];
    assert s[1..] == [b] + rest;
    ReplaceCons(b, rest, target, replacement);
  }

  /** A leading `target` is replaced. */
  lemma ReplaceHit(rest: string, target: string, replacement: string)
    requires |target| > 0
    ensures Replace(target + rest, target, replacement) == replacement + Replace(rest, target, replacement)
  {
    var s := target + rest;
    assert s[..|target|] == target;
    assert s[|target|..] == rest;
  }

  /** The chain keeps a first code point that is not a backslash. */
  lemma AsWrittenCons(c: char, rest: string)
    requires c != '\\'
    ensures UnescapeAsWritten([c] + rest) == [c] + UnescapeAsWritten(rest)
  {
    var r1 := Replace(rest, "\\n", "\n");
    var r2 := Replace(r1, "\\r", "\r");
    var r3 := Replace(r2, "\\t", "\t");
    var r4 := Replace(r3, "\\\"", "\"");
    ReplaceCons(c, rest, "\\n", "\n");
    ReplaceCons(c, r1, "\\r", "\r");
    ReplaceCons(c, r2, "\\t", "\t");
    ReplaceCons(c, r3, "\\\"", "\"");
    ReplaceCons(c, r4, "\\\\", "\\");
  }

  /** The chain keeps a backslash followed by a code point that is neither an escape letter
      nor a backslash. */
  lemma AsWrittenKeepsPair(x: char, rest: string)
    requires !IsEscapeLetter(x)
    ensures UnescapeAsWritten(['\\', x] + rest) == ['\\', x] + UnescapeAsWritten(rest)
  {
    var r1 := Replace(rest, "\\n", "\n");
    var r2 := Replace(r1, "\\r", "\r");
    var r3 := Replace(r2, "\\t", "\t");
    var r4 := Replace(r3, "\\\"", "\"");
    ReplacePair('\\', x, rest, "\\n", "\n");
    ReplacePair('\\', x, r1, "\\r", "\r");
    ReplacePair('\\', x, r2, "\\t", "\t");
    ReplacePair('\\', x, r3, "\\\"", "\"");
    ReplacePair('\\', x, r4, "\\\\", "\\");
  }

  /** The chain decodes a leading escape of a letter other than the backslash, and what it
      stands for is never touched again. */
  lemma AsWrittenDecodes(x: char, rest: string)
    requires IsEscapeLetter(x) && x != '\\'
    ensures UnescapeAsWritten(['\\', x] + rest) == [EscapedChar(x)] + UnescapeAsWritten(rest)
  {
    var y := EscapedChar(x);
    var r1 := Replace(rest, "\\n", "\n");
    var r2 := Replace(r1, "\\r", "\r");
    var r3 := Replace(r2, "\\t", "\t");
    var r4 := Replace(r3, "\\\"", "\"");
    if x == 'n' {
      ReplaceHit(rest, "\\n", "\n");
      ReplaceCons(y, r1, "\\r", "\r");
      ReplaceCons(y, r2, "\\t", "\t");
      ReplaceCons(y, r3, "\\\"", "\"");
    } else if x == 'r' {
      ReplacePair('\\', x, rest, "\\n", "\n");
      ReplaceHit(r1, "\\r", "\r");
      ReplaceCons(y, r2, "\\t", "\t");
      ReplaceCons(y, r3, "\\\"", "\"");
    } else if x == 't' {
      ReplacePair('\\', x, rest, "\\n", "\n");
      ReplacePair('\\', x, r1, "\\r", "\r");
      ReplaceHit(r2, "\\t", "\t");
      ReplaceCons(y, r3, "\\\"", "\"");
    } else {
      ReplacePair('\\', x, rest, "\\n", "\n");
      ReplacePair('\\', x, r1, "\\r", "\r");
      ReplacePair('\\', x, r2, "\\t", "\t");
      ReplaceHit(r3, "\\\"", "\"");
    }
    ReplaceCons(y, r4, "\\\\", "\\");
  }

  /** What follows a literal without escaped backslashes has none either. */
  lemma NoEscapedBackslashSuffix(s: string, k: nat)
    requires NoEscapedBackslash(s) && k <= |s|
    ensures NoEscapedBackslash(s[k..])
  {
    forall i | 0 <= i < |s[k..]| - 1 ensures !(s[k..][i] == '\\' && s[k..][i + 1] == '\\') {
      assert s[k..][i] == s[k + i] && s[k..][i + 1] == s[k + i + 1];
    }
  }

  /** One step of the agreement: a first code point that is not a backslash. */
  lemma AgreeAfterPlain(c: char, rest: string)
    requires c != '\\' && UnescapeAsWritten(rest) == Unescape(rest)
    ensures UnescapeAsWritten([c] + rest) == Unescape([c] + rest)
  {
    assert ([c] + rest)[1..] == rest;
    AsWrittenCons(c, rest);
  }

  /** One step of the agreement: an escape of a letter other than the backslash. */
  lemma AgreeAfterDecoded(x: char, rest: string)
    requires IsEscapeLetter(x) && x != '\\' && UnescapeAsWritten(rest) == Unescape(rest)
    ensures UnescapeAsWritten(['\\', x] + rest) == Unescape(['\\', x] + rest)
  {
    var s := ['\\', x] + rest;
    assert s[2..] == rest;
    assert Unescape(s) == [EscapedChar(x)] + Unescape(rest);
    AsWrittenDecodes(x, rest);
  }

  /** One step of the agreement: a backslash before a code point that no escape uses. */
  lemma AgreeAfterKept(x: char, rest: string)
    requires !IsEscapeLetter(x) && UnescapeAsWritten(rest) == Unescape(rest)
    ensures UnescapeAsWritten(['\\', x] + rest) == Unescape(['\\', x] + rest)
  {
    var s := ['\\', x] + rest;
    assert s[1..] == [x] + rest;
    assert ([x] + rest)[1..] == rest;
    assert Unescape(s) == ['\\', x] + Unescape(rest);
    AsWrittenKeepsPair(x, rest);
  }

  /** The chain as written and the one-pass decoder agree on every literal in which no
      backslash follows another: the two differ only where an escaped backslash is read. */
  lemma {:induction false} AsWrittenAgreesWithoutEscapedBackslash(s: string)
    requires NoEscapedBackslash(s)
    ensures UnescapeAsWritten(s) == Unescape(s)
    decreases |s|
  {
    if |s| == 0 {
      assert UnescapeAsWritten(s) == s;
    } else if s[0] != '\\' {
      NoEscapedBackslashSuffix(s, 1);
      AsWrittenAgreesWithoutEscapedBackslash(s[1..]);
      assert s == [s[0]] + s[1..];
      AgreeAfterPlain(s[0], s[1..]);
    } else if |s| == 1 {
      assert UnescapeAsWritten(s) == s;
    } else {
      NoEscapedBackslashSuffix(s, 2);
      AsWrittenAgreesWithoutEscapedBackslash(s[2..]);
      assert s == ['\\', s[1]] + s[2..];
      if IsEscapeLetter(s[1]) {
        AgreeAfterDecoded(s[1], s[2..]);
      } else {
        AgreeAfterKept(s[1], s[2..]);
      }
    }
  }
}
