/** The clean-up `AstPrinter.print` applies to the text it built: every run of white space
    (`\s`, the default Java class: space, tab, newline, vertical tab, form feed, carriage return)
    replaced by one space, then `String.trim`, which strips the code points up to U+0020 at
    both ends. */
module Whitespace {

  /** A code point of the regular-expression class `\s`: the space, or one of tab, line feed,
      vertical tab, form feed and carriage return, which are U+0009 to U+000D. */
  predicate IsSpace(c: char) {
    c == ' ' || '\t' <= c <= '\r'
  }

  /** A code point `String.trim` strips: U+0000 to U+0020. */
  predicate Blank(c: char) {
    c <= ' '
  }

  lemma SpaceIsBlank(c: char)
    requires IsSpace(c)
    ensures Blank(c)
  {
  }

  /** No white space code point other than the plain space, and no two in a row. */
  predicate SingleSpaced(s: string) {
    && (forall i | 0 <= i < |s| :: IsSpace(s[i]) ==> s[i] == ' ')
    && (forall i | 0 <= i < |s| - 1 :: !(IsSpace(s[i]) && IsSpace(s[i + 1])))
  }

  /** Neither end is a code point `trim` strips. */
  predicate Trimmed(s: string) {
    |s| > 0 ==> !Blank(s[0]) && !Blank(s[|s| - 1])
  }

  /** The shape of every printed text. */
  predicate Normal(s: string) {
    SingleSpaced(s) && Trimmed(s)
  }

  /** `replaceAll("\\s+", " ")`: a white space code point followed by another is dropped,
      the last one of each run becomes a space. */
  function Collapse(s: string): string
    decreases |s|
  {
    if |s| == 0 then ""
    else if IsSpace(s[0]) && |s| > 1 && IsSpace(s[1]) then Collapse(s[1..])
    else [if IsSpace(s[0]) then ' ' else s[0]] + Collapse(s[1..])
  }

  /** Collapsing keeps a text empty or not, and keeps each end: white space stays white space
      (a plain space), anything else stays as it was. */
  lemma {:induction false} CollapseEnds(s: string)
    ensures |s| == 0 <==> |Collapse(s)| == 0
    ensures |s| > 0 ==> var r := Collapse(s);
      && (IsSpace(r[0]) <==> IsSpace(s[0])) && (!IsSpace(s[0]) ==> r[0] == s[0])
      && (IsSpace(r[|r| - 1]) <==> IsSpace(s[|s| - 1])) && (!IsSpace(s[|s| - 1]) ==> r[|r| - 1] == s[|s| - 1])
    decreases |s|
  {
    if |s| > 0 {
      CollapseEnds(s[1..]);
    }
  }

  /** The collapsed text is single-spaced. */
  lemma {:induction false} CollapseIsSingleSpaced(s: string)
    ensures SingleSpaced(Collapse(s))
    decreases |s|
  {
    if |s| > 0 {
      CollapseIsSingleSpaced(s[1..]);
    }
  }

  /** The text without its leading code points up to U+0020. */
  function TrimStart(s: string): string
    decreases |s|
  {
    if |s| > 0 && Blank(s[0]) then TrimStart(s[1..]) else s
  }

  /** `TrimStart` leaves a suffix of the text that does not start blank, and the whole text
      when it does not start blank. */
  lemma {:induction false} TrimStartSuffix(s: string)
    ensures var r := TrimStart(s);
      && |r| <= |s| && r == s[|s| - |r|..]
      && (|r| > 0 ==> !Blank(r[0]))
      && (|s| > 0 && !Blank(s[0]) ==> r == s)
    decreases |s|
  {
    if |s| > 0 && Blank(s[0]) {
      TrimStartSuffix(s[1..]);
    }
  }

  /** The text without its trailing code points up to U+0020. */
  function TrimEnd(s: string): string
    decreases |s|
  {
    if |s| > 0 && Blank(s[|s| - 1]) then TrimEnd(s[..|s| - 1]) else s
  }

  /** `TrimEnd` leaves a prefix of the text that does not end blank, and the whole text when
      it does not end blank. */
  lemma {:induction false} TrimEndPrefix(s: string)
    ensures var r := TrimEnd(s);
      && |r| <= |s| && r == s[..|r|]
      && (|r| > 0 ==> !Blank(r[|r| - 1]))
      && (|s| > 0 && !Blank(s[|s| - 1]) ==> r == s)
    decreases |s|
  {
    if |s| > 0 && Blank(s[|s| - 1]) {
      TrimEndPrefix(s[..|s| - 1]);
    }
  }

  /** `String.trim`. */
  function Trim(s: string): string {
    TrimEnd(TrimStart(s))
  }

  /** What `print` does to the visited text. */
  function Normalize(s: string): string {
    Trim(Collapse(s))
  }

  /** A part of a single-spaced text is single-spaced. */
  lemma SliceSingleSpaced(s: string, i: nat, j: nat)
    requires i <= j <= |s| && SingleSpaced(s)
    ensures SingleSpaced(s[i..j])
  {
    var t := s[i..j];
    forall k | 0 <= k < |t| - 1
      ensures !(IsSpace(t[k]) && IsSpace(t[k + 1]))
    {
      assert t[k] == s[i + k] && t[k + 1] == s[i + k + 1];
    }
  }

  /** Trimming keeps a text single-spaced and leaves no blank end. */
  lemma TrimNormal(s: string)
    requires SingleSpaced(s)
    ensures Normal(Trim(s))
  {
    var t := TrimStart(s);
    TrimStartSuffix(s);
    TrimEndPrefix(t);
    SliceSingleSpaced(s, |s| - |t|, |s|);
    SliceSingleSpaced(t, 0, |TrimEnd(t)|);
  }

  /** Whatever the input, the printed text has no blank end, no white space other than the
      plain space and no two spaces in a row. */
  lemma NormalizeIsNormal(s: string)
    ensures Normal(Normalize(s))
  {
    CollapseIsSingleSpaced(s);
    TrimNormal(Collapse(s));
  }

  /** A single-spaced text is left alone by the collapsing. */
  lemma {:induction false} CollapseSingleSpaced(s: string)
    requires SingleSpaced(s)
    ensures Collapse(s) == s
    decreases |s|
  {
    if |s| > 0 {
      SliceSingleSpaced(s, 1, |s|);
      CollapseSingleSpaced(s[1..]);
      assert s == [s[0]] + s[1..];
    }
  }

  /** A normal text is its own normal form. */
  lemma NormalIsFixed(s: string)
    requires Normal(s)
    ensures Normalize(s) == s
  {
    CollapseSingleSpaced(s);
  }

  /** Normalizing twice is normalizing once, so `print` applied to printed text changes
      nothing. */
  lemma NormalizeIdempotent(s: string)
    ensures Normalize(Normalize(s)) == Normalize(s)
  {
    NormalizeIsNormal(s);
    NormalIsFixed(Normalize(s));
  }

  /** Collapsing a text that starts with `c`: `c` is dropped before white space when it is
      white space itself, and otherwise kept, as a space if it is white space. */
  lemma CollapseCons(c: char, t: string)
    ensures IsSpace(c) && |t| > 0 && IsSpace(t[0]) ==> Collapse([c] + t) == Collapse(t)
    ensures !(IsSpace(c) && |t| > 0 && IsSpace(t[0])) ==>
      Collapse([c] + t) == [if IsSpace(c) then ' ' else c] + Collapse(t)
  {
    assert ([c] + t)[1..] == t;
  }

  /** Two texts that do not meet in white space collapse separately. */
  lemma {:induction false} CollapseJoin(a: string, b: string)
    requires |a| == 0 || |b| == 0 || !IsSpace(a[|a| - 1]) || !IsSpace(b[0])
    ensures Collapse(a + b) == Collapse(a) + Collapse(b)
    decreases |a|
  {
    if |a| == 0 {
      assert a + b == b;
    } else if |b| == 0 {
      assert a + b == a;
    } else {
      var c, rest := a[0], a[1..];
      assert a == [c] + rest && a + b == [c] + (rest + b);
      CollapseJoin(rest, b);
      CollapseCons(c, rest);
      CollapseCons(c, rest + b);
      if |rest| > 0 {
        assert (rest + b)[0] == rest[0];
      }
    }
  }

  /** A text with no blank code point: a lexeme such as a name or an operator. */
  predicate Word(w: string) {
    |w| > 0 && forall i | 0 <= i < |w| :: !Blank(w[i])
  }

  /** A text whose ends are not blank. */
  predicate Solid(s: string) {
    |s| > 0 && !Blank(s[0]) && !Blank(s[|s| - 1])
  }

  lemma WordIsFixed(w: string)
    requires Word(w)
    ensures Collapse(w) == w && Solid(w)
  {
    CollapseSingleSpaced(w);
  }

  /** Trimming leaves a solid text alone. */
  lemma SolidTrim(s: string)
    requires Solid(s)
    ensures Trim(s) == s
  {
    TrimStartSuffix(s);
    TrimEndPrefix(s);
  }

  /** A solid text collapses to a solid text with the same ends, which trimming keeps. */
  lemma SolidCollapse(s: string)
    requires Solid(s)
    ensures Solid(Collapse(s)) && Normalize(s) == Collapse(s)
  {
    CollapseEnds(s);
    SolidTrim(Collapse(s));
  }
}
