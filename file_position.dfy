/** Line/column positions inside a source text (popsi.FilePosition). */
module FilePosition {

  /** A position: 1-based line and column plus the whole source text. */
  datatype Position = Position(line: int, column: int, src: string)

  /** The first position of a text. */
  function Start(src: string): (p: Position)
    ensures p.line == 1 && p.column == 1 && p.src == src
  {
    Position(1, 1, src)
  }

  /** The position at the start of the following line. */
  function NextLine(p: Position): (r: Position)
    ensures r.line == p.line + 1 && r.column == 1
    ensures r.src == p.src
  {
    Position(p.line + 1, 1, p.src)
  }

  /** The position one column further on the same line. */
  function NextColumn(p: Position): (r: Position)
    ensures r.line == p.line && r.column == p.column + 1
    ensures r.src == p.src
  {
    Position(p.line, p.column + 1, p.src)
  }

  /** One column back; the first column stays where it is. */
  function PreviousColumn(p: Position): (r: Position)
    ensures p.column == 1 ==> r == p
    ensures p.column != 1 ==> r.line == p.line && r.column == p.column - 1
    ensures r.src == p.src
  {
    if p.column == 1 then p else Position(p.line, p.column - 1, p.src)
  }

  /** Stepping forward one column and back again returns to the same position. */
  lemma PreviousUndoesNext(p: Position)
    requires p.column >= 1
    ensures PreviousColumn(NextColumn(p)) == p
  {
  }

  /** `n` steps back, as repeated calls of PreviousColumn. */
  function PreviousColumnN(p: Position, n: nat): Position
  {
    if n == 0 then p else PreviousColumn(PreviousColumnN(p, n - 1))
  }

  /** From a column of at least 1, no number of steps back drops below column 1,
      and the line and the text are never touched. */
  lemma {:induction false} PreviousColumnStaysPositive(p: Position, n: nat)
    requires p.column >= 1
    ensures PreviousColumnN(p, n).column >= 1
    ensures PreviousColumnN(p, n).line == p.line && PreviousColumnN(p, n).src == p.src
    ensures PreviousColumnN(p, n).column == if p.column - n >= 1 then p.column - n else 1
  {
    if n > 0 {
      PreviousColumnStaysPositive(p, n - 1);
    }
  }
}
