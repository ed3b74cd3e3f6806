/** The two list-of-rows containers of matrix.py: `Matrix` (a filled grid) and
    `Table` (rows of text cells rendered as padded fixed-width lines). */
module Matrix {
  import opened Wrappers
  import opened Strings

  /** Raised by rendering: a row has more cells than the shortest row. */
  datatype RenderError = IndexError

  function Clamp(n: int): nat
  {
    if n < 0 then 0 else n
  }

  /** `[fill] * width`. */
  function Copies(n: nat, fill: string): seq<string>
  {
    seq(n, _ => fill)
  }

  /** `"\n".join(map("".join, cells))`. */
  function MatrixText(cells: seq<seq<string>>): string
  {
    Join(seq(|cells|, i requires 0 <= i < |cells| => Join(cells[i], "")), "\n")
  }

  lemma {:induction false} CopiesLength(n: nat, fill: string)
    ensures TotalLength(Copies(n, fill)) == n * |fill|
  {
    if n > 0 {
      assert Copies(n, fill)[1..] == Copies(n - 1, fill);
      CopiesLength(n - 1, fill);
    }
  }

  /** A filled matrix prints as height lines of width * |fill| characters. */
  lemma FilledTextLength(cells: seq<seq<string>>, width: nat, fill: string)
    requires |cells| > 0
    requires forall r :: 0 <= r < |cells| ==> cells[r] == Copies(width, fill)
    ensures |MatrixText(cells)| == |cells| * (width * |fill|) + |cells| - 1
  {
    var lines := seq(|cells|, i requires 0 <= i < |cells| => Join(cells[i], ""));
    forall i | 0 <= i < |cells| ensures |lines[i]| == width * |fill| {
      if width > 0 {
        JoinLength(cells[i], "");
      }
      CopiesLength(width, fill);
    }
    JoinLength(lines, "\n");
    EqualLengths(lines, width * |fill|);
  }

  /** When the fill has no newline, splitting a filled matrix's text on newlines gives back its
      rows, each the fill repeated width times. */
  lemma FilledTextLines(cells: seq<seq<string>>, width: nat, fill: string)
    requires |cells| > 0
    requires '\n' !in fill
    requires forall r :: 0 <= r < |cells| ==> cells[r] == Copies(width, fill)
    ensures Split(MatrixText(cells), '\n') == seq(|cells|, _ => Join(Copies(width, fill), ""))
    ensures forall k :: 0 <= k < |cells| ==> |Split(MatrixText(cells), '\n')[k]| == width * |fill|
  {
    var line := Join(Copies(width, fill), "");
    var lines := seq(|cells|, i requires 0 <= i < |cells| => Join(cells[i], ""));
    assert lines == seq(|cells|, _ => line);
    JoinNoChar(Copies(width, fill), "", '\n');
    SplitJoin(lines, '\n');
    if width > 0 { JoinLength(Copies(width, fill), ""); }
    CopiesLength(width, fill);
  }

  lemma {:induction false} EqualLengths(parts: seq<string>, n: nat)
    requires forall i :: 0 <= i < |parts| ==> |parts[i]| == n
    ensures TotalLength(parts) == |parts| * n
  {
    if |parts| > 0 {
      EqualLengths(parts[1..], n);
    }
  }

  class Matrix {
    var cells: seq<seq<string>>

    /** `Matrix(width, height, fill)`: a negative size gives no rows or empty rows, as `range` and `*` do. */
    constructor (width: int, height: int, fill: string := " ")
      ensures |cells| == Clamp(height)
      ensures forall r :: 0 <= r < |cells| ==> cells[r] == Copies(Clamp(width), fill)
    {
      var rows: seq<seq<string>> := [];
      var i := 0;
      while i < height
        invariant |rows| == Clamp(i) && i <= Clamp(height)
        invariant forall r :: 0 <= r < |rows| ==> rows[r] == Copies(Clamp(width), fill)
      {
        rows := rows + [Copies(Clamp(width), fill)];
        i := i + 1;
      }
      cells := rows;
    }

    function ToString(): string
      reads this
    {
      MatrixText(cells)
    }
  }

  /** The number of columns `zip(*rows)` produces: the length of the shortest row. */
  function Columns(rows: seq<seq<string>>): (n: nat)
    ensures forall r :: 0 <= r < |rows| ==> n <= |rows[r]|
    ensures |rows| > 0 ==> exists r :: 0 <= r < |rows| && n == |rows[r]|
    ensures |rows| == 0 ==> n == 0
  {
    if |rows| == 0 then 0
    else if |rows| == 1 then |rows[0]|
    else
      var rest := Columns(rows[1..]);
      assert forall r :: 1 <= r < |rows| ==> rows[r] == rows[1..][r - 1];
      if |rows[0]| <= rest then |rows[0]| else rest
  }

  /** The width of column c: the longest cell of that column over all rows. */
  function Width(rows: seq<seq<string>>, c: nat): (w: nat)
    requires |rows| > 0
    requires forall r :: 0 <= r < |rows| ==> c < |rows[r]|
    ensures forall r :: 0 <= r < |rows| ==> |rows[r][c]| <= w
    ensures exists r :: 0 <= r < |rows| && |rows[r][c]| == w
  {
    if |rows| == 1 then |rows[0][c]|
    else
      var rest := Width(rows[1..], c);
      assert forall r :: 1 <= r < |rows| ==> rows[r] == rows[1..][r - 1];
      if rest <= |rows[0][c]| then |rows[0][c]| else rest
  }

  /** `[max(map(len, col)) for col in zip(*rows)]`. */
  function Widths(rows: seq<seq<string>>): (ws: seq<nat>)
  {
    seq(Columns(rows), c requires 0 <= c < Columns(rows) => Width(rows, c))
  }

  function Spaces(n: nat): string
  {
    seq(n, _ => ' ')
  }

  /** `cell.ljust(width)` when just is "left", `cell.rjust(width)` otherwise. */
  function Pad(cell: string, width: nat, just: string): (r: string)
    ensures |r| == if |cell| < width then width else |cell|
    ensures just == "left" ==> r[..|cell|] == cell
    ensures just != "left" ==> r[|r| - |cell|..] == cell
    ensures forall i :: 0 <= i < |r| - |cell| ==> (if just == "left" then r[|cell| + i] else r[i]) == ' '
  {
    var fill := Spaces(if |cell| < width then width - |cell| else 0);
    if just == "left" then cell + fill else fill + cell
  }

  /** One rendered row: every cell padded to its column's width, joined by sep. */
  function Line(row: seq<string>, widths: seq<nat>, just: string, sep: string): string
    requires |row| <= |widths|
  {
    Join(seq(|row|, i requires 0 <= i < |row| => Pad(row[i], widths[i], just)), sep)
  }

  predicate Fits(rows: seq<seq<string>>)
  {
    forall r :: 0 <= r < |rows| ==> |rows[r]| <= Columns(rows)
  }

  function Lines(rows: seq<seq<string>>, widths: seq<nat>, just: string, sep: string): (ls: seq<string>)
    requires forall r :: 0 <= r < |rows| ==> |rows[r]| <= |widths|
    ensures |ls| == |rows|
  {
    if |rows| == 0 then []
    else Lines(rows[..|rows| - 1], widths, just, sep) + [Line(rows[|rows| - 1], widths, just, sep)]
  }

  /** `str(table)`: fails like the source's `widths[i]` when a row is longer than the shortest one. */
  function Render(rows: seq<seq<string>>, just: string, sep: string): Result<string, RenderError>
  {
    if Fits(rows) then Success(Join(Lines(rows, Widths(rows), just, sep), "\n"))
    else Failure(IndexError)
  }

  class Table {
    var rows: seq<seq<string>>
    var just: string
    var sep: string

    constructor (iterable: seq<seq<string>> := [], just: string := "left", sep: string := " ")
      ensures rows == iterable && this.just == just && this.sep == sep
    {
      rows := iterable;
      this.just := just;
      this.sep := sep;
    }

    /** `list.append`. */
    method Append(row: seq<string>)
      modifies this
      ensures rows == old(rows) + [row]
      ensures just == old(just) && sep == old(sep)
    {
      rows := rows + [row];
    }

    /** `Table.__str__`. */
    method ToString() returns (r: Result<string, RenderError>)
      ensures r == Render(rows, just, sep)
    {
      var widths := Widths(rows);
      var lines: seq<string> := [];
      var i := 0;
      while i < |rows|
        invariant 0 <= i <= |rows|
        invariant forall k :: 0 <= k < i ==> |rows[k]| <= |widths|
        invariant lines == Lines(rows[..i], widths, just, sep)
      {
        if |rows[i]| > |widths| {
          return Failure(IndexError);
        }
        var row, justify := rows[i], just;
        var line: string;
        if justify == "left" {
          line := Join(seq(|row|, k requires 0 <= k < |row| => Pad(row[k], widths[k], "left")), sep);
        } else {
          line := Join(seq(|row|, k requires 0 <= k < |row| => Pad(row[k], widths[k], justify)), sep);
        }
        assert line == Line(row, widths, just, sep);
        LinesStep(rows, i, widths, just, sep);
        lines := lines + [line];
        i := i + 1;
      }
      assert rows[..i] == rows;
      r := Success(Join(lines, "\n"));
    }
  }

  lemma LinesStep(rows: seq<seq<string>>, i: nat, widths: seq<nat>, just: string, sep: string)
    requires i < |rows|
    requires forall r :: 0 <= r <= i ==> |rows[r]| <= |widths|
    ensures Lines(rows[..i + 1], widths, just, sep) == Lines(rows[..i], widths, just, sep) + [Line(rows[i], widths, just, sep)]
  {
    assert rows[..i + 1][..i] == rows[..i];
  }

  /** A table whose rows all have the same length always renders. */
  lemma RectangularRenders(rows: seq<seq<string>>, n: nat, just: string, sep: string)
    requires forall r :: 0 <= r < |rows| ==> |rows[r]| == n
    ensures Render(rows, just, sep).Success?
  {
  }

  lemma {:induction false} LinesAt(rows: seq<seq<string>>, widths: seq<nat>, just: string, sep: string, k: nat)
    requires forall r :: 0 <= r < |rows| ==> |rows[r]| <= |widths|
    requires k < |rows|
    ensures Lines(rows, widths, just, sep)[k] == Line(rows[k], widths, just, sep)
  {
    if k < |rows| - 1 {
      var init := rows[..|rows| - 1];
      LinesAt(init, widths, just, sep, k);
    }
  }

  lemma PadNoChar(cell: string, width: nat, just: string, c: char)
    requires c != ' ' && c !in cell
    ensures c !in Pad(cell, width, just)
  {
  }

  /** Rendering gives exactly one line per row, rows in order, joined by newlines
      (when no cell and not the separator holds a newline). */
  lemma RenderLines(rows: seq<seq<string>>, just: string, sep: string)
    requires |rows| > 0
    requires Render(rows, just, sep).Success?
    requires '\n' !in sep
    requires forall r, c :: 0 <= r < |rows| && 0 <= c < |rows[r]| ==> '\n' !in rows[r][c]
    ensures var text := Render(rows, just, sep).value;
      && |Split(text, '\n')| == |rows|
      && forall k :: 0 <= k < |rows| ==> Split(text, '\n')[k] == Line(rows[k], Widths(rows), just, sep)
  {
    var widths := Widths(rows);
    var lines := Lines(rows, widths, just, sep);
    forall k | 0 <= k < |rows| ensures lines[k] == Line(rows[k], widths, just, sep) && '\n' !in lines[k] {
      LinesAt(rows, widths, just, sep, k);
      var row := rows[k];
      var padded := seq(|row|, i requires 0 <= i < |row| => Pad(row[i], widths[i], just));
      forall i | 0 <= i < |row| ensures '\n' !in padded[i] {
        PadNoChar(row[i], widths[i], just, '\n');
      }
      JoinNoChar(padded, sep, '\n');
    }
    SplitJoin(lines, '\n');
  }

  lemma {:induction false} PaddedTotal(row: seq<string>, widths: seq<nat>, just: string)
    requires |row| <= |widths|
    requires forall i :: 0 <= i < |row| ==> |row[i]| <= widths[i]
    ensures TotalLength(seq(|row|, i requires 0 <= i < |row| => Pad(row[i], widths[i], just))) == Sum(widths[..|row|])
  {
    var padded := seq(|row|, i requires 0 <= i < |row| => Pad(row[i], widths[i], just));
    if |row| > 0 {
      PaddedTotal(row[1..], widths[1..], just);
      assert padded[1..] == seq(|row[1..]|, i requires 0 <= i < |row[1..]| => Pad(row[1..][i], widths[1..][i], just));
      assert widths[..|row|][1..] == widths[1..][..|row[1..]|];
    }
  }

  function Sum(ns: seq<nat>): nat
  {
    if |ns| == 0 then 0 else ns[0] + Sum(ns[1..])
  }

  /** Every line of a rectangular table has the same length: the column widths plus one separator between columns. */
  lemma LineLength(rows: seq<seq<string>>, k: nat, just: string, sep: string)
    requires 0 <= k < |rows|
    requires Columns(rows) > 0
    requires forall r :: 0 <= r < |rows| ==> |rows[r]| == Columns(rows)
    ensures var widths := Widths(rows);
      |Line(rows[k], widths, just, sep)| == Sum(widths) + (Columns(rows) - 1) * |sep|
  {
    var widths := Widths(rows);
    var row := rows[k];
    var padded := seq(|row|, i requires 0 <= i < |row| => Pad(row[i], widths[i], just));
    PaddedTotal(row, widths, just);
    assert widths[..|row|] == widths;
    JoinLength(padded, sep);
  }
}
