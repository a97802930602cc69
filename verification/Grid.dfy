/**
 Scrolling part of a page in place: whole lines are rotated where the region is
 as wide as the page, and cells are copied where it is not.
 */
module Grids {
  import opened Options
  import opened Bytes

  /** A character cell; what is in it does not matter here. */
  type Cell = nat

  datatype LineSize = Single | DoubleWidth | DoubleHeightTop | DoubleHeightBottom

  datatype Line = Line(cells: seq<Cell>, size: LineSize, wrapped: bool)

  /** Rows and columns, all inclusive. */
  datatype Region = Region(top: nat, bottom: nat, left: nat, right: nat) {
    function Height(): int { bottom - top + 1 }
  }

  type Page = seq<Line>

  function Blank(cols: nat, fill: Cell): Line { Line(seq(cols, _ => fill), Single, false) }

  /** A page whose lines are all as wide as it is. */
  predicate Even(lines: Page, cols: nat) { forall r | 0 <= r < |lines| :: |lines[r].cells| == cols }

  /** A region with rows on the page, and columns on it unless it is as wide as the page. */
  predicate On(lines: Page, cols: nat, g: Region) {
    && g.top <= g.bottom < |lines| && g.left <= g.right + 1
    && (Whole(cols, g) || g.right < cols)
  }

  predicate Whole(cols: nat, g: Region) { g.left == 0 && g.right + 1 >= cols }

  // ------------------------------------------------------------------
  // What scrolling means
  // ------------------------------------------------------------------

  /** Whole lines moved by `n` rows, up where `n` is positive; a line moved from outside is blank. */
  function LinesMoved(lines: Page, cols: nat, g: Region, n: int, fill: Cell): (out: Page)
    requires On(lines, cols, g)
    ensures |out| == |lines|
  {
    seq(|lines|, r requires 0 <= r < |lines| =>
      if !(g.top <= r <= g.bottom) then lines[r]
      else if g.top <= r + n <= g.bottom then lines[r + n]
      else Blank(cols, fill))
  }

  /** The cells of one row between two columns, replaced. */
  function Patched(line: Line, g: Region, cells: seq<Cell>): Line
    requires g.left <= g.right + 1 <= |line.cells| && |cells| == g.right + 1 - g.left
  {
    line.(cells := line.cells[..g.left] + cells + line.cells[g.right + 1..])
  }

  /** What a row's cells in the region become. */
  function CellsFor(lines: Page, g: Region, r: nat, n: int, fill: Cell): (cells: seq<Cell>)
    requires g.top <= r <= g.bottom < |lines| && g.left <= g.right + 1
    requires forall q | 0 <= q < |lines| :: g.right < |lines[q].cells|
    ensures |cells| == g.right + 1 - g.left
  {
    if g.top <= r + n <= g.bottom then lines[r + n].cells[g.left..g.right + 1]
    else seq(g.right + 1 - g.left, _ => fill)
  }

  /** Cells moved by `n` rows within the region's columns. */
  function CellsMoved(lines: Page, cols: nat, g: Region, n: int, fill: Cell): (out: Page)
    requires On(lines, cols, g) && g.right < cols && Even(lines, cols)
    ensures |out| == |lines|
  {
    seq(|lines|, r requires 0 <= r < |lines| =>
      if !(g.top <= r <= g.bottom) then lines[r] else Patched(lines[r], g, CellsFor(lines, g, r, n, fill)))
  }

  /** Either, as the region is as wide as the page or not. */
  function Moved(lines: Page, cols: nat, g: Region, n: int, fill: Cell): (out: Page)
    requires On(lines, cols, g) && Even(lines, cols)
    ensures |out| == |lines|
  {
    if n == 0 then lines
    else if Whole(cols, g) then LinesMoved(lines, cols, g, n, fill)
    else CellsMoved(lines, cols, g, n, fill)
  }

  lemma PatchedAt(line: Line, g: Region, cells: seq<Cell>, col: nat)
    requires g.left <= g.right + 1 <= |line.cells| && |cells| == g.right + 1 - g.left && col < |line.cells|
    ensures |Patched(line, g, cells).cells| == |line.cells|
    ensures Patched(line, g, cells).cells[col] == if g.left <= col <= g.right then cells[col - g.left] else line.cells[col]
  {
  }

  lemma LineMovedAt(lines: Page, cols: nat, g: Region, n: int, fill: Cell, r: nat)
    requires On(lines, cols, g) && Even(lines, cols) && r < |lines|
    ensures var line := LinesMoved(lines, cols, g, n, fill)[r];
            && line == (if !(g.top <= r <= g.bottom) then lines[r] else if g.top <= r + n <= g.bottom then lines[r + n] else Blank(cols, fill))
            && |line.cells| == cols
  {
    BlankIsBlank(cols, fill, 0);
  }

  lemma BlankIsBlank(cols: nat, fill: Cell, col: nat)
    ensures |Blank(cols, fill).cells| == cols && (col < cols ==> Blank(cols, fill).cells[col] == fill)
  {
  }

  lemma CellsMovedAt(lines: Page, cols: nat, g: Region, n: int, fill: Cell, r: nat)
    requires On(lines, cols, g) && g.right < cols && Even(lines, cols) && r < |lines|
    ensures var line := CellsMoved(lines, cols, g, n, fill)[r];
            && line == (if !(g.top <= r <= g.bottom) then lines[r] else Patched(lines[r], g, CellsFor(lines, g, r, n, fill)))
            && |line.cells| == cols
  {
  }

  lemma MovedIsEven(lines: Page, cols: nat, g: Region, n: int, fill: Cell)
    requires On(lines, cols, g) && Even(lines, cols)
    ensures Even(Moved(lines, cols, g, n, fill), cols) && On(Moved(lines, cols, g, n, fill), cols, g)
  {
    var out := Moved(lines, cols, g, n, fill);
    forall r | 0 <= r < |out| ensures |out[r].cells| == cols {
      hide LinesMoved, CellsMoved;
      LineMovedAt(lines, cols, g, n, fill, r);
      if n != 0 && !Whole(cols, g) {
        CellsMovedAt(lines, cols, g, n, fill, r);
      }
    }
  }

  /** The cell at each place afterwards: moved if it was in the region, and nothing else changed. */
  lemma MovedAt(lines: Page, cols: nat, g: Region, n: int, fill: Cell, r: nat, col: nat)
    requires On(lines, cols, g) && Even(lines, cols) && r < |lines| && col < cols
    ensures var out := Moved(lines, cols, g, n, fill);
            && |out[r].cells| == cols
            && out[r].cells[col] == if g.top <= r <= g.bottom && g.left <= col <= g.right then
                                      (if g.top <= r + n <= g.bottom then lines[r + n].cells[col] else fill)
                                    else lines[r].cells[col]
  {
    hide LinesMoved, CellsMoved;
    MovedIsEven(lines, cols, g, n, fill);
    LineMovedAt(lines, cols, g, n, fill, r);
    BlankIsBlank(cols, fill, col);
    if n != 0 && !Whole(cols, g) {
      CellsMovedAt(lines, cols, g, n, fill, r);
      if g.top <= r <= g.bottom {
        PatchedAt(lines[r], g, CellsFor(lines, g, r, n, fill), col);
      }
    }
  }

  /** Nothing outside the region changes, attributes included; and cells alone move unless whole lines do. */
  lemma OutsideStays(lines: Page, cols: nat, g: Region, n: int, fill: Cell, r: nat)
    requires On(lines, cols, g) && Even(lines, cols) && r < |lines|
    ensures var out := Moved(lines, cols, g, n, fill);
            && (!(g.top <= r <= g.bottom) ==> out[r] == lines[r])
            && (!Whole(cols, g) ==> out[r].size == lines[r].size && out[r].wrapped == lines[r].wrapped)
  {
  }

  ghost predicate SameCells(a: Page, b: Page) {
    |a| == |b| && forall r | 0 <= r < |a| :: a[r].cells == b[r].cells
  }

  /** Rotating whole lines leaves the same cells as copying cells would have. */
  lemma RotatingIsCopying(lines: Page, cols: nat, g: Region, n: int, fill: Cell)
    requires On(lines, cols, g) && Even(lines, cols) && g.left == 0 && g.right + 1 == cols
    ensures SameCells(LinesMoved(lines, cols, g, n, fill), CellsMoved(lines, cols, g, n, fill))
  {
    hide LinesMoved, CellsMoved, Blank, Even;
    var a, b := LinesMoved(lines, cols, g, n, fill), CellsMoved(lines, cols, g, n, fill);
    forall r | 0 <= r < |a| ensures a[r].cells == b[r].cells {
      SameRow(lines, cols, g, n, fill, r);
    }
  }

  lemma SameRow(lines: Page, cols: nat, g: Region, n: int, fill: Cell, r: nat)
    requires On(lines, cols, g) && Even(lines, cols) && g.left == 0 && g.right + 1 == cols && r < |lines|
    ensures LinesMoved(lines, cols, g, n, fill)[r].cells == CellsMoved(lines, cols, g, n, fill)[r].cells
  {
    hide LinesMoved, CellsMoved, Blank, Patched;
    LineMovedAt(lines, cols, g, n, fill, r);
    CellsMovedAt(lines, cols, g, n, fill, r);
    var a, b := LinesMoved(lines, cols, g, n, fill)[r].cells, CellsMoved(lines, cols, g, n, fill)[r].cells;
    forall col | 0 <= col < cols ensures a[col] == b[col] {
      BlankIsBlank(cols, fill, col);
      if g.top <= r <= g.bottom {
        PatchedAt(lines[r], g, CellsFor(lines, g, r, n, fill), col);
      }
    }
  }

  /** Two scrolls the same way are one. */
  lemma ScrollsAdd(lines: Page, cols: nat, g: Region, n: int, m: int, fill: Cell)
    requires On(lines, cols, g) && Even(lines, cols) && ((n >= 0 && m >= 0) || (n <= 0 && m <= 0))
    ensures Even(Moved(lines, cols, g, n, fill), cols)
    ensures Moved(Moved(lines, cols, g, n, fill), cols, g, m, fill) == Moved(lines, cols, g, n + m, fill)
  {
    MovedIsEven(lines, cols, g, n, fill);
    var once := Moved(lines, cols, g, n, fill);
    var twice, at := Moved(once, cols, g, m, fill), Moved(lines, cols, g, n + m, fill);
    MovedIsEven(once, cols, g, m, fill);
    MovedIsEven(lines, cols, g, n + m, fill);
    forall r | 0 <= r < |lines| ensures twice[r] == at[r] {
      RowsAdd(lines, cols, g, n, m, fill, r);
    }
  }

  lemma RowsAdd(lines: Page, cols: nat, g: Region, n: int, m: int, fill: Cell, r: nat)
    requires On(lines, cols, g) && Even(lines, cols) && ((n >= 0 && m >= 0) || (n <= 0 && m <= 0)) && r < |lines|
    ensures Even(Moved(lines, cols, g, n, fill), cols)
    ensures Moved(Moved(lines, cols, g, n, fill), cols, g, m, fill)[r] == Moved(lines, cols, g, n + m, fill)[r]
  {
    hide CellsMoved, LinesMoved, Even;
    MovedIsEven(lines, cols, g, n, fill);
    if n == 0 || m == 0 {
    } else if Whole(cols, g) {
      LineRowsAdd(lines, cols, g, n, m, fill, r);
    } else {
      var once := Moved(lines, cols, g, n, fill);
      var twice, at := Moved(once, cols, g, m, fill)[r], Moved(lines, cols, g, n + m, fill)[r];
      OutsideStays(lines, cols, g, n, fill, r);
      OutsideStays(once, cols, g, m, fill, r);
      OutsideStays(lines, cols, g, n + m, fill, r);
      CellsAdd(lines, cols, g, n, m, fill, r);
      assert twice.cells == at.cells;
    }
  }

  lemma LineRowsAdd(lines: Page, cols: nat, g: Region, n: int, m: int, fill: Cell, r: nat)
    requires On(lines, cols, g) && Even(lines, cols) && ((n > 0 && m > 0) || (n < 0 && m < 0)) && r < |lines|
        && Whole(cols, g)
    ensures var once := LinesMoved(lines, cols, g, n, fill);
            LinesMoved(once, cols, g, m, fill)[r] == LinesMoved(lines, cols, g, n + m, fill)[r]
  {
    var once := LinesMoved(lines, cols, g, n, fill);
    assert Even(once, cols) by { MovedIsEven(lines, cols, g, n, fill); }
    hide LinesMoved, Even, Blank;
    LineMovedAt(once, cols, g, m, fill, r);
    LineMovedAt(lines, cols, g, n, fill, r);
    LineMovedAt(lines, cols, g, n + m, fill, r);
    if g.top <= r + m <= g.bottom {
      LineMovedAt(lines, cols, g, n, fill, r + m);
    }
  }

  lemma CellsAdd(lines: Page, cols: nat, g: Region, n: int, m: int, fill: Cell, r: nat)
    requires On(lines, cols, g) && Even(lines, cols) && ((n >= 0 && m >= 0) || (n <= 0 && m <= 0)) && r < |lines|
    ensures Even(Moved(lines, cols, g, n, fill), cols)
    ensures var twice, at := Moved(Moved(lines, cols, g, n, fill), cols, g, m, fill)[r].cells, Moved(lines, cols, g, n + m, fill)[r].cells;
            |twice| == |at| == cols && forall col | 0 <= col < cols :: twice[col] == at[col]
  {
    hide Moved, Even;
    MovedIsEven(lines, cols, g, n, fill);
    var once := Moved(lines, cols, g, n, fill);
    MovedIsEven(once, cols, g, m, fill);
    MovedIsEven(lines, cols, g, n + m, fill);
    assert |Moved(once, cols, g, m, fill)[r].cells| == cols == |Moved(lines, cols, g, n + m, fill)[r].cells| by {
      EvenAt(Moved(once, cols, g, m, fill), cols, r);
      EvenAt(Moved(lines, cols, g, n + m, fill), cols, r);
    }
    forall col | 0 <= col < cols
      ensures Moved(once, cols, g, m, fill)[r].cells[col] == Moved(lines, cols, g, n + m, fill)[r].cells[col]
    {
      MovedAt(lines, cols, g, n + m, fill, r, col);
      MovedAt(once, cols, g, m, fill, r, col);
      MovedAt(lines, cols, g, n, fill, r, col);
      if g.top <= r + m <= g.bottom {
        MovedAt(lines, cols, g, n, fill, r + m, col);
      }
    }
  }

  lemma EvenAt(lines: Page, cols: nat, r: nat)
    requires Even(lines, cols) && r < |lines|
    ensures |lines[r].cells| == cols
  {
  }

  /** Scrolling back brings back every row that did not leave, and leaves blank those that did. */
  lemma ScrollingBack(lines: Page, cols: nat, g: Region, n: nat, fill: Cell, r: nat, col: nat)
    requires On(lines, cols, g) && Even(lines, cols) && g.top <= r <= g.bottom && g.left <= col <= g.right && col < cols
    ensures Even(Moved(lines, cols, g, n, fill), cols)
    ensures var back := Moved(Moved(lines, cols, g, n, fill), cols, g, 0 - n, fill);
            |back[r].cells| == cols && back[r].cells[col] == if r >= g.top + n then lines[r].cells[col] else fill
  {
    hide Moved, Even, Whole;
    MovedIsEven(lines, cols, g, n, fill);
    var once := Moved(lines, cols, g, n, fill);
    MovedAt(once, cols, g, 0 - n, fill, r, col);
    if r >= g.top + n {
      MovedAt(lines, cols, g, n, fill, r - n, col);
    }
  }

  // ------------------------------------------------------------------
  // In place
  // ------------------------------------------------------------------

  /** A scroll by more rows than there are is one by as many as there are. */
  lemma NoMoreThanHeight(lines: Page, cols: nat, g: Region, n: nat, fill: Cell)
    requires On(lines, cols, g) && Even(lines, cols)
    ensures Moved(lines, cols, g, n, fill) == Moved(lines, cols, g, Min(n, g.Height()), fill)
    ensures Moved(lines, cols, g, 0 - n, fill) == Moved(lines, cols, g, 0 - Min(n, g.Height()), fill)
  {
  }

  /** Fills `start` up to `end` (clamped to the line). */
  function Erased(line: Line, start: nat, end: nat, fill: Cell): Line {
    var e := Min(end, |line.cells|);
    if start < e then line.(cells := line.cells[..start] + seq(e - start, _ => fill) + line.cells[e..]) else line
  }

  lemma ErasedIsPatched(line: Line, g: Region, fill: Cell)
    requires g.left <= g.right + 1 <= |line.cells|
    ensures Erased(line, g.left, g.right + 1, fill) == Patched(line, g, seq(g.right + 1 - g.left, _ => fill))
  {
    if g.left == g.right + 1 {
      assert line.cells == line.cells[..g.left] + [] + line.cells[g.right + 1..];
    }
  }

  /** A new blank line, in the memory of an old one where there is one. */
  function BlankFrom(reused: Option<Line>, cols: nat, fill: Cell): (line: Line)
    ensures line == Blank(cols, fill)
  {
    match reused
    case Some(line) => line.(cells := line.cells[..0] + seq(cols, _ => fill), size := Single, wrapped := false)
    case None => Blank(cols, fill)
  }

  /** A line with every cell filled and its attributes as a new line's. */
  function Cleared(line: Line, fill: Cell): (cleared: Line)
    ensures cleared == Blank(|line.cells|, fill)
  {
    Line(seq(|line.cells|, _ => fill), Single, false)
  }

  /** The region's lines rotated up by `k`. */
  function Rotated(lines: Page, g: Region, k: nat): (out: Page)
    requires g.top <= g.bottom < |lines| && k <= g.Height()
    ensures |out| == |lines|
  {
    var span := lines[g.top..g.bottom + 1];
    lines[..g.top] + (span[k..] + span[..k]) + lines[g.bottom + 1..]
  }

  lemma RotatedAt(lines: Page, g: Region, k: nat, r: nat)
    requires g.top <= g.bottom < |lines| && k <= g.Height() && r < |lines|
    ensures Rotated(lines, g, k)[r] == if !(g.top <= r <= g.bottom) then lines[r]
                                       else if r + k <= g.bottom then lines[r + k] else lines[r + k - g.Height()]
  {
  }

  /** Rotated, all but the lines that left are where they belong. */
  lemma RotatedBelong(lines: Page, cols: nat, g: Region, k: nat, fill: Cell, r: nat)
    requires On(lines, cols, g) && Even(lines, cols) && k <= g.Height() && r < |lines|
    ensures !(g.top + g.Height() - k <= r <= g.bottom) ==> Rotated(lines, g, k)[r] == LinesMoved(lines, cols, g, k, fill)[r]
    ensures g.top + g.Height() - k <= r <= g.bottom ==>
              Rotated(lines, g, k)[r] == lines[r + k - g.Height()]
                  && LinesMoved(lines, cols, g, k, fill)[r] == Blank(cols, fill)
    ensures var j: nat := g.Height() - k;
            && (!(g.top <= r < g.top + k) ==> Rotated(lines, g, j)[r] == LinesMoved(lines, cols, g, 0 - k, fill)[r])
            && (g.top <= r < g.top + k ==> LinesMoved(lines, cols, g, 0 - k, fill)[r] == Blank(cols, fill))
            && |Rotated(lines, g, j)[r].cells| == cols
  {
    hide Rotated, LinesMoved, Blank;
    RotatedAt(lines, g, k, r);
    RotatedAt(lines, g, g.Height() - k, r);
    LineMovedAt(lines, cols, g, k, fill, r);
    LineMovedAt(lines, cols, g, 0 - k, fill, r);
  }

  lemma UpBelongs(lines: Page, cols: nat, g: Region, k: nat, fill: Cell, rotated: Page, target: Page)
    requires On(lines, cols, g) && Even(lines, cols) && k <= g.Height()
    requires rotated == Rotated(lines, g, k) && target == LinesMoved(lines, cols, g, k, fill)
    ensures |rotated| == |target| == |lines|
    ensures forall r | 0 <= r < |lines| && !(g.bottom - k < r <= g.bottom) :: rotated[r] == target[r]
    ensures forall r | g.bottom - k < r <= g.bottom :: rotated[r] == lines[g.top + (r - (g.bottom + 1 - k))] && target[r] == Blank(cols, fill)
  {
    hide LinesMoved, Rotated, Blank, Even;
    forall r | 0 <= r < |lines|
      ensures !(g.bottom - k < r <= g.bottom) ==> rotated[r] == target[r]
      ensures g.bottom - k < r <= g.bottom ==> rotated[r] == lines[g.top + (r - (g.bottom + 1 - k))] && target[r] == Blank(cols, fill)
    {
      RotatedBelong(lines, cols, g, k, fill, r);
    }
  }

  lemma DownBelongs(lines: Page, cols: nat, g: Region, k: nat, fill: Cell, rotated: Page, target: Page)
    requires On(lines, cols, g) && Even(lines, cols) && k <= g.Height()
    requires rotated == Rotated(lines, g, g.Height() - k) && target == LinesMoved(lines, cols, g, 0 - k, fill)
    ensures forall r | 0 <= r < |lines| && !(g.top <= r < g.top + k) :: rotated[r] == target[r]
    ensures forall r | g.top <= r < g.top + k :: |rotated[r].cells| == cols && target[r] == Blank(cols, fill)
  {
    hide LinesMoved, Rotated, Blank, Even;
    forall r | 0 <= r < |lines|
      ensures !(g.top <= r < g.top + k) ==> rotated[r] == target[r]
      ensures g.top <= r < g.top + k ==> |rotated[r].cells| == cols && target[r] == Blank(cols, fill)
    {
      RotatedBelong(lines, cols, g, k, fill, r);
    }
  }

  /** The rows from `first` up to `past` are as they are to be, and the others as they were. */
  ghost predicate Partly(lines: Page, before: Page, target: Page, first: int, past: int) {
    && |lines| == |before| == |target|
    && forall r | 0 <= r < |lines| :: lines[r] == if first <= r < past then target[r] else before[r]
  }

  lemma PartlyFrom(lines: Page, before: Page, target: Page, first: nat, past: nat)
    requires |lines| == |before| == |target| && lines == target
    requires forall r | 0 <= r < |lines| && !(first <= r < past) :: target[r] == before[r]
    ensures Partly(lines, before, target, first, past)
  {
  }

  lemma PartlyStep(lines: Page, before: Page, target: Page, i: nat, past: nat, line: Line)
    requires Partly(lines, before, target, i, past) && i < past <= |lines| && line == before[i]
    ensures Partly(lines[i := line], before, target, i + 1, past) && lines[i] == target[i]
  {
  }

  lemma PartlyNone(lines: Page, before: Page, target: Page, first: int, past: int)
    requires Partly(lines, before, target, first, past) && first >= past
    ensures lines == before
  {
  }

  lemma OneMoreGone(before: Page, top: nat, n: nat)
    requires top + n < |before|
    ensures before[top..top + n] + [before[top + n]] == before[top..top + (n + 1)]
  {
  }

  lemma AllPatched(lines: Page, before: Page, target: Page, cols: nat, g: Region, n: int, fill: Cell)
    requires On(before, cols, g) && Even(before, cols) && g.right < cols
    requires Partly(lines, before, target, g.top, g.bottom + 1) && target == CellsMoved(before, cols, g, n, fill)
    ensures lines == target
  {
    hide CellsMoved, Patched;
    forall r | 0 <= r < |lines| ensures lines[r] == target[r] {
      CellsMovedAt(before, cols, g, n, fill, r);
    }
  }

  /** The visible page. */
  class Grid {
    var lines: Page
    const cols: nat

    constructor (rows: nat, cols: nat, fill: Cell)
      ensures this.cols == cols && |lines| == rows && Even(lines, cols)
    {
      this.cols := cols;
      lines := seq(rows, _ => Blank(cols, fill));
    }

    /**
     Scrolls up by `n`. Where the region is as wide as the page, `leave` is given
     every line that goes and may return one to be used again. Says
     which lines left, oldest first.
     */
    method ScrollUpWith(g: Region, n: nat, fill: Cell, leave: Line -> Option<Line>) returns (gone: seq<Line>)
      requires On(lines, cols, g) && Even(lines, cols)
      modifies this`lines
      ensures lines == Moved(old(lines), cols, g, n, fill) && Even(lines, cols)
      ensures gone == if Whole(cols, g) then old(lines)[g.top..g.top + Min(n, g.Height())] else []
    {
      MovedIsEven(lines, cols, g, n, fill);
      NoMoreThanHeight(lines, cols, g, n, fill);
      gone := [];
      var height := g.bottom - g.top + 1;
      var k := Min(n, height);
      if k == 0 {
        return;
      }
      if g.left == 0 && g.right + 1 >= cols {
        gone := RotateUp(g, k, fill, leave);
      } else {
        CopyUp(g, k, fill);
      }
    }

    method Rotate(g: Region, k: nat)
      requires g.top <= g.bottom < |lines| && k <= g.Height()
      modifies this`lines
      ensures lines == Rotated(old(lines), g, k)
    {
      var span := lines[g.top..g.bottom + 1];
      span := span[k..] + span[..k];
      lines := lines[..g.top] + span + lines[g.bottom + 1..];
    }

    method RotateUp(g: Region, k: nat, fill: Cell, leave: Line -> Option<Line>) returns (gone: seq<Line>)
      requires On(lines, cols, g) && Even(lines, cols) && 0 < k <= g.Height()
      modifies this`lines
      ensures lines == LinesMoved(old(lines), cols, g, k, fill)
      ensures gone == old(lines)[g.top..g.top + k]
    {
      hide LinesMoved, Rotated, Blank, Even, Partly;
      ghost var before, target, rotated := lines, LinesMoved(lines, cols, g, k, fill), Rotated(lines, g, k);
      UpBelongs(before, cols, g, k, fill, rotated, target);
      Rotate(g, k);
      gone := [];
      var first := g.bottom + 1 - k;
      PartlyFrom(lines, target, rotated, first, g.bottom + 1);
      for i := first to g.bottom + 1
        invariant Partly(lines, target, rotated, i, g.bottom + 1) && |lines| == |before|
        invariant gone == before[g.top..g.top + (i - first)]
      {
        PartlyStep(lines, target, rotated, i, g.bottom + 1, Blank(cols, fill));
        var leaving := lines[i];
        OneMoreGone(before, g.top, i - first);
        gone := gone + [leaving];
        lines := lines[i := BlankFrom(leave(leaving), cols, fill)];
      }
      PartlyNone(lines, target, rotated, g.bottom + 1, g.bottom + 1);
    }

    method CopyUp(g: Region, k: nat, fill: Cell)
      requires On(lines, cols, g) && Even(lines, cols) && g.right < cols
      modifies this`lines
      ensures lines == CellsMoved(old(lines), cols, g, k, fill)
    {
      hide CellsMoved, Patched, Erased, Even;
      ghost var before, target := lines, CellsMoved(lines, cols, g, k, fill);
      for row := g.top to g.bottom + 1
        invariant Partly(lines, before, target, g.top, row)
      {
        CellsMovedAt(before, cols, g, k, fill, row);
        EvenAt(before, cols, row);
        var src := row + k;
        if src <= g.bottom {
          EvenAt(before, cols, src);
          var cells := lines[src].cells[g.left..g.right + 1];
          lines := lines[row := Patched(lines[row], g, cells)];
        } else {
          ErasedIsPatched(lines[row], g, fill);
          lines := lines[row := Erased(lines[row], g.left, g.right + 1, fill)];
        }
      }
      AllPatched(lines, before, target, cols, g, k, fill);
    }

    method ScrollUp(g: Region, n: nat, fill: Cell) returns (gone: seq<Line>)
      requires On(lines, cols, g) && Even(lines, cols)
      modifies this`lines
      ensures lines == Moved(old(lines), cols, g, n, fill) && Even(lines, cols)
      ensures gone == if Whole(cols, g) then old(lines)[g.top..g.top + Min(n, g.Height())] else []
    {
      gone := ScrollUpWith(g, n, fill, _ => None);
    }

    method ScrollDown(g: Region, n: nat, fill: Cell)
      requires On(lines, cols, g) && Even(lines, cols)
      modifies this`lines
      ensures lines == Moved(old(lines), cols, g, 0 - n, fill) && Even(lines, cols)
    {
      hide LinesMoved, CellsMoved;
      MovedIsEven(lines, cols, g, 0 - n, fill);
      NoMoreThanHeight(lines, cols, g, n, fill);
      var height := g.bottom - g.top + 1;
      var k := Min(n, height);
      if k == 0 {
        return;
      }
      if g.left == 0 && g.right + 1 >= cols {
        RotateDown(g, k, fill);
      } else {
        CopyDown(g, k, fill);
      }
    }

    method RotateDown(g: Region, k: nat, fill: Cell)
      requires On(lines, cols, g) && Even(lines, cols) && 0 < k <= g.Height()
      modifies this`lines
      ensures lines == LinesMoved(old(lines), cols, g, 0 - k, fill)
    {
      hide LinesMoved, Rotated, Blank, Even;
      var height := g.bottom - g.top + 1;
      ghost var target, rotated := LinesMoved(lines, cols, g, 0 - k, fill), Rotated(lines, g, height - k);
      DownBelongs(lines, cols, g, k, fill, rotated, target);
      Rotate(g, height - k);
      for row := g.top to g.top + k
        invariant |lines| == |target|
        invariant forall r | 0 <= r < |lines| :: lines[r] == if row <= r < g.top + k then rotated[r] else target[r]
      {
        lines := lines[row := Cleared(lines[row], fill)];
      }
    }

    method CopyDown(g: Region, k: nat, fill: Cell)
      requires On(lines, cols, g) && Even(lines, cols) && g.right < cols
      modifies this`lines
      ensures lines == CellsMoved(old(lines), cols, g, 0 - k, fill)
    {
      hide CellsMoved, Patched, Erased, Even;
      ghost var before, target := lines, CellsMoved(lines, cols, g, 0 - k, fill);
      for row := g.bottom + 1 downto g.top
        invariant Partly(lines, before, target, row, g.bottom + 1)
      {
        CellsMovedAt(before, cols, g, 0 - k, fill, row);
        EvenAt(before, cols, row);
        if row >= g.top + k {
          EvenAt(before, cols, row - k);
          var cells := lines[row - k].cells[g.left..g.right + 1];
          lines := lines[row := Patched(lines[row], g, cells)];
        } else {
          ErasedIsPatched(lines[row], g, fill);
          lines := lines[row := Erased(lines[row], g.left, g.right + 1, fill)];
        }
      }
      AllPatched(lines, before, target, cols, g, 0 - k, fill);
    }
  }
}
