/**
 Who draws on the screen, and the painting that skips cells already right (`Console` in
 `kernel/src/fbcon/mod.rs`).

 The framebuffer is one glyph a text cell: `pixels`. Painting a cell stores its glyph; the kernel's
 record of what each cell shows, `shown`, is kept beside it. While userspace has the screen it may
 store anything.
 */
module Console {
  import opened Common
  import opened ConsoleText
  import opened ConsoleGrid
  import opened ConsolePages
  import opened ConsoleReport

  datatype Owner = Kernel | Userspace | Report

  class Console {
    const grid: Grid
    const page: Grid
    const shown: array<Glyph>
    const pixels: array<Glyph>
    var hasScreen: bool
    var owner: Owner

    ghost function Repr(): set<object> {
      {this, grid, grid.cells, page, page.cells, shown, pixels}
    }

    ghost predicate Valid()
      reads this, grid, page
    {
      && grid != page && grid.cells != page.cells && shown != pixels
      && shown != grid.cells && shown != page.cells && pixels != grid.cells && pixels != page.cells
      && shown.Length == pixels.Length == CELLS
      && grid.Valid() && page.Valid() && grid.damage.Clean?
      && (hasScreen ==> grid.Usable())
    }

    /** The cell of row `r` and column `c`. */
    function Cell(r: nat, c: nat): nat {
      r * MAX_COLS + c
    }

    /** Unless userspace may have drawn since, the record is right. */
    ghost predicate RecordIsRight()
      requires Valid()
      reads this, grid, page, shown, pixels
    {
      hasScreen && !owner.Userspace? ==>
        forall r: nat, c: nat :: r < grid.rows && c < grid.cols ==> pixels[Cell(r, c)] == shown[Cell(r, c)]
    }

    /** Rows `first` up to `last` show `lines`. */
    ghost predicate Shows(lines: seq<seq<Glyph>>, first: nat, last: nat)
      requires Valid() && last <= |lines| && |lines| == grid.rows
      requires forall r :: 0 <= r < |lines| ==> |lines[r]| == grid.cols
      reads this, grid, page, pixels
    {
      forall r: nat, c: nat :: first <= r < last && c < grid.cols ==> pixels[Cell(r, c)] == lines[r][c]
    }

    /** Whenever the kernel has the screen, every cell is what a full repaint of the grid would put there. */
    ghost predicate Painted()
      requires Valid()
      reads this, grid, grid.cells, page, pixels
    {
      hasScreen && owner.Kernel? ==> Shows(grid.View().lines, 0, grid.rows)
    }

    constructor ()
      ensures Valid() && RecordIsRight() && Painted() && fresh(Repr()) && !hasScreen
    {
      grid := new Grid();
      page := new Grid();
      shown := new Glyph[CELLS](_ => BLANK);
      pixels := new Glyph[CELLS](_ => BLANK);
      hasScreen, owner := false, Kernel;
    }

    /** Rows `first` to `last` painted from `source`, cells the record says are right skipped unless `everything`. */
    method PaintFrom(source: Grid, first: nat, last: nat, everything: bool)
      requires Valid() && hasScreen && (source == grid || source == page)
      requires source.Usable() && source.rows == grid.rows && source.cols == grid.cols
      requires !everything ==>
                 forall r: nat, c: nat :: r < grid.rows && c < grid.cols ==> pixels[Cell(r, c)] == shown[Cell(r, c)]
      modifies shown, pixels
      ensures forall r: nat, c: nat :: first <= r <= last && r < grid.rows && c < grid.cols ==>
                pixels[Cell(r, c)] == shown[Cell(r, c)] == source.View().lines[r][c]
      ensures forall r: nat, c: nat :: !(first <= r <= last) && r < grid.rows && c < grid.cols ==>
                pixels[Cell(r, c)] == old(pixels[Cell(r, c)]) && shown[Cell(r, c)] == old(shown[Cell(r, c)])
    {
      var row := first;
      while row <= last && row < grid.rows
        invariant first <= row && (row == first || row <= last + 1)
        invariant forall r: nat, c: nat :: first <= r < row && r < grid.rows && c < grid.cols ==>
                    pixels[Cell(r, c)] == shown[Cell(r, c)] == source.View().lines[r][c]
        invariant forall r: nat, c: nat :: !(first <= r < row) && r < grid.rows && c < grid.cols ==>
                    pixels[Cell(r, c)] == old(pixels[Cell(r, c)]) && shown[Cell(r, c)] == old(shown[Cell(r, c)])
        decreases grid.rows - row
      {
        PaintRow(source, row, everything);
        row := row + 1;
      }
    }

    method PaintRow(source: Grid, row: nat, everything: bool)
      requires Valid() && hasScreen && (source == grid || source == page)
      requires source.Usable() && source.rows == grid.rows && source.cols == grid.cols && row < grid.rows
      requires !everything ==> forall c: nat :: c < grid.cols ==> pixels[Cell(row, c)] == shown[Cell(row, c)]
      modifies shown, pixels
      ensures forall c: nat :: c < grid.cols ==>
                pixels[Cell(row, c)] == shown[Cell(row, c)] == source.View().lines[row][c]
      ensures forall r: nat, c: nat :: r != row && r < grid.rows && c < grid.cols ==>
                pixels[Cell(r, c)] == old(pixels[Cell(r, c)]) && shown[Cell(r, c)] == old(shown[Cell(r, c)])
    {
      var col := 0;
      while col < grid.cols
        invariant 0 <= col <= grid.cols
        invariant forall c: nat :: c < col ==>
                    pixels[Cell(row, c)] == shown[Cell(row, c)] == source.View().lines[row][c]
        invariant !everything ==> forall c: nat :: c < grid.cols ==> pixels[Cell(row, c)] == shown[Cell(row, c)]
        invariant forall r: nat, c: nat :: r != row && r < grid.rows && c < grid.cols ==>
                    pixels[Cell(r, c)] == old(pixels[Cell(r, c)]) && shown[Cell(r, c)] == old(shown[Cell(r, c)])
      {
        var glyph := source.GlyphAt(row, col);
        if everything || shown[Cell(row, col)] != glyph {
          pixels[Cell(row, col)] := glyph;
          shown[Cell(row, col)] := glyph;
        }
        col := col + 1;
      }
    }

    /** `attach`: a screen of this size, cleared, with the kernel drawing on an empty grid. */
    method Attach(cols: nat, rows: nat)
      requires Valid() && 0 < cols <= MAX_COLS && 0 < rows <= MAX_ROWS
      modifies Repr()
      ensures Valid() && RecordIsRight() && Painted() && hasScreen && owner.Kernel?
      ensures grid.View() == Fresh(rows, cols)
    {
      grid.Reset(cols, rows);
      forall i | 0 <= i < CELLS {
        pixels[i] := BLANK;
      }
      forall i | 0 <= i < CELLS {
        shown[i] := BLANK;
      }
      owner := Kernel;
      hasScreen := true;
    }

    /** `write`: the grid takes the bytes, and what they changed is painted if the kernel has the screen. */
    method Write(bytes: seq<Byte>)
      requires Valid() && RecordIsRight() && Painted()
      modifies Repr()
      ensures Valid() && RecordIsRight() && Painted() && owner == old(owner) && hasScreen == old(hasScreen)
      ensures grid.rows == old(grid.rows) && grid.cols == old(grid.cols)
      ensures hasScreen ==>
                && grid.View() == Written(old(grid.View()), old(grid.st), grid.rows, grid.cols, bytes)
                && grid.st == After(old(grid.st), bytes)
    {
      grid.Write(bytes);
      var damage := grid.TakeDamage();
      if hasScreen && owner.Kernel? && damage.Rows? {
        PaintFrom(grid, damage.first, damage.last, false);
      }
    }

    /** `yield_screen`: userspace draws from here on. */
    method YieldScreen() returns (had: bool)
      requires Valid() && RecordIsRight() && Painted()
      modifies this`owner
      ensures Valid() && RecordIsRight() && Painted() && owner.Userspace? && had == old(owner).Kernel?
    {
      had := owner.Kernel?;
      owner := Userspace;
    }

    /** What userspace does with a screen it has: anything. */
    method Scribble(at: nat, g: Glyph)
      requires Valid() && RecordIsRight() && Painted() && owner.Userspace? && at < CELLS
      modifies pixels
      ensures Valid() && RecordIsRight() && Painted()
    {
      pixels[at] := g;
    }

    /** `hold_for_report`: refused unless the kernel has a screen. */
    method HoldForReport() returns (held: bool)
      requires Valid() && RecordIsRight() && Painted()
      modifies this`owner
      ensures Valid() && RecordIsRight() && Painted()
      ensures held == (hasScreen && old(owner).Kernel?) && owner == if held then Report else old(owner)
    {
      held := hasScreen && owner.Kernel?;
      if held {
        owner := Report;
      }
    }

    /** `end_report`: the kernel draws again, from the grid, lines written meanwhile included. */
    method EndReport()
      requires Valid() && RecordIsRight() && Painted()
      modifies Repr()
      ensures Valid() && RecordIsRight() && Painted() && owner == if old(owner).Report? then Kernel else old(owner)
      ensures hasScreen == old(hasScreen) && (hasScreen ==> grid.View() == old(grid.View()))
      ensures old(owner).Report? ==> !page.Usable()
    {
      if !owner.Report? {
        return;
      }
      owner := Kernel;
      page.Reset(0, 0);
      if hasScreen {
        PaintFrom(grid, 0, grid.rows - 1, false);
      }
    }

    /** `reclaim`: the kernel draws again; taken back from userspace, every cell is painted. */
    method Reclaim()
      requires Valid() && RecordIsRight() && Painted()
      modifies this`owner, shown, pixels
      ensures Valid() && RecordIsRight() && Painted() && owner.Kernel?
    {
      var from := owner;
      owner := Kernel;
      if hasScreen {
        PaintFrom(grid, 0, grid.rows - 1, from.Userspace?);
      }
    }

    // ---------- The report's page ----------

    /**
     `show_page`: the page from the top, `n` newlines that bring the cursor to the last row, and there
     the prompt, painted while the report has the screen. `hangs` stands for the call that never returns
     because no number of newlines does.
     */
    method ShowPage(bytes: seq<Byte>, prompt: seq<Byte>) returns (hangs: bool, ghost n: nat)
      requires Valid() && RecordIsRight() && Painted()
      modifies Repr()
      ensures Valid() && RecordIsRight() && Painted() && owner == old(owner) && hasScreen == old(hasScreen)
      ensures grid.Usable() == old(grid.Usable()) && (hasScreen ==> grid.View() == old(grid.View()))
      ensures hangs <==>
                owner.Report? && grid.Usable() && forall m: nat :: !OnLastRow(bytes, m, grid.rows, grid.cols)
      ensures hasScreen && owner.Report? && !hangs ==>
                && IsDown(bytes, n, grid.rows, grid.cols)
                && Shows(ReportPage(bytes, prompt, n, grid.rows, grid.cols).lines, 0, grid.rows)
    {
      hangs, n := false, 0;
      if !owner.Report? || grid.rows == 0 || grid.cols == 0 {
        return;
      }
      hangs, n := FillPage(bytes, prompt);
      if hasScreen && !hangs {
        PaintFrom(page, 0, grid.rows - 1, false);
      }
    }

    method FillPage(bytes: seq<Byte>, prompt: seq<Byte>) returns (hangs: bool, ghost n: nat)
      requires Valid() && grid.Usable()
      modifies page, page.cells
      ensures Valid()
      ensures hangs <==> forall m: nat :: !OnLastRow(bytes, m, grid.rows, grid.cols)
      ensures !hangs ==> page.Usable() && page.rows == grid.rows && page.cols == grid.cols
      ensures !hangs ==> IsDown(bytes, n, grid.rows, grid.cols)
      ensures !hangs ==> page.View() == ReportPage(bytes, prompt, n, grid.rows, grid.cols)
    {
      n := 0;
      page.Reset(grid.cols, grid.rows);
      page.Write(bytes);
      ComesDownIff(bytes, grid.rows, grid.cols);
      hangs := page.st == Str && page.row + 1 < page.rows;
      if hangs {
        return;
      }
      n := BringDown(bytes);
      WritePrompt(prompt, bytes, n);
    }

    method WritePrompt(prompt: seq<Byte>, ghost bytes: seq<Byte>, ghost n: nat)
      requires Valid() && page.Usable() && PageIs(bytes + Newlines(n))
      modifies page, page.cells
      ensures Valid() && page.Usable() && page.rows == old(page.rows) && page.cols == old(page.cols)
      ensures page.View() == ReportPage(bytes, prompt, n, page.rows, page.cols)
    {
      if page.col != 0 {
        page.Write([13]);
      }
      var pages := new Pages(prompt, page.cols, 1);
      var line := pages.Next();
      page.Write(if line.Some? then line.value else []);
    }

    /** The page's grid is as these bytes leave a fresh one. */
    ghost predicate PageIs(bytes: seq<Byte>)
      requires Valid() && page.Usable()
      reads this, grid, page, page.cells
    {
      && page.View() == Written(Fresh(page.rows, page.cols), Ground, page.rows, page.cols, bytes)
      && page.st == After(Ground, bytes)
    }

    lemma PageRow(bytes: seq<Byte>, n: nat)
      requires Valid() && page.Usable() && PageIs(bytes + Newlines(n))
      ensures OnLastRow(bytes, n, page.rows, page.cols) <==> page.row + 1 == page.rows
    {}

    /** One more newline. */
    method PageNewline(ghost bytes: seq<Byte>, ghost n: nat)
      requires Valid() && page.Usable() && PageIs(bytes + Newlines(n)) && page.st != Str
      modifies page, page.cells
      ensures Valid() && page.Usable() && page.rows == old(page.rows) && page.cols == old(page.cols)
      ensures PageIs(bytes + Newlines(n + 1)) && page.st.Ground?
      ensures old(page.st).Ground? && old(page.row) + 1 < page.rows ==> page.row == old(page.row) + 1
    {
      ghost var (before, st, sofar) := (page.View(), page.st, bytes + Newlines(n));
      page.Write([NEWLINE]);
      NewlineGoesDown(before, st, page.rows, page.cols);
      WritesMayBeSplit(Fresh(page.rows, page.cols), Ground, page.rows, page.cols, sofar, [NEWLINE]);
      DecodeSplit(Ground, sofar, [NEWLINE]);
      OneMoreNewline(bytes, n);
    }

    /** Newlines until the cursor is on the last row, the page's `bytes` having been written. */
    method BringDown(ghost bytes: seq<Byte>) returns (ghost n: nat)
      requires Valid() && page.Usable() && PageIs(bytes) && (page.st != Str || page.row + 1 == page.rows)
      modifies page, page.cells
      ensures Valid() && page.Usable() && page.rows == old(page.rows) && page.cols == old(page.cols)
      ensures IsDown(bytes, n, page.rows, page.cols) && PageIs(bytes + Newlines(n))
    {
      n := 0;
      NoNewlines(bytes);
      PageRow(bytes, n);
      while page.row + 1 < page.rows
        invariant Valid() && page.Usable() && page.rows == old(page.rows) && page.cols == old(page.cols)
        invariant page.st != Str || page.row + 1 == page.rows
        invariant PageIs(bytes + Newlines(n))
        invariant OnLastRow(bytes, n, page.rows, page.cols) <==> page.row + 1 == page.rows
        invariant NotYet(bytes, n, page.rows, page.cols)
        decreases if page.st.Ground? then 0 else 1, page.rows - page.row
      {
        PageNewline(bytes, n);
        StillNotYet(bytes, n, page.rows, page.cols);
        n := n + 1;
        PageRow(bytes, n);
      }
    }
  }
}
