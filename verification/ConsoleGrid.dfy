/**
 The console's grid in memory (`Grid` in `kernel/src/fbcon/text.rs`): rows kept as a ring in a fixed
 array, proved to behave as the plain list of rows of `ConsoleText`, with the rows that changed.
 */
module ConsoleGrid {
  import opened Common
  import opened ConsoleText

  const MAX_COLS := 256
  const MAX_ROWS := 100
  const CELLS := 25600

  /** Rows `first` to `last` may have changed. */
  datatype Damage = Clean | Rows(first: nat, last: nat)

  predicate Covers(d: Damage, r: nat) {
    d.Rows? && d.first <= r <= d.last
  }

  /** `mark`: the smallest span that covers both. */
  function Marked(d: Damage, first: nat, last: nat): Damage {
    if d.Clean? then Rows(first, last) else Rows(Min(d.first, first), Max(d.last, last))
  }

  // ---------- The ring as a list ----------

  /** Where logical row `r` is kept. */
  function Physical(top: nat, rows: nat, r: nat): (p: nat)
    requires top < rows && r < rows
    ensures p < rows
  {
    if top + r < rows then top + r else top + r - rows
  }

  lemma OnceAround(x: nat, n: nat)
    requires n <= x < 2 * n
    ensures x % n == x - n
  {
    var q := x / n;
    assert x == q * n + x % n;
    if q >= 2 {
      Multiples(2, q, n);
    }
  }

  lemma Multiples(a: nat, b: nat, n: nat)
    requires a <= b
    ensures a * n <= b * n
  {}

  lemma PhysicalIsModulo(top: nat, rows: nat, r: nat)
    requires top < rows && r < rows
    ensures (top + r) % rows == Physical(top, rows, r)
  {
    if top + r >= rows {
      OnceAround(top + r, rows);
    }
  }

  predicate Fits(cells: seq<Glyph>, top: nat, rows: nat, cols: nat) {
    |cells| == CELLS && top < rows <= MAX_ROWS && 0 < cols <= MAX_COLS
  }

  function LineOf(cells: seq<Glyph>, top: nat, rows: nat, cols: nat, r: nat): (l: seq<Glyph>)
    requires Fits(cells, top, rows, cols) && r < rows
    ensures |l| == cols
  {
    var at := Physical(top, rows, r) * MAX_COLS;
    cells[at..at + cols]
  }

  /** The rows from the top of the screen down. */
  function LinesOf(cells: seq<Glyph>, top: nat, rows: nat, cols: nat): (ls: seq<seq<Glyph>>)
    requires Fits(cells, top, rows, cols)
    ensures |ls| == rows && forall r :: 0 <= r < rows ==> ls[r] == LineOf(cells, top, rows, cols, r)
  {
    seq(rows, r requires 0 <= r < rows => LineOf(cells, top, rows, cols, r))
  }

  /** Storing one cell changes one place of one row. */
  lemma StoreCell(cells: seq<Glyph>, top: nat, rows: nat, cols: nat, row: nat, col: nat, g: Glyph)
    requires Fits(cells, top, rows, cols) && row < rows && col < cols
    ensures var at := Physical(top, rows, row) * MAX_COLS + col;
            && at < |cells|
            && LinesOf(cells[at := g], top, rows, cols) ==
               LinesOf(cells, top, rows, cols)[row := LinesOf(cells, top, rows, cols)[row][col := g]]
  {
    var at := Physical(top, rows, row) * MAX_COLS + col;
    var (before, after) := (LinesOf(cells, top, rows, cols), LinesOf(cells[at := g], top, rows, cols));
    forall r | 0 <= r < rows
      ensures after[r] == before[row := before[row][col := g]][r]
    {
      var start := Physical(top, rows, r) * MAX_COLS;
      if r != row {
        assert Physical(top, rows, r) != Physical(top, rows, row);
        assert after[r] == before[r];
      } else {
        assert after[r] == before[r][col := g];
      }
    }
  }

  /** A whole physical row made blank. */
  function Cleared(cells: seq<Glyph>, p: nat): (c: seq<Glyph>)
    requires |cells| == CELLS && p < MAX_ROWS
    ensures |c| == CELLS
  {
    cells[..p * MAX_COLS] + Blanks(MAX_COLS) + cells[p * MAX_COLS + MAX_COLS..]
  }

  lemma ClearLine(cells: seq<Glyph>, top: nat, rows: nat, cols: nat, row: nat)
    requires Fits(cells, top, rows, cols) && row < rows
    ensures LinesOf(Cleared(cells, Physical(top, rows, row)), top, rows, cols) ==
            LinesOf(cells, top, rows, cols)[row := Blanks(cols)]
  {
    var p := Physical(top, rows, row);
    var (before, after) := (LinesOf(cells, top, rows, cols), LinesOf(Cleared(cells, p), top, rows, cols));
    forall r | 0 <= r < rows
      ensures after[r] == before[row := Blanks(cols)][r]
    {
      if r != row {
        var q := Physical(top, rows, r);
        assert q != p;
        var at := q * MAX_COLS;
        assert forall k :: at <= k < at + cols ==> Cleared(cells, p)[k] == cells[k];
        assert after[r] == before[r];
      } else {
        assert after[r] == Blanks(cols);
      }
    }
  }

  lemma TurnIsModulo(top: nat, rows: nat, jump: nat)
    requires top < rows && 0 < jump <= rows
    ensures (top + jump) % rows == if top + jump < rows then top + jump else top + jump - rows
  {
    if top + jump >= rows {
      OnceAround(top + jump, rows);
    }
  }

  /** Turning the ring moves every row up, the top ones round to the bottom. */
  lemma Turned(cells: seq<Glyph>, top: nat, top': nat, rows: nat, cols: nat, jump: nat)
    requires Fits(cells, top, rows, cols) && 0 < jump <= rows
    requires top' == if top + jump < rows then top + jump else top + jump - rows
    ensures LinesOf(cells, top', rows, cols)[..rows - jump] == LinesOf(cells, top, rows, cols)[jump..]
  {
    var (before, after) := (LinesOf(cells, top, rows, cols), LinesOf(cells, top', rows, cols));
    forall r | 0 <= r < rows - jump
      ensures after[r] == before[r + jump]
    {
      assert Physical(top', rows, r) == Physical(top, rows, r + jump);
    }
  }

  lemma BlankLines(cells: seq<Glyph>, rows: nat, cols: nat)
    requires Fits(cells, 0, rows, cols) && forall i :: 0 <= i < CELLS ==> cells[i] == BLANK
    ensures LinesOf(cells, 0, rows, cols) == BlankRows(rows, cols)
  {
    forall r | 0 <= r < rows
      ensures LineOf(cells, 0, rows, cols, r) == Blanks(cols)
    {}
  }

  /** The rows of `lines` from `k` up to `r` are blank; the others are as in `before`. */
  ghost predicate BlankBetween(lines: seq<seq<Glyph>>, before: seq<seq<Glyph>>, k: nat, r: nat, cols: nat) {
    && |lines| == |before|
    && forall q :: 0 <= q < |lines| ==> lines[q] == if k <= q < r then Blanks(cols) else before[q]
  }

  lemma BlankToTheEnd(lines: seq<seq<Glyph>>, before: seq<seq<Glyph>>, k: nat, cols: nat)
    requires k <= |before| && BlankBetween(lines, before, k, |before|, cols)
    ensures lines == before[..k] + BlankRows(|before| - k, cols)
  {}

  // ---------- The grid ----------

  class Grid {
    const cells: array<Glyph>
    var cols: nat
    var rows: nat
    var top: nat
    var row: nat
    var col: nat
    var st: State
    var damage: Damage

    ghost predicate Valid()
      reads this
    {
      && cells.Length == CELLS && cols <= MAX_COLS && rows <= MAX_ROWS
      && (Usable() ==> top < rows && row < rows && col <= cols)
    }

    /** The grid has been given a size. */
    predicate Usable()
      reads this
    {
      0 < cols && 0 < rows
    }

    /** What the grid shows. */
    ghost function View(): (s: Screen)
      requires Valid() && Usable()
      reads this, cells
      ensures IsScreen(s, rows, cols)
    {
      Screen(LinesOf(cells[..], top, rows, cols), row, col)
    }

    /** No size yet: every write is ignored until a reset. */
    constructor ()
      ensures Valid() && !Usable() && fresh(cells) && damage.Clean?
    {
      cells := new Glyph[CELLS](_ => BLANK);
      cols, rows, top, row, col := 0, 0, 0, 0, 0;
      st, damage := Ground, Clean;
    }

    method Reset(cols: nat, rows: nat)
      requires Valid()
      modifies this, cells
      ensures Valid() && this.cols == Min(cols, MAX_COLS) && this.rows == Min(rows, MAX_ROWS)
      ensures st == Ground && damage.Clean?
      ensures Usable() ==> View() == Fresh(this.rows, this.cols)
    {
      this.cols := Min(cols, MAX_COLS);
      this.rows := Min(rows, MAX_ROWS);
      forall i | 0 <= i < cells.Length {
        cells[i] := BLANK;
      }
      top, row, col := 0, 0, 0;
      st, damage := Ground, Clean;
      if Usable() {
        BlankLines(cells[..], this.rows, this.cols);
      }
    }

    /** `glyph_at`: blank outside the screen. */
    method GlyphAt(r: nat, c: nat) returns (g: Glyph)
      requires Valid()
      ensures Usable() && r < rows && c < cols ==> g == View().lines[r][c]
      ensures !(r < rows && c < cols) ==> g == BLANK
    {
      if r >= rows || c >= cols {
        return BLANK;
      }
      PhysicalIsModulo(top, rows, r);
      g := cells[(top + r) % rows * MAX_COLS + c];
    }

    method TakeDamage() returns (d: Damage)
      requires Valid()
      modifies this`damage
      ensures d == old(damage) && damage.Clean?
    {
      d := damage;
      damage := Clean;
    }

    method ClearRow(r: nat)
      requires Valid() && Usable() && r < rows
      modifies cells
      ensures LinesOf(cells[..], top, rows, cols) == old(LinesOf(cells[..], top, rows, cols))[r := Blanks(cols)]
    {
      PhysicalIsModulo(top, rows, r);
      ghost var before := cells[..];
      var at := (top + r) % rows * MAX_COLS;
      forall i | at <= i < at + MAX_COLS {
        cells[i] := BLANK;
      }
      assert cells[..] == Cleared(before, Physical(top, rows, r));
      ClearLine(before, top, rows, cols, r);
    }

    /** Every row that differs is covered, and nothing covered before is forgotten. */
    twostate predicate DamageCovers()
      requires old(Valid()) && old(Usable()) && Valid() && Usable() && rows == old(rows)
      reads this, cells
    {
      && (forall r :: 0 <= r < rows && View().lines[r] != old(View()).lines[r] ==> Covers(damage, r))
      && (forall r :: Covers(old(damage), r) ==> Covers(damage, r))
    }

    /** The ring turned by `jump`: the rows below the top `jump` move up. */
    method Turn(jump: nat)
      requires Valid() && Usable() && 0 < jump <= rows
      modifies this`top
      ensures Valid()
      ensures LinesOf(cells[..], top, rows, cols)[..rows - jump] == old(LinesOf(cells[..], top, rows, cols))[jump..]
    {
      ghost var (before, top0) := (cells[..], top);
      TurnIsModulo(top, rows, jump);
      top := (top + jump) % rows;
      Turned(before, top0, top, rows, cols, jump);
      assert cells[..] == before;
    }

    /** The last `jump` rows made blank. */
    method ClearBottom(jump: nat)
      requires Valid() && Usable() && 0 < jump <= rows
      modifies cells
      ensures LinesOf(cells[..], top, rows, cols) ==
              old(LinesOf(cells[..], top, rows, cols))[..rows - jump] + BlankRows(jump, cols)
    {
      ghost var before := LinesOf(cells[..], top, rows, cols);
      ghost var keep := rows - jump;
      var r := rows - jump;
      while r < rows
        invariant keep <= r <= rows
        invariant BlankBetween(LinesOf(cells[..], top, rows, cols), before, keep, r, cols)
      {
        ClearRow(r);
        r := r + 1;
      }
      BlankToTheEnd(LinesOf(cells[..], top, rows, cols), before, keep, cols);
    }

    method Newline()
      requires Valid() && Usable()
      modifies this, cells
      ensures Valid() && rows == old(rows) && cols == old(cols) && st == old(st)
      ensures View() == NewlineOn(old(View()), rows, cols)
      ensures DamageCovers()
    {
      col := 0;
      if row + 1 < rows {
        row := row + 1;
        return;
      }
      var jump := Max(rows / 4, 1);
      Turn(jump);
      ClearBottom(jump);
      row := rows - jump;
      damage := Marked(damage, 0, rows - 1);
    }

    method Draw(g: Glyph)
      requires Valid() && Usable() && col < cols
      modifies this, cells
      ensures Valid() && rows == old(rows) && cols == old(cols) && st == old(st)
      ensures View() == Apply(old(View()), rows, cols, Action.Draw(g))
      ensures DamageCovers()
    {
      PhysicalIsModulo(top, rows, row);
      StoreCell(cells[..], top, rows, cols, row, col, g);
      var at := (top + row) % rows * MAX_COLS + col;
      ghost var before := cells[..];
      cells[at] := g;
      assert cells[..] == before[at := g];
      damage := Marked(damage, row, row);
      col := col + 1;
    }

    method Perform(a: Action)
      requires Valid() && Usable()
      modifies this, cells
      ensures Valid() && rows == old(rows) && cols == old(cols) && st == old(st)
      ensures View() == Apply(old(View()), rows, cols, a)
      ensures DamageCovers()
    {
      match a
      case Draw(g) =>
        if col >= cols {
          Newline();
        }
        Draw(g);
      case Newline => Newline();
      case Return => col := 0;
      case Tab => col := Min((col / 8 + 1) * 8, cols);
      case Backspace => col := if Min(col, cols) == 0 then 0 else Min(col, cols) - 1;
    }

    /** `write`: what the grid shows is what the plain list of rows would. */
    method Write(bytes: seq<Byte>)
      requires Valid()
      modifies this, cells
      ensures Valid() && rows == old(rows) && cols == old(cols)
      ensures !Usable() ==> damage == old(damage)
      ensures Usable() ==> View() == Written(old(View()), old(st), rows, cols, bytes) && st == After(old(st), bytes)
      ensures Usable() ==> DamageCovers()
    {
      if !Usable() {
        return;
      }
      var i := 0;
      while i < |bytes|
        invariant 0 <= i <= |bytes|
        invariant Valid() && Usable() && rows == old(rows) && cols == old(cols)
        invariant View() == Written(old(View()), old(st), rows, cols, bytes[..i]) && st == After(old(st), bytes[..i])
        invariant DamageCovers()
      {
        WriteByte(bytes[i]);
        assert bytes[..i + 1] == bytes[..i] + [bytes[i]];
        WritesMayBeSplit(old(View()), old(st), rows, cols, bytes[..i], [bytes[i]]);
        DecodeSplit(old(st), bytes[..i], [bytes[i]]);
        i := i + 1;
      }
      assert bytes[..i] == bytes;
    }

    method WriteByte(b: Byte)
      requires Valid() && Usable()
      modifies this, cells
      ensures Valid() && Usable() && rows == old(rows) && cols == old(cols)
      ensures View() == Written(old(View()), old(st), rows, cols, [b]) && st == After(old(st), [b])
      ensures DamageCovers()
    {
      var (next, actions) := Feed(st, b);
      var k := 0;
      while k < |actions|
        invariant 0 <= k <= |actions|
        invariant Valid() && Usable() && rows == old(rows) && cols == old(cols) && st == old(st)
        invariant ApplyAll(View(), rows, cols, actions[k..]) == ApplyAll(old(View()), rows, cols, actions)
        invariant DamageCovers()
      {
        Perform(actions[k]);
        assert actions[k..][1..] == actions[k + 1..];
        k := k + 1;
      }
      st := next;
      assert Actions(old(st), [b]) == actions;
    }
  }
}
