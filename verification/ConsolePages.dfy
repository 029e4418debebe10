/**
 The pager (`Pages` in `kernel/src/fbcon/text.rs`): a log cut into pages that each fit a screen.
 */
module ConsolePages {
  import opened Common
  import opened ConsoleText

  // ---------- A cursor on an endless screen ----------

  datatype Cursor = Cursor(row: nat, col: nat)

  /** Where an action takes the cursor when no row is the last. */
  function Step(cols: nat, cur: Cursor, a: Action): Cursor {
    match a
    case Draw(_) => if cur.col >= cols then Cursor(cur.row + 1, 1) else Cursor(cur.row, cur.col + 1)
    case Newline => Cursor(cur.row + 1, 0)
    case Return => cur.(col := 0)
    case Tab => cur.(col := Min((cur.col / 8 + 1) * 8, cols))
    case Backspace => cur.(col := if Min(cur.col, cols) == 0 then 0 else Min(cur.col, cols) - 1)
  }

  function Track(cols: nat, cur: Cursor, actions: seq<Action>): Cursor
    decreases |actions|
  {
    if actions == [] then cur else Track(cols, Step(cols, cur, actions[0]), actions[1..])
  }

  lemma {:induction false} TrackSplit(cols: nat, cur: Cursor, a: seq<Action>, b: seq<Action>)
    ensures Track(cols, cur, a + b) == Track(cols, Track(cols, cur, a), b)
    decreases |a|
  {
    if a == [] {
      assert a + b == b;
    } else {
      assert (a + b)[1..] == a[1..] + b;
      TrackSplit(cols, Step(cols, cur, a[0]), a[1..], b);
    }
  }

  lemma {:induction false} RowsOnlyGrow(cols: nat, cur: Cursor, actions: seq<Action>)
    ensures cur.row <= Track(cols, cur, actions).row
    decreases |actions|
  {
    if actions != [] {
      RowsOnlyGrow(cols, Step(cols, cur, actions[0]), actions[1..]);
    }
  }

  /** Where a stream decoded afresh leaves the cursor of a fresh screen. */
  function CursorAt(cols: nat, bytes: seq<Byte>): Cursor {
    Track(cols, Cursor(0, 0), Actions(Ground, bytes))
  }

  lemma PrefixIsHigher(cols: nat, bytes: seq<Byte>, k: nat)
    requires k <= |bytes|
    ensures CursorAt(cols, bytes[..k]).row <= CursorAt(cols, bytes).row
  {
    assert bytes == bytes[..k] + bytes[k..];
    DecodeSplit(Ground, bytes[..k], bytes[k..]);
    var (a, b) := (Actions(Ground, bytes[..k]), Actions(After(Ground, bytes[..k]), bytes[k..]));
    TrackSplit(cols, Cursor(0, 0), a, b);
    RowsOnlyGrow(cols, Track(cols, Cursor(0, 0), a), b);
  }

  // ---------- Scrolling ----------

  /** The action starts a row past the last. */
  predicate ScrollsOn(s: Screen, rows: nat, cols: nat, a: Action) {
    s.row + 1 >= rows && (a.Newline? || (a.Draw? && s.col >= cols))
  }

  /** How often a list of actions scrolls a screen. */
  function Scrolls(s: Screen, rows: nat, cols: nat, actions: seq<Action>): nat
    requires IsScreen(s, rows, cols)
    decreases |actions|
  {
    if actions == [] then 0
    else (if ScrollsOn(s, rows, cols, actions[0]) then 1 else 0)
         + Scrolls(Apply(s, rows, cols, actions[0]), rows, cols, actions[1..])
  }

  /** As long as the endless cursor stays above the last row, the screen's cursor is there too and nothing scrolls. */
  lemma {:induction false} ScreenFollows(s: Screen, rows: nat, cols: nat, actions: seq<Action>)
    requires IsScreen(s, rows, cols) && Track(cols, Cursor(s.row, s.col), actions).row < rows
    ensures Scrolls(s, rows, cols, actions) == 0
    ensures var t := ApplyAll(s, rows, cols, actions);
            Cursor(t.row, t.col) == Track(cols, Cursor(s.row, s.col), actions)
    decreases |actions|
  {
    if actions != [] {
      var t := Apply(s, rows, cols, actions[0]);
      RowsOnlyGrow(cols, Step(cols, Cursor(s.row, s.col), actions[0]), actions[1..]);
      assert !ScrollsOn(s, rows, cols, actions[0]);
      assert Cursor(t.row, t.col) == Step(cols, Cursor(s.row, s.col), actions[0]);
      ScreenFollows(t, rows, cols, actions[1..]);
    }
  }

  // ---------- One page ----------

  /** Which of a byte's actions, if any, would start a row past the last. */
  datatype Fit = Fits | ByGlyph | ByNewline

  function Overflow(cols: nat, rows: nat, cur: Cursor, actions: seq<Action>): Fit
    decreases |actions|
  {
    if actions == [] then Fits
    else
      var next := Step(cols, cur, actions[0]);
      if next.row >= rows then (if actions[0].Draw? then ByGlyph else ByNewline)
      else Overflow(cols, rows, next, actions[1..])
  }

  lemma {:induction false} FitsStaysAbove(cols: nat, rows: nat, cur: Cursor, actions: seq<Action>)
    requires cur.row < rows
    ensures Overflow(cols, rows, cur, actions).Fits? <==> Track(cols, cur, actions).row < rows
    decreases |actions|
  {
    if actions != [] {
      var next := Step(cols, cur, actions[0]);
      if next.row < rows {
        FitsStaysAbove(cols, rows, next, actions[1..]);
      } else {
        RowsOnlyGrow(cols, next, actions[1..]);
      }
    }
  }

  /** Where a page ends and where the next begins, from byte `i` on, the last character begun at `start`. */
  function Scan(bytes: seq<Byte>, cols: nat, rows: nat, i: nat, st: State, cur: Cursor, start: nat): (nat, nat)
    requires i <= |bytes|
    decreases |bytes| - i
  {
    if i == |bytes| then (|bytes|, |bytes|)
    else
      var begun := if st.Ground? then i else start;
      var (st', actions) := Feed(st, bytes[i]);
      match Overflow(cols, rows, cur, actions)
      case Fits => Scan(bytes, cols, rows, i + 1, st', Track(cols, cur, actions), begun)
      case ByGlyph => (begun, begun)
      case ByNewline => (i, i + 1)
  }

  /** A page is `bytes[at..end]`; the next starts at `resume`. */
  datatype Page = Page(end: nat, resume: nat)

  function NextPage(bytes: seq<Byte>, cols: nat, rows: nat, at: nat): Page
    requires at < |bytes|
  {
    var (end, resume) := Scan(bytes, cols, rows, at, Ground, Cursor(0, 0), at);
    Page(end, resume)
  }

  /** Only a newline byte makes a newline. */
  lemma NewlineIsNewline(st: State, b: Byte)
    requires Newline in Feed(st, b).1
    ensures b == NEWLINE
  {
    var actions := GroundByte(b).1;
    assert Newline in actions ==> b == NEWLINE;
    assert Newline in [Draw(REPLACEMENT)] + actions ==> Newline in actions;
  }

  /** Only a glyph or a newline starts a row. */
  lemma {:induction false} ByNewlineHasOne(cols: nat, rows: nat, cur: Cursor, actions: seq<Action>)
    requires Overflow(cols, rows, cur, actions).ByNewline? && cur.row < rows
    ensures Newline in actions
    decreases |actions|
  {
    var next := Step(cols, cur, actions[0]);
    if next.row < rows {
      ByNewlineHasOne(cols, rows, next, actions[1..]);
    }
  }

  /** Nothing is lost at a cut but one newline. */
  lemma {:induction false} ScanBounds(
    bytes: seq<Byte>, cols: nat, rows: nat, i: nat, st: State, cur: Cursor, start: nat)
    requires start <= i <= |bytes| && cur.row < rows
    ensures var (end, resume) := Scan(bytes, cols, rows, i, st, cur, start);
            && (if st.Ground? then i else start) <= end <= resume <= |bytes|
            && (resume == end || (resume == end + 1 && bytes[end] == NEWLINE))
    decreases |bytes| - i
  {
    if i < |bytes| {
      var begun := if st.Ground? then i else start;
      var (st', actions) := Feed(st, bytes[i]);
      match Overflow(cols, rows, cur, actions)
      case Fits =>
        FitsStaysAbove(cols, rows, cur, actions);
        ScanBounds(bytes, cols, rows, i + 1, st', Track(cols, cur, actions), begun);
      case ByGlyph =>
      case ByNewline =>
        ByNewlineHasOne(cols, rows, cur, actions);
        NewlineIsNewline(st, bytes[i]);
    }
  }

  /** Everything before the cut stays above the last row. */
  lemma {:induction false} ScanFits(bytes: seq<Byte>, cols: nat, rows: nat, at: nat, i: nat, start: nat)
    requires at <= start <= i <= |bytes|
    requires CursorAt(cols, bytes[at..i]).row < rows
    ensures var (st, cur) := (After(Ground, bytes[at..i]), CursorAt(cols, bytes[at..i]));
            var (end, _) := Scan(bytes, cols, rows, i, st, cur, start);
            at <= end <= |bytes| && CursorAt(cols, bytes[at..end]).row < rows
    decreases |bytes| - i
  {
    var (st, cur) := (After(Ground, bytes[at..i]), CursorAt(cols, bytes[at..i]));
    ScanBounds(bytes, cols, rows, i, st, cur, start);
    if i < |bytes| {
      var begun := if st.Ground? then i else start;
      var (st', actions) := Feed(st, bytes[i]);
      if Overflow(cols, rows, cur, actions).Fits? {
        FitsStaysAbove(cols, rows, cur, actions);
        OneMore(bytes, cols, at, i);
        ScanFits(bytes, cols, rows, at, i + 1, begun);
      } else {
        var end := Scan(bytes, cols, rows, i, st, cur, start).0;
        assert end <= i;
        assert bytes[at..i][..end - at] == bytes[at..end];
        PrefixIsHigher(cols, bytes[at..i], end - at);
      }
    }
  }

  lemma OneMore(bytes: seq<Byte>, cols: nat, at: nat, i: nat)
    requires at <= i < |bytes|
    ensures var (st, actions) := Feed(After(Ground, bytes[at..i]), bytes[i]);
            && After(Ground, bytes[at..i + 1]) == st
            && CursorAt(cols, bytes[at..i + 1]) == Track(cols, CursorAt(cols, bytes[at..i]), actions)
  {
    var (a, b) := (bytes[at..i], [bytes[i]]);
    assert bytes[at..i + 1] == a + b;
    DecodeSplit(Ground, a, b);
    var actions := Feed(After(Ground, a), bytes[i]).1;
    assert Actions(After(Ground, a), b) == actions;
    TrackSplit(cols, Cursor(0, 0), Actions(Ground, a), actions);
  }

  /**
   Every page, written to a fresh screen of that many columns and at least that many rows, never
   scrolls it; and what a page leaves out before the next is at most one newline. For any bytes.
   */
  lemma PageNeverScrolls(bytes: seq<Byte>, cols: nat, rows: nat, at: nat, screenRows: nat)
    requires at < |bytes| && 0 < cols && 0 < rows <= screenRows
    ensures var p := NextPage(bytes, cols, rows, at);
            && at <= p.end <= p.resume <= |bytes|
            && (p.resume == p.end || (p.resume == p.end + 1 && bytes[p.end] == NEWLINE))
            && Scrolls(Fresh(screenRows, cols), screenRows, cols, Actions(Ground, bytes[at..p.end])) == 0
  {
    ScanBounds(bytes, cols, rows, at, Ground, Cursor(0, 0), at);
    assert bytes[at..at] == [];
    ScanFits(bytes, cols, rows, at, at, at);
    var p := NextPage(bytes, cols, rows, at);
    ScreenFollows(Fresh(screenRows, cols), screenRows, cols, Actions(Ground, bytes[at..p.end]));
  }

  // ---------- Progress ----------

  function Draws(actions: seq<Action>): nat {
    if actions == [] then 0 else (if actions[0].Draw? then 1 else 0) + Draws(actions[1..])
  }

  /** The glyphs drawn from the first byte on until the decoder is between characters again. */
  function RunGlyphs(st: State, bytes: seq<Byte>): nat
    decreases |bytes|
  {
    if bytes == [] then 0
    else
      var (st', actions) := Feed(st, bytes[0]);
      Draws(actions) + if st'.Ground? then 0 else RunGlyphs(st', bytes[1..])
  }

  /** `n` glyphs in a row from the top left leave the cursor here. */
  ghost predicate AfterGlyphs(cols: nat, cur: Cursor, n: nat) {
    cur.col <= cols && (if n == 0 then cur == Cursor(0, 0) else 1 <= cur.col && cur.row * cols + cur.col == n)
  }

  lemma GlyphsFit(cols: nat, rows: nat, cur: Cursor, n: nat)
    requires 0 < cols && 0 < rows && AfterGlyphs(cols, cur, n)
    ensures n <= cols * rows <==> cur.row < rows
  {
    MoreRows(cur.row, cur.row, cols);
    if cur.row < rows {
      MoreRows(cur.row + 1, rows, cols);
    } else {
      MoreRows(rows, cur.row, cols);
    }
  }

  lemma MoreRows(a: nat, b: nat, cols: nat)
    requires a <= b
    ensures a * cols <= b * cols && (a + 1) * cols == a * cols + cols
  {
    assert b * cols == a * cols + (b - a) * cols;
  }

  lemma GlyphAdvances(cols: nat, cur: Cursor, n: nat, g: Glyph)
    requires 0 < cols && AfterGlyphs(cols, cur, n)
    ensures AfterGlyphs(cols, Step(cols, cur, Draw(g)), n + 1)
  {
    if cur.col >= cols {
      assert (cur.row + 1) * cols == cur.row * cols + cols;
    }
  }

  /**
   Inside a character a byte completes nothing but the loss of what it cut short; only leaving it can complete more.
   */
  lemma RunActions(st: State, b: Byte)
    ensures var (st', actions) := Feed(st, b);
            && |actions| <= 2
            && (!st'.Ground? ==> |actions| <= 1 && forall a <- actions :: a.Draw?)
            && (|actions| == 2 ==> actions[0].Draw?)
  {}

  /** Glyphs one after the other. */
  lemma {:induction false} DrawsAdvance(cols: nat, rows: nat, cur: Cursor, n: nat, actions: seq<Action>)
    requires 0 < cols && AfterGlyphs(cols, cur, n) && forall a <- actions :: a.Draw?
    ensures AfterGlyphs(cols, Track(cols, cur, actions), n + Draws(actions))
    ensures !Overflow(cols, rows, cur, actions).ByNewline?
    decreases |actions|
  {
    if actions != [] {
      GlyphAdvances(cols, cur, n, actions[0].g);
      DrawsAdvance(cols, rows, Step(cols, cur, actions[0]), n + 1, actions[1..]);
    }
  }

  /** Of actions that all draw, but perhaps the last, a glyph overflows exactly if there are more than cells. */
  lemma {:induction false} DrawsOverflow(cols: nat, rows: nat, cur: Cursor, n: nat, actions: seq<Action>)
    requires 0 < cols && 0 < rows && AfterGlyphs(cols, cur, n) && cur.row < rows
    requires forall i :: 0 <= i < |actions| - 1 ==> actions[i].Draw?
    ensures Overflow(cols, rows, cur, actions).ByGlyph? <==> n + Draws(actions) > cols * rows
    decreases |actions|
  {
    GlyphsFit(cols, rows, cur, n);
    if actions != [] {
      var next := Step(cols, cur, actions[0]);
      if actions[0].Draw? {
        GlyphAdvances(cols, cur, n, actions[0].g);
        GlyphsFit(cols, rows, next, n + 1);
        if next.row < rows {
          DrawsOverflow(cols, rows, next, n + 1, actions[1..]);
        }
      } else {
        assert actions[1..] == [];
      }
    }
  }

  /** What one byte of a run does to the cursor. */
  lemma RunStep(cols: nat, rows: nat, st: State, b: Byte, cur: Cursor, n: nat)
    requires 0 < cols && 0 < rows && AfterGlyphs(cols, cur, n) && cur.row < rows
    ensures var (st', actions) := Feed(st, b);
            && (Overflow(cols, rows, cur, actions).ByGlyph? <==> n + Draws(actions) > cols * rows)
            && (!st'.Ground? ==> AfterGlyphs(cols, Track(cols, cur, actions), n + Draws(actions)))
            && (!st'.Ground? ==> !Overflow(cols, rows, cur, actions).ByNewline?)
  {
    RunActions(st, b);
    var (st', actions) := Feed(st, b);
    DrawsOverflow(cols, rows, cur, n, actions);
    if !st'.Ground? {
      DrawsAdvance(cols, rows, cur, n, actions);
    }
  }

  /**
   A scan still in the page's first character, `n` glyphs on: it cuts at the page's start exactly if the run is too
   long.
   */
  lemma {:induction false} RunScan(
    bytes: seq<Byte>, cols: nat, rows: nat, at: nat, i: nat, st: State, cur: Cursor, n: nat)
    requires at <= i <= |bytes| && at < |bytes| && 0 < cols && 0 < rows && cur.row < rows && AfterGlyphs(cols, cur, n)
    requires st.Ground? <==> i == at
    ensures Scan(bytes, cols, rows, i, st, cur, at).1 > at <==> n + RunGlyphs(st, bytes[i..]) <= cols * rows
    decreases |bytes| - i
  {
    GlyphsFit(cols, rows, cur, n);
    if i < |bytes| {
      var (st', actions) := Feed(st, bytes[i]);
      assert bytes[i..][0] == bytes[i] && bytes[i..][1..] == bytes[i + 1..];
      RunStep(cols, rows, st, bytes[i], cur, n);
      if Overflow(cols, rows, cur, actions).Fits? {
        FitsStaysAbove(cols, rows, cur, actions);
        if st'.Ground? {
          ScanBounds(bytes, cols, rows, i + 1, st', Track(cols, cur, actions), at);
        } else {
          RunScan(bytes, cols, rows, at, i + 1, st', Track(cols, cur, actions), n + Draws(actions));
        }
      }
    }
  }

  /**
   A page takes the pager forward exactly when its first character, up to where the decoder is between
   characters again, draws no more glyphs than the screen has cells.
   */
  lemma PageMovesOnIff(bytes: seq<Byte>, cols: nat, rows: nat, at: nat)
    requires at < |bytes| && 0 < cols && 0 < rows
    ensures NextPage(bytes, cols, rows, at).resume > at <==> RunGlyphs(Ground, bytes[at..]) <= cols * rows
  {
    RunScan(bytes, cols, rows, at, at, Ground, Cursor(0, 0), 0);
  }

  /** Lead bytes that are never followed by a continuation. */
  function BareLeads(n: nat): seq<Byte> {
    seq(n, _ => 0xE2)
  }

  lemma {:induction false} BareLeadsRun(n: nat, cp: nat, owed: nat)
    ensures RunGlyphs(Utf8(cp, owed), BareLeads(n)) == n
    decreases n
  {
    if n > 0 {
      assert BareLeads(n)[1..] == BareLeads(n - 1);
      assert Feed(Utf8(cp, owed), 0xE2).0 == Utf8(2, 2);
      assert Feed(Utf8(cp, owed), 0xE2).1 == [Draw(REPLACEMENT)];
      assert Draws([Draw(REPLACEMENT)]) == 1;
      BareLeadsRun(n - 1, 2, 2);
    }
  }

  /** On a run of bare lead bytes longer than the screen the pager stays where it is for good, giving empty pages. */
  lemma BareLeadsStick(cols: nat, rows: nat)
    requires 0 < cols && 0 < rows
    ensures var bytes := BareLeads(cols * rows + 2);
            |bytes| > 0 && NextPage(bytes, cols, rows, 0) == Page(0, 0)
  {
    var bytes := BareLeads(cols * rows + 2);
    assert bytes[1..] == BareLeads(cols * rows + 1);
    BareLeadsRun(cols * rows + 1, 2, 2);
    assert bytes[0..] == bytes;
    PageMovesOnIff(bytes, cols, rows, 0);
    ScanBounds(bytes, cols, rows, 0, Ground, Cursor(0, 0), 0);
  }

  // ---------- Well-formed text ----------

  /** How many continuation bytes a lead byte asks for. */
  function Owed(b: Byte): nat {
    if 0xC2 <= b <= 0xDF then 1 else if 0xE0 <= b <= 0xEF then 2 else if 0xF0 <= b <= 0xF4 then 3 else 0
  }

  ghost predicate Continued(bytes: seq<Byte>, n: nat) {
    n <= |bytes| && forall i :: 0 <= i < n ==> IsContinuation(bytes[i])
  }

  /** Every lead byte is followed by what it asks for. */
  ghost predicate WellFormed(bytes: seq<Byte>) {
    forall i :: 0 <= i < |bytes| ==> Continued(bytes[i + 1..], Owed(bytes[i]))
  }

  lemma WellFormedSuffix(bytes: seq<Byte>, k: nat)
    requires WellFormed(bytes) && k <= |bytes|
    ensures WellFormed(bytes[k..])
  {
    forall i | 0 <= i < |bytes[k..]|
      ensures Continued(bytes[k..][i + 1..], Owed(bytes[k..][i]))
    {
      assert bytes[k..][i + 1..] == bytes[k + i + 1..];
    }
  }

  lemma {:induction false} OwedRun(cp: nat, owed: nat, bytes: seq<Byte>)
    requires 0 < owed && Continued(bytes, owed)
    ensures RunGlyphs(Utf8(cp, owed), bytes) == 1
    decreases owed
  {
    if owed > 1 {
      assert Continued(bytes[1..], owed - 1);
      OwedRun(cp * 64 + bytes[0] % 64, owed - 1, bytes[1..]);
    } else {
      assert Draws([Draw(CodeGlyph(cp * 64 + bytes[0] % 64))]) == 1;
    }
  }

  lemma {:induction false} EscapeRun(st: State, bytes: seq<Byte>)
    requires !st.Ground? && !st.Utf8?
    ensures RunGlyphs(st, bytes) == 0
    decreases |bytes|
  {
    if bytes != [] && !Feed(st, bytes[0]).0.Ground? {
      EscapeRun(Feed(st, bytes[0]).0, bytes[1..]);
    }
  }

  lemma WellFormedRun(bytes: seq<Byte>)
    requires WellFormed(bytes)
    ensures RunGlyphs(Ground, bytes) <= 1
  {
    if bytes != [] {
      assert Continued(bytes[1..], Owed(bytes[0]));
      var (st, actions) := Feed(Ground, bytes[0]);
      if st.Utf8? {
        OwedRun(st.cp, st.owed, bytes[1..]);
      } else if !st.Ground? {
        EscapeRun(st, bytes[1..]);
      }
    }
  }

  /** The UTF-8 text of a list of characters. */
  function Text(cps: seq<nat>): seq<Byte>
    requires forall i :: 0 <= i < |cps| ==> cps[i] <= 0x10_FFFF
  {
    if cps == [] then [] else (if cps[0] < 0x80 then [cps[0]] else Encode(cps[0])) + Text(cps[1..])
  }

  lemma ContinuedMore(a: seq<Byte>, b: seq<Byte>, n: nat)
    requires Continued(a, n)
    ensures Continued(a + b, n)
  {}

  lemma WellFormedConcat(a: seq<Byte>, b: seq<Byte>)
    requires WellFormed(a) && WellFormed(b)
    ensures WellFormed(a + b)
  {
    forall i | 0 <= i < |a + b|
      ensures Continued((a + b)[i + 1..], Owed((a + b)[i]))
    {
      if i < |a| {
        assert (a + b)[i + 1..] == a[i + 1..] + b;
        ContinuedMore(a[i + 1..], b, Owed(a[i]));
      } else {
        assert (a + b)[i + 1..] == b[i - |a| + 1..];
      }
    }
  }

  lemma EncodeIsWellFormed(cp: nat)
    requires 0x80 <= cp <= 0x10_FFFF
    ensures WellFormed(Encode(cp))
  {
    var e := Encode(cp);
    forall i | 0 <= i < |e|
      ensures Continued(e[i + 1..], Owed(e[i]))
    {}
  }

  /** Every UTF-8 text is well formed in this sense. */
  lemma {:induction false} TextIsWellFormed(cps: seq<nat>)
    requires forall i :: 0 <= i < |cps| ==> cps[i] <= 0x10_FFFF
    ensures WellFormed(Text(cps))
  {
    if cps != [] {
      TextIsWellFormed(cps[1..]);
      if cps[0] < 0x80 {
        WellFormedConcat([cps[0]], Text(cps[1..]));
      } else {
        EncodeIsWellFormed(cps[0]);
        WellFormedConcat(Encode(cps[0]), Text(cps[1..]));
      }
    }
  }

  // ---------- All the pages ----------

  /** Where the pager is after `n` more pages. */
  function Reached(bytes: seq<Byte>, cols: nat, rows: nat, at: nat, n: nat): nat
    decreases n
  {
    if n == 0 || at >= |bytes| then at else Reached(bytes, cols, rows, NextPage(bytes, cols, rows, at).resume, n - 1)
  }

  /** Those pages put together again, with a newline where one was dropped. */
  function Rejoined(bytes: seq<Byte>, cols: nat, rows: nat, at: nat, n: nat): seq<Byte>
    requires 0 < rows
    decreases n
  {
    if n == 0 || at >= |bytes| then []
    else
      var p := NextPage(bytes, cols, rows, at);
      (if at <= p.end <= |bytes| then bytes[at..p.end] else [])
      + (if p.resume > p.end then [NEWLINE] else [])
      + Rejoined(bytes, cols, rows, p.resume, n - 1)
  }

  /**
   However many pages have been taken, they and the newlines dropped at the cuts are the log so far. For any bytes.
   */
  lemma {:induction false} PagesRejoin(bytes: seq<Byte>, cols: nat, rows: nat, at: nat, n: nat)
    requires at <= |bytes| && 0 < rows
    ensures at <= Reached(bytes, cols, rows, at, n) <= |bytes|
    ensures Rejoined(bytes, cols, rows, at, n) == bytes[at..Reached(bytes, cols, rows, at, n)]
    decreases n
  {
    if n > 0 && at < |bytes| {
      ScanBounds(bytes, cols, rows, at, Ground, Cursor(0, 0), at);
      var p := NextPage(bytes, cols, rows, at);
      PagesRejoin(bytes, cols, rows, p.resume, n - 1);
      var r := Reached(bytes, cols, rows, p.resume, n - 1);
      SliceJoins(bytes, at, p.end, p.resume, r);
    }
  }

  lemma SliceJoins(bytes: seq<Byte>, at: nat, end: nat, resume: nat, r: nat)
    requires at <= end <= resume <= r <= |bytes| && (resume == end || (resume == end + 1 && bytes[end] == NEWLINE))
    ensures bytes[at..end] + (if resume > end then [NEWLINE] else []) + bytes[resume..r] == bytes[at..r]
  {}

  /** Wherever a page does start, its first character draws at most as many glyphs as the screen has cells. */
  ghost predicate StartsFit(bytes: seq<Byte>, cols: nat, rows: nat, at: nat) {
    forall k: nat :: var p := Reached(bytes, cols, rows, at, k);
                     p < |bytes| ==> RunGlyphs(Ground, bytes[p..]) <= cols * rows
  }

  /** A pager that is never stuck ends, within one page a byte. */
  lemma {:induction false} PagesReachTheEnd(bytes: seq<Byte>, cols: nat, rows: nat, at: nat, n: nat)
    requires 0 < cols && 0 < rows && at <= |bytes| && n >= |bytes| - at
    requires StartsFit(bytes, cols, rows, at)
    ensures Reached(bytes, cols, rows, at, n) == |bytes|
    decreases n
  {
    if n > 0 && at < |bytes| {
      var p := NextPage(bytes, cols, rows, at);
      assert Reached(bytes, cols, rows, at, 0) == at;
      assert at < p.resume <= |bytes| by {
        PageMovesOnIff(bytes, cols, rows, at);
        ScanBounds(bytes, cols, rows, at, Ground, Cursor(0, 0), at);
      }
      assert StartsFit(bytes, cols, rows, p.resume) by {
        forall k: nat
          ensures Reached(bytes, cols, rows, p.resume, k) == Reached(bytes, cols, rows, at, k + 1)
        {}
      }
      PagesReachTheEnd(bytes, cols, rows, p.resume, n - 1);
    }
  }

  lemma {:induction false} ReachedOn(bytes: seq<Byte>, cols: nat, rows: nat, at: nat, m: nat, n: nat)
    ensures Reached(bytes, cols, rows, at, m + n) ==
            Reached(bytes, cols, rows, Reached(bytes, cols, rows, at, m), n)
    decreases m
  {
    if m > 0 && at < |bytes| {
      ReachedOn(bytes, cols, rows, NextPage(bytes, cols, rows, at).resume, m - 1, n);
    }
  }

  /** A pager that does not move on at `at` is there for good. */
  lemma {:induction false} StuckStays(bytes: seq<Byte>, cols: nat, rows: nat, at: nat, n: nat)
    requires at < |bytes| && NextPage(bytes, cols, rows, at).resume == at
    ensures Reached(bytes, cols, rows, at, n) == at
    decreases n
  {
    if n > 0 {
      StuckStays(bytes, cols, rows, at, n - 1);
    }
  }

  /** Stuck after `k` pages, it never ends. */
  lemma StuckNeverEnds(bytes: seq<Byte>, cols: nat, rows: nat, k: nat, n: nat)
    requires 0 < cols && 0 < rows
    requires var p := Reached(bytes, cols, rows, 0, k);
             p < |bytes| && RunGlyphs(Ground, bytes[p..]) > cols * rows
    ensures Reached(bytes, cols, rows, 0, n) < |bytes|
  {
    var p := Reached(bytes, cols, rows, 0, k);
    if n >= k {
      PageMovesOnIff(bytes, cols, rows, p);
      ScanBounds(bytes, cols, rows, p, Ground, Cursor(0, 0), p);
      StuckStays(bytes, cols, rows, p, n - k);
      ReachedOn(bytes, cols, rows, 0, k, n - k);
    } else {
      PagesRejoin(bytes, cols, rows, 0, n);
      PagesRejoin(bytes, cols, rows, Reached(bytes, cols, rows, 0, n), k - n);
      ReachedOn(bytes, cols, rows, 0, n, k - n);
    }
  }

  /** Exactly when the pages come to an end: no page starts at a character too long for the screen. */
  lemma PagesEndIff(bytes: seq<Byte>, cols: nat, rows: nat)
    requires 0 < cols && 0 < rows
    ensures (exists n: nat :: Reached(bytes, cols, rows, 0, n) == |bytes|) <==> StartsFit(bytes, cols, rows, 0)
  {
    if StartsFit(bytes, cols, rows, 0) {
      PagesReachTheEnd(bytes, cols, rows, 0, |bytes|);
    } else {
      var k: nat :| var p := Reached(bytes, cols, rows, 0, k);
                    !(p < |bytes| ==> RunGlyphs(Ground, bytes[p..]) <= cols * rows);
      forall n: nat
        ensures Reached(bytes, cols, rows, 0, n) != |bytes|
      {
        StuckNeverEnds(bytes, cols, rows, k, n);
      }
    }
  }

  /** On well-formed text the pager ends, within one page a byte, and its pages are the whole log. */
  lemma WellFormedPagesAreTheLog(bytes: seq<Byte>, cols: nat, rows: nat)
    requires 0 < cols && 0 < rows && WellFormed(bytes)
    ensures Reached(bytes, cols, rows, 0, |bytes|) == |bytes|
    ensures Rejoined(bytes, cols, rows, 0, |bytes|) == bytes
  {
    forall k: nat | Reached(bytes, cols, rows, 0, k) < |bytes|
      ensures RunGlyphs(Ground, bytes[Reached(bytes, cols, rows, 0, k)..]) <= cols * rows
    {
      var p := Reached(bytes, cols, rows, 0, k);
      WellFormedSuffix(bytes, p);
      WellFormedRun(bytes[p..]);
      assert 1 <= cols * rows;
    }
    assert StartsFit(bytes, cols, rows, 0);
    PagesReachTheEnd(bytes, cols, rows, 0, |bytes|);
    PagesRejoin(bytes, cols, rows, 0, |bytes|);
  }

  // ---------- The iterator ----------

  /** `Pages`: a position in the log, moved on by each page. */
  class Pages {
    const bytes: seq<Byte>
    const cols: nat
    const rows: nat
    var at: nat

    ghost predicate Valid()
      reads this
    {
      at <= |bytes| && (at < |bytes| ==> 0 < cols && 0 < rows)
    }

    constructor (bytes: seq<Byte>, cols: nat, rows: nat)
      ensures Valid() && this.bytes == bytes && this.cols == cols && this.rows == rows
      ensures at == if cols == 0 || rows == 0 then |bytes| else 0
    {
      this.bytes, this.cols, this.rows := bytes, cols, rows;
      at := if cols == 0 || rows == 0 then |bytes| else 0;
    }

    /** The next page's bytes, as the scan cuts them. */
    method Next() returns (page: Option<seq<Byte>>)
      requires Valid()
      modifies this
      ensures Valid()
      ensures old(at) == |bytes| ==> page.None? && at == old(at)
      ensures old(at) < |bytes| ==>
                var p := NextPage(bytes, cols, rows, old(at));
                old(at) <= p.end <= |bytes| && page == Some(bytes[old(at)..p.end]) && at == p.resume
    {
      if at >= |bytes| {
        return None;
      }
      var start := at;
      var (st, cur) := (Ground, Cursor(0, 0));
      var begun := start;
      var i := start;
      ghost var cut := Scan(bytes, cols, rows, start, Ground, Cursor(0, 0), start);
      ScanBounds(bytes, cols, rows, start, Ground, Cursor(0, 0), start);
      while i < |bytes|
        invariant start <= begun <= i <= |bytes| && cur.row < rows
        invariant Scan(bytes, cols, rows, i, st, cur, begun) == cut
      {
        if st.Ground? {
          begun := i;
        }
        var (st', actions) := Feed(st, bytes[i]);
        var fit, cur' := Walk(cols, rows, cur, actions);
        if fit.ByGlyph? {
          at := begun;
          return Some(bytes[start..begun]);
        } else if fit.ByNewline? {
          at := i + 1;
          return Some(bytes[start..i]);
        }
        st, cur := st', cur';
        i := i + 1;
      }
      at := |bytes|;
      assert bytes[start..] == bytes[start..|bytes|];
      page := Some(bytes[start..]);
    }

    /** One byte's actions, in order, until one does not fit. */
    static method Walk(cols: nat, rows: nat, from: Cursor, actions: seq<Action>) returns (fit: Fit, cur: Cursor)
      requires from.row < rows
      ensures fit == Overflow(cols, rows, from, actions)
      ensures fit.Fits? ==> cur == Track(cols, from, actions) && cur.row < rows
    {
      cur := from;
      var k := 0;
      while k < |actions|
        invariant 0 <= k <= |actions| && cur.row < rows
        invariant Overflow(cols, rows, from, actions) == Overflow(cols, rows, cur, actions[k..])
        invariant Track(cols, from, actions) == Track(cols, cur, actions[k..])
      {
        var a := actions[k];
        var next := Step(cols, cur, a);
        assert actions[k..][0] == a && actions[k..][1..] == actions[k + 1..];
        if next.row >= rows {
          return if a.Draw? then ByGlyph else ByNewline, cur;
        }
        cur := next;
        k := k + 1;
      }
      fit := Fits;
    }
  }
}
