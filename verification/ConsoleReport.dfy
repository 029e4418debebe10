/**
 The page `show_page` puts on the screen (`kernel/src/fbcon/mod.rs`): the bytes of a page, newlines until
 the cursor is on the last row, and a prompt there. When the newlines come to an end, and when they scroll.
 */
module ConsoleReport {
  import opened Common
  import opened ConsoleText
  import opened ConsolePages

  // ---------- Newlines after a page ----------

  function Newlines(n: nat): (s: seq<Byte>)
    ensures |s| == n
  {
    seq(n, _ => NEWLINE)
  }

  /** The screen once a page and `n` newlines have been written to a fresh one, and the decoder's state. */
  function ScreenAfter(bytes: seq<Byte>, n: nat, rows: nat, cols: nat): (s: Screen)
    requires 0 < rows && 0 < cols
    ensures IsScreen(s, rows, cols)
  {
    Written(Fresh(rows, cols), Ground, rows, cols, bytes + Newlines(n))
  }

  function StateAfter(bytes: seq<Byte>, n: nat): State {
    After(Ground, bytes + Newlines(n))
  }

  lemma OneMoreNewline(bytes: seq<Byte>, n: nat)
    ensures Newlines(n + 1) == Newlines(n) + [NEWLINE]
    ensures bytes + Newlines(n) + [NEWLINE] == bytes + Newlines(n + 1)
  {}

  lemma NoNewlines(bytes: seq<Byte>)
    ensures bytes + Newlines(0) == bytes
  {}

  lemma OneMoreOn(bytes: seq<Byte>, n: nat, rows: nat, cols: nat)
    requires 0 < rows && 0 < cols
    ensures ScreenAfter(bytes, n + 1, rows, cols) ==
            Written(ScreenAfter(bytes, n, rows, cols), StateAfter(bytes, n), rows, cols, [NEWLINE])
    ensures StateAfter(bytes, n + 1) == After(StateAfter(bytes, n), [NEWLINE])
  {
    var sofar := bytes + Newlines(n);
    OneMoreNewline(bytes, n);
    WritesMayBeSplit(Fresh(rows, cols), Ground, rows, cols, sofar, [NEWLINE]);
    DecodeSplit(Ground, sofar, [NEWLINE]);
  }

  /** What a newline completes, by the state it comes in. */
  function NewlineIn(st: State): seq<Action> {
    match st
    case Ground => [Newline]
    case Csi => [Newline]
    case Utf8(_, _) => [Draw(REPLACEMENT), Newline]
    case _ => []
  }

  lemma NewlineDecodes(st: State)
    ensures Actions(st, [NEWLINE]) == NewlineIn(st)
    ensures After(st, [NEWLINE]) == if st == Str then Str else Ground
  {
    assert Feed(st, NEWLINE).1 == NewlineIn(st);
  }

  /** A newline ends whatever the decoder was in, a string sequence apart, and moves down from a boundary. */
  lemma NewlineGoesDown(s: Screen, st: State, rows: nat, cols: nat)
    requires IsScreen(s, rows, cols) && st != Str
    ensures After(st, [NEWLINE]) == Ground
    ensures st.Ground? && s.row + 1 < rows ==> Written(s, st, rows, cols, [NEWLINE]).row == s.row + 1
  {
    NewlineDecodes(st);
    assert [Newline][1..] == [];
  }

  /** Inside a string sequence a newline does nothing at all. */
  lemma StringSwallowsNewlines(s: Screen, rows: nat, cols: nat)
    requires IsScreen(s, rows, cols)
    ensures After(Str, [NEWLINE]) == Str && Written(s, Str, rows, cols, [NEWLINE]) == s
  {
    NewlineDecodes(Str);
  }

  // ---------- When they come to an end ----------

  ghost predicate OnLastRow(bytes: seq<Byte>, n: nat, rows: nat, cols: nat)
    requires 0 < rows && 0 < cols
  {
    ScreenAfter(bytes, n, rows, cols).row + 1 == rows
  }

  ghost predicate NotYet(bytes: seq<Byte>, n: nat, rows: nat, cols: nat)
    requires 0 < rows && 0 < cols
  {
    forall m: nat :: m < n ==> !OnLastRow(bytes, m, rows, cols)
  }

  lemma StillNotYet(bytes: seq<Byte>, n: nat, rows: nat, cols: nat)
    requires 0 < rows && 0 < cols && NotYet(bytes, n, rows, cols) && !OnLastRow(bytes, n, rows, cols)
    ensures NotYet(bytes, n + 1, rows, cols)
  {}

  /** `n` newlines, and no fewer, bring the cursor to the last row. */
  ghost predicate IsDown(bytes: seq<Byte>, n: nat, rows: nat, cols: nat)
    requires 0 < rows && 0 < cols
  {
    OnLastRow(bytes, n, rows, cols) && NotYet(bytes, n, rows, cols)
  }

  /** The page does not end inside a string sequence above the last row. */
  ghost predicate ComesDown(bytes: seq<Byte>, rows: nat, cols: nat)
    requires 0 < rows && 0 < cols
  {
    After(Ground, bytes) == Str ==> Written(Fresh(rows, cols), Ground, rows, cols, bytes).row + 1 == rows
  }

  /** However many newlines follow a page that ends inside a string sequence, nothing changes. */
  lemma {:induction false} StuckInString(bytes: seq<Byte>, n: nat, rows: nat, cols: nat)
    requires 0 < rows && 0 < cols && After(Ground, bytes) == Str
    ensures StateAfter(bytes, n) == Str
    ensures ScreenAfter(bytes, n, rows, cols) == Written(Fresh(rows, cols), Ground, rows, cols, bytes)
  {
    if n == 0 {
      NoNewlines(bytes);
    } else {
      StuckInString(bytes, n - 1, rows, cols);
      OneMoreOn(bytes, n - 1, rows, cols);
      StringSwallowsNewlines(ScreenAfter(bytes, n - 1, rows, cols), rows, cols);
    }
  }

  /** Outside a string sequence, the fewest newlines that bring the cursor down, `n` of them having been too few. */
  lemma {:induction false} DownFrom(bytes: seq<Byte>, n: nat, rows: nat, cols: nat) returns (m: nat)
    requires 0 < rows && 0 < cols && NotYet(bytes, n, rows, cols)
    requires OnLastRow(bytes, n, rows, cols) || StateAfter(bytes, n) != Str
    ensures IsDown(bytes, m, rows, cols)
    decreases if StateAfter(bytes, n).Ground? then 0 else 1, rows - ScreenAfter(bytes, n, rows, cols).row
  {
    if OnLastRow(bytes, n, rows, cols) {
      m := n;
    } else {
      NewlineGoesDown(ScreenAfter(bytes, n, rows, cols), StateAfter(bytes, n), rows, cols);
      OneMoreOn(bytes, n, rows, cols);
      StillNotYet(bytes, n, rows, cols);
      m := DownFrom(bytes, n + 1, rows, cols);
    }
  }

  lemma DownExists(bytes: seq<Byte>, rows: nat, cols: nat) returns (n: nat)
    requires 0 < rows && 0 < cols && ComesDown(bytes, rows, cols)
    ensures IsDown(bytes, n, rows, cols)
  {
    NoNewlines(bytes);
    n := DownFrom(bytes, 0, rows, cols);
  }

  /** Exactly when the newlines of `show_page` come to an end. */
  lemma ComesDownIff(bytes: seq<Byte>, rows: nat, cols: nat)
    requires 0 < rows && 0 < cols
    ensures ComesDown(bytes, rows, cols) <==> exists n: nat :: OnLastRow(bytes, n, rows, cols)
  {
    if ComesDown(bytes, rows, cols) {
      var n := DownExists(bytes, rows, cols);
      assert OnLastRow(bytes, n, rows, cols);
    } else {
      forall n: nat
        ensures !OnLastRow(bytes, n, rows, cols)
      {
        StuckInString(bytes, n, rows, cols);
      }
    }
  }

  /** A page on which they do not, on any screen of two rows or more: the start of a title sequence. */
  lemma TitleNeverComesDown(n: nat, rows: nat, cols: nat)
    requires 1 < rows && 0 < cols
    ensures !OnLastRow([0x1B, 0x5D], n, rows, cols)
  {
    var bytes: seq<Byte> := [0x1B, 0x5D];
    assert bytes[1..] == [0x5D];
    assert Feed(Ground, 0x1B) == (Escape, []) && Feed(Escape, 0x5D) == (Str, []);
    assert After(Escape, [0x5D]) == Str && Actions(Escape, [0x5D]) == [];
    assert After(Ground, bytes) == Str && Actions(Ground, bytes) == [];
    StuckInString(bytes, n, rows, cols);
  }

  // ---------- The page with its prompt ----------

  /** As much of the prompt as fits one row. */
  function PromptLine(prompt: seq<Byte>, cols: nat): seq<Byte> {
    if prompt == [] then []
    else
      ScanBounds(prompt, cols, 1, 0, Ground, Cursor(0, 0), 0);
      prompt[..NextPage(prompt, cols, 1, 0).end]
  }

  /** The page, the newlines, a return if the cursor is not at the left, and the prompt. */
  ghost function ReportPage(bytes: seq<Byte>, prompt: seq<Byte>, n: nat, rows: nat, cols: nat): (s: Screen)
    requires 0 < rows && 0 < cols
    ensures IsScreen(s, rows, cols)
  {
    var (down, st) := (ScreenAfter(bytes, n, rows, cols), StateAfter(bytes, n));
    if down.col != 0
    then Written(Written(down, st, rows, cols, [13]), After(st, [13]), rows, cols, PromptLine(prompt, cols))
    else Written(down, st, rows, cols, PromptLine(prompt, cols))
  }

  /** A cursor further down moves as one higher up does. */
  lemma {:induction false} TrackShifts(cols: nat, cur: Cursor, k: nat, actions: seq<Action>)
    ensures var t := Track(cols, cur, actions);
            Track(cols, Cursor(cur.row + k, cur.col), actions) == Cursor(t.row + k, t.col)
    decreases |actions|
  {
    if actions != [] {
      TrackShifts(cols, Step(cols, cur, actions[0]), k, actions[1..]);
    }
  }

  lemma PromptFits(prompt: seq<Byte>, cols: nat)
    ensures CursorAt(cols, PromptLine(prompt, cols)).row == 0
  {
    if prompt != [] {
      assert prompt[0..0] == [];
      ScanFits(prompt, cols, 1, 0, 0, 0);
      var end := NextPage(prompt, cols, 1, 0).end;
      assert prompt[0..end] == prompt[..end];
    }
  }

  lemma {:induction false} ScrollsSplit(s: Screen, rows: nat, cols: nat, a: seq<Action>, b: seq<Action>)
    requires IsScreen(s, rows, cols)
    ensures Scrolls(s, rows, cols, a + b) ==
              Scrolls(s, rows, cols, a) + Scrolls(ApplyAll(s, rows, cols, a), rows, cols, b)
    decreases |a|
  {
    if a == [] {
      assert a + b == b;
    } else {
      assert (a + b)[1..] == a[1..] + b && (a + b)[0] == a[0];
      ScrollsSplit(Apply(s, rows, cols, a[0]), rows, cols, a[1..], b);
    }
  }

  /** On the last row, from the left and between characters, the prompt scrolls nothing. */
  lemma PromptStays(s: Screen, rows: nat, cols: nat, prompt: seq<Byte>)
    requires IsScreen(s, rows, cols) && s.row + 1 == rows && s.col == 0
    ensures var actions := Actions(Ground, PromptLine(prompt, cols));
            Scrolls(s, rows, cols, actions) == 0 && ApplyAll(s, rows, cols, actions).row + 1 == rows
  {
    var actions := Actions(Ground, PromptLine(prompt, cols));
    PromptFits(prompt, cols);
    TrackShifts(cols, Cursor(0, 0), rows - 1, actions);
    ScreenFollows(s, rows, cols, actions);
  }

  // ---------- When the newlines scroll ----------

  /** How often the page and its newlines scroll a fresh screen. */
  ghost function ScrollsAfter(bytes: seq<Byte>, n: nat, rows: nat, cols: nat): nat
    requires 0 < rows && 0 < cols
  {
    Scrolls(Fresh(rows, cols), rows, cols, Actions(Ground, bytes + Newlines(n)))
  }

  /** A newline that reaches the last row leaves the cursor at the left and the decoder between characters. */
  lemma LandsAtTheLeft(s: Screen, st: State, rows: nat, cols: nat)
    requires IsScreen(s, rows, cols) && s.row + 1 < rows
    requires Written(s, st, rows, cols, [NEWLINE]).row + 1 == rows
    ensures Written(s, st, rows, cols, [NEWLINE]).col == 0 && After(st, [NEWLINE]) == Ground
  {
    NewlineDecodes(st);
    NewlineApplies(s, st, rows, cols);
  }

  /** The screen after a newline, by the state it comes in. */
  lemma NewlineApplies(s: Screen, st: State, rows: nat, cols: nat)
    requires IsScreen(s, rows, cols)
    ensures var t := Written(s, st, rows, cols, [NEWLINE]);
            match st
            case Ground => t == NewlineOn(s, rows, cols)
            case Csi => t == NewlineOn(s, rows, cols)
            case Utf8(_, _) => t == NewlineOn(Apply(s, rows, cols, Draw(REPLACEMENT)), rows, cols)
            case _ => t == s
  {
    NewlineDecodes(st);
    JustNewline(s, rows, cols);
    if st.Utf8? {
      JustNewline(Apply(s, rows, cols, Draw(REPLACEMENT)), rows, cols);
      assert [Draw(REPLACEMENT), Newline][1..] == [Newline];
    }
  }

  lemma JustNewline(s: Screen, rows: nat, cols: nat)
    requires IsScreen(s, rows, cols)
    ensures ApplyAll(s, rows, cols, [Newline]) == NewlineOn(s, rows, cols)
  {
    assert [Newline][1..] == [];
  }

  lemma DownIsAtTheLeft(bytes: seq<Byte>, n: nat, rows: nat, cols: nat)
    requires 0 < rows && 0 < cols && IsDown(bytes, n, rows, cols) && !OnLastRow(bytes, 0, rows, cols)
    ensures n > 0 && ScreenAfter(bytes, n, rows, cols).col == 0 && StateAfter(bytes, n) == Ground
  {
    assert !OnLastRow(bytes, n - 1, rows, cols);
    OneMoreOn(bytes, n - 1, rows, cols);
    LandsAtTheLeft(ScreenAfter(bytes, n - 1, rows, cols), StateAfter(bytes, n - 1), rows, cols);
  }

  /** The page's last character is cut short in a full row just above the last: its newline needs two rows. */
  predicate CutInFullRow(bytes: seq<Byte>, rows: nat, cols: nat) {
    var cur := CursorAt(cols, bytes);
    After(Ground, bytes).Utf8? && cur.row + 2 == rows && cur.col >= cols
  }

  /** Where a newline takes the endless cursor: a row down, or two if it first draws a character that wraps. */
  lemma NewlineTracks(cols: nat, cur: Cursor, st: State)
    ensures var t := Track(cols, cur, NewlineIn(st));
            t.row <= cur.row + if st.Utf8? && cur.col >= cols then 2 else 1
  {
    assert [Newline][1..] == [];
    assert [Draw(REPLACEMENT), Newline][1..] == [Newline];
  }

  lemma CursorMoves(bytes: seq<Byte>, n: nat, cols: nat)
    ensures CursorAt(cols, bytes + Newlines(n + 1)) ==
            Track(cols, CursorAt(cols, bytes + Newlines(n)), NewlineIn(StateAfter(bytes, n)))
  {
    var sofar := bytes + Newlines(n);
    OneMoreNewline(bytes, n);
    DecodeSplit(Ground, sofar, [NEWLINE]);
    NewlineDecodes(StateAfter(bytes, n));
    TrackSplit(cols, Cursor(0, 0), Actions(Ground, sofar), NewlineIn(StateAfter(bytes, n)));
  }

  lemma WrittenFollows(bytes: seq<Byte>, rows: nat, cols: nat)
    requires 0 < rows && 0 < cols && CursorAt(cols, bytes).row < rows
    ensures var s := Written(Fresh(rows, cols), Ground, rows, cols, bytes);
            Cursor(s.row, s.col) == CursorAt(cols, bytes)
    ensures Scrolls(Fresh(rows, cols), rows, cols, Actions(Ground, bytes)) == 0
  {
    ScreenFollows(Fresh(rows, cols), rows, cols, Actions(Ground, bytes));
  }

  /** Up to the fewest newlines that reach it, the endless cursor does not pass the last row. */
  lemma {:induction false} StaysAbove(bytes: seq<Byte>, n: nat, rows: nat, cols: nat)
    requires 0 < rows && 0 < cols && CursorAt(cols, bytes).row + 1 < rows && !CutInFullRow(bytes, rows, cols)
    requires NotYet(bytes, n, rows, cols)
    ensures CursorAt(cols, bytes + Newlines(n)).row < rows
  {
    NoNewlines(bytes);
    if n > 0 {
      StaysAbove(bytes, n - 1, rows, cols);
      assert !OnLastRow(bytes, n - 1, rows, cols);
      WrittenFollows(bytes + Newlines(n - 1), rows, cols);
      CursorMoves(bytes, n - 1, cols);
      NewlineTracks(cols, CursorAt(cols, bytes + Newlines(n - 1)), StateAfter(bytes, n - 1));
      if n > 1 {
        NoCharacterOpen(bytes, n - 2);
      }
    }
  }

  lemma NoCharacterOpen(bytes: seq<Byte>, n: nat)
    ensures !StateAfter(bytes, n + 1).Utf8?
  {
    OneMoreOn(bytes, n, 1, 1);
    NewlineDecodes(StateAfter(bytes, n));
  }

  /** The first newline of a page cut in a full row scrolls. */
  lemma CutScrolls(bytes: seq<Byte>, n: nat, rows: nat, cols: nat)
    requires 0 < rows && 0 < cols && 0 < n && CutInFullRow(bytes, rows, cols)
    ensures ScrollsAfter(bytes, n, rows, cols) > 0
  {
    var (st, blank) := (After(Ground, bytes), Fresh(rows, cols));
    var rest := Actions(Ground, Newlines(n - 1));
    CutActions(bytes, n);
    WrittenFollows(bytes, rows, cols);
    var s := ApplyAll(blank, rows, cols, Actions(Ground, bytes));
    ScrollsSplit(blank, rows, cols, Actions(Ground, bytes), NewlineIn(st) + rest);
    ScrollsSplit(s, rows, cols, NewlineIn(st), rest);
    ScrollsOnce(s, rows, cols);
  }

  lemma ScrollsOnce(s: Screen, rows: nat, cols: nat)
    requires IsScreen(s, rows, cols) && s.row + 2 == rows && s.col >= cols
    ensures Scrolls(s, rows, cols, [Draw(REPLACEMENT), Newline]) > 0
  {
    var t := Apply(s, rows, cols, Draw(REPLACEMENT));
    assert t.row + 1 == rows && ScrollsOn(t, rows, cols, Newline);
    assert [Draw(REPLACEMENT), Newline][1..] == [Newline];
    assert Scrolls(t, rows, cols, [Newline]) > 0;
  }

  /** The first newline's actions, apart from the others'. */
  lemma CutActions(bytes: seq<Byte>, n: nat)
    requires 0 < n && After(Ground, bytes).Utf8?
    ensures Actions(Ground, bytes + Newlines(n)) ==
            Actions(Ground, bytes) + (NewlineIn(After(Ground, bytes)) + Actions(Ground, Newlines(n - 1)))
  {
    var st := After(Ground, bytes);
    assert Newlines(n) == [NEWLINE] + Newlines(n - 1);
    DecodeSplit(Ground, bytes, Newlines(n));
    DecodeSplit(st, [NEWLINE], Newlines(n - 1));
    NewlineDecodes(st);
  }

  /**
   A page that leaves the last row free is shown with its prompt on the last row, and without anything
   scrolling exactly if it is not cut inside a character in a full row just above the last.
   */
  lemma ReportScrollsIff(bytes: seq<Byte>, prompt: seq<Byte>, n: nat, rows: nat, cols: nat)
    requires 0 < rows && 0 < cols && CursorAt(cols, bytes).row + 1 < rows && IsDown(bytes, n, rows, cols)
    ensures var all := bytes + Newlines(n) + PromptLine(prompt, cols);
            && ReportPage(bytes, prompt, n, rows, cols) == Written(Fresh(rows, cols), Ground, rows, cols, all)
            && ReportPage(bytes, prompt, n, rows, cols).row + 1 == rows
            && (Scrolls(Fresh(rows, cols), rows, cols, Actions(Ground, all)) == 0 <==> !CutInFullRow(bytes, rows, cols))
  {
    var (down, line) := (bytes + Newlines(n), PromptLine(prompt, cols));
    NotDownYet(bytes, rows, cols);
    DownIsAtTheLeft(bytes, n, rows, cols);
    PromptAfter(down, prompt, rows, cols);
    if CutInFullRow(bytes, rows, cols) {
      CutScrolls(bytes, n, rows, cols);
    } else {
      StaysAbove(bytes, n, rows, cols);
      WrittenFollows(down, rows, cols);
    }
  }

  lemma NotDownYet(bytes: seq<Byte>, rows: nat, cols: nat)
    requires 0 < rows && 0 < cols && CursorAt(cols, bytes).row + 1 < rows
    ensures !OnLastRow(bytes, 0, rows, cols)
  {
    NoNewlines(bytes);
    WrittenFollows(bytes, rows, cols);
  }

  lemma PromptAfter(down: seq<Byte>, prompt: seq<Byte>, rows: nat, cols: nat)
    requires 0 < rows && 0 < cols && After(Ground, down) == Ground
    requires var s := Written(Fresh(rows, cols), Ground, rows, cols, down); s.row + 1 == rows && s.col == 0
    ensures var (blank, line) := (Fresh(rows, cols), PromptLine(prompt, cols));
            var s := Written(blank, Ground, rows, cols, down);
            && Written(blank, Ground, rows, cols, down + line) == Written(s, Ground, rows, cols, line)
            && Written(s, Ground, rows, cols, line).row + 1 == rows
            && Scrolls(blank, rows, cols, Actions(Ground, down + line)) ==
               Scrolls(blank, rows, cols, Actions(Ground, down))
  {
    var (blank, line) := (Fresh(rows, cols), PromptLine(prompt, cols));
    WritesMayBeSplit(blank, Ground, rows, cols, down, line);
    DecodeSplit(Ground, down, line);
    ScrollsSplit(blank, rows, cols, Actions(Ground, down), Actions(Ground, line));
    PromptStays(Written(blank, Ground, rows, cols, down), rows, cols, prompt);
  }

  /** A page that leaves the last row free and yet scrolls: a letter and half a character, on two rows of one column. */
  lemma CutCharacterScrolls(n: nat)
    requires IsDown([0x41, 0xC3], n, 2, 1)
    ensures CursorAt(1, [0x41, 0xC3]).row + 1 < 2 && ScrollsAfter([0x41, 0xC3], n, 2, 1) > 0
  {
    var bytes: seq<Byte> := [0x41, 0xC3];
    assert bytes[1..] == [0xC3];
    assert Feed(Ground, 0x41) == (Ground, [Draw(Ascii(0x41))]) && Feed(Ground, 0xC3) == (Utf8(3, 1), []);
    assert After(Ground, [0xC3]) == Utf8(3, 1) && Actions(Ground, [0xC3]) == [];
    assert After(Ground, bytes) == Utf8(3, 1) && Actions(Ground, bytes) == [Draw(Ascii(0x41))];
    assert [Draw(Ascii(0x41))][1..] == [];
    assert CursorAt(1, bytes) == Cursor(0, 1);
    NotDownYet(bytes, 2, 1);
    CutScrolls(bytes, n, 2, 1);
  }
}
