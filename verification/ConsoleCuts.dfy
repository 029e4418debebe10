/**
 Where the pager cuts a log (`Pages` in `kernel/src/fbcon/text.rs`), and what its pages show. No page begins inside a
 character. One may end inside one: where the newline that is left out is what cuts the character short.
 */
module ConsoleCuts {
  import opened Common
  import opened ConsoleText
  import opened ConsolePages

  // ---------- One cut ----------

  /** A newline ends whatever it comes in, and loses the character it cuts short. */
  lemma NewlineEnds(st: State, b: Byte)
    requires Newline in Feed(st, b).1
    ensures b == NEWLINE && Feed(st, b).0 == Ground
    ensures Feed(st, b).1 == if st.Utf8? then [Draw(REPLACEMENT), Newline] else [Newline]
  {
    NewlineIsNewline(st, b);
  }

  /** What a page leaves out before the next. */
  function Dropped(bytes: seq<Byte>, at: nat, p: Page): seq<Action> {
    if p.resume <= p.end then []
    else if at <= p.end <= |bytes| && After(Ground, bytes[at..p.end]).Utf8? then [Draw(REPLACEMENT), Newline]
    else [Newline]
  }

  /** The cut at `p` is where the decoder is between characters, and loses what `Dropped` says. */
  ghost predicate CutIs(bytes: seq<Byte>, at: nat, p: Page) {
    && at <= p.end <= p.resume <= |bytes|
    && (p.end < |bytes| ==> After(Ground, bytes[at..p.resume]) == Ground)
    && (p.end == |bytes| ==> p.resume == p.end)
    && Actions(Ground, bytes[at..p.resume]) == Actions(Ground, bytes[at..p.end]) + Dropped(bytes, at, p)
  }

  /** Cut where the decoder is between characters, a stretch decodes as its two parts do, each afresh. */
  lemma CutBetween(bytes: seq<Byte>, at: nat, mid: nat, to: nat)
    requires at <= mid <= to <= |bytes| && (After(Ground, bytes[at..mid]) == Ground || mid == to)
    ensures Actions(Ground, bytes[at..to]) == Actions(Ground, bytes[at..mid]) + Actions(Ground, bytes[mid..to])
    ensures mid < to ==> After(Ground, bytes[at..to]) == After(Ground, bytes[mid..to])
  {
    assert bytes[at..to] == bytes[at..mid] + bytes[mid..to];
    DecodeSplit(Ground, bytes[at..mid], bytes[mid..to]);
    assert mid == to ==> bytes[mid..to] == [];
  }

  lemma NewlineCut(bytes: seq<Byte>, at: nat, i: nat)
    requires at <= i < |bytes| && Newline in Feed(After(Ground, bytes[at..i]), bytes[i]).1
    ensures CutIs(bytes, at, Page(i, i + 1))
  {
    var (a, b) := (bytes[at..i], [bytes[i]]);
    assert bytes[at..i + 1] == a + b;
    DecodeSplit(Ground, a, b);
    NewlineEnds(After(Ground, a), bytes[i]);
    assert Actions(After(Ground, a), b) == Feed(After(Ground, a), bytes[i]).1;
  }

  lemma {:induction false} ScanCuts(bytes: seq<Byte>, cols: nat, rows: nat, at: nat, i: nat, start: nat)
    requires at <= start <= i <= |bytes| && CursorAt(cols, bytes[at..i]).row < rows
    requires After(Ground, bytes[at..start]) == Ground
    ensures var (st, cur) := (After(Ground, bytes[at..i]), CursorAt(cols, bytes[at..i]));
            var (end, resume) := Scan(bytes, cols, rows, i, st, cur, start);
            CutIs(bytes, at, Page(end, resume))
    decreases |bytes| - i
  {
    var (st, cur) := (After(Ground, bytes[at..i]), CursorAt(cols, bytes[at..i]));
    if i < |bytes| {
      var begun := if st.Ground? then i else start;
      var (st', actions) := Feed(st, bytes[i]);
      match Overflow(cols, rows, cur, actions)
      case Fits =>
        FitsStaysAbove(cols, rows, cur, actions);
        OneMore(bytes, cols, at, i);
        ScanCuts(bytes, cols, rows, at, i + 1, begun);
      case ByGlyph =>
      case ByNewline =>
        ByNewlineHasOne(cols, rows, cur, actions);
        NewlineCut(bytes, at, i);
    }
  }

  /**
   A page and what is left out after it decode as the log does there, and the next page begins between characters.
   For any bytes.
   */
  lemma PageCut(bytes: seq<Byte>, cols: nat, rows: nat, at: nat)
    requires at < |bytes| && 0 < rows
    ensures CutIs(bytes, at, NextPage(bytes, cols, rows, at))
  {
    assert bytes[at..at] == [];
    ScanCuts(bytes, cols, rows, at, at, at);
  }

  // ---------- All the pages ----------

  /** What `n` pages show, each decoded afresh, with what is left out after each. */
  function Shown(bytes: seq<Byte>, cols: nat, rows: nat, at: nat, n: nat): seq<Action>
    decreases n
  {
    if n == 0 || at >= |bytes| then []
    else
      var p := NextPage(bytes, cols, rows, at);
      (if at <= p.end <= |bytes| then Actions(Ground, bytes[at..p.end]) else [])
      + Dropped(bytes, at, p)
      + Shown(bytes, cols, rows, p.resume, n - 1)
  }

  /** However many pages have been taken, they show the log so far but for what the cuts leave out. For any bytes. */
  lemma {:induction false} PagesShowTheLog(bytes: seq<Byte>, cols: nat, rows: nat, at: nat, n: nat)
    requires at <= |bytes| && 0 < rows
    ensures at <= Reached(bytes, cols, rows, at, n) <= |bytes|
    ensures Shown(bytes, cols, rows, at, n) == Actions(Ground, bytes[at..Reached(bytes, cols, rows, at, n)])
    decreases n
  {
    if n > 0 && at < |bytes| {
      var p := NextPage(bytes, cols, rows, at);
      PageCut(bytes, cols, rows, at);
      PagesShowTheLog(bytes, cols, rows, p.resume, n - 1);
      var r := Reached(bytes, cols, rows, p.resume, n - 1);
      CutBetween(bytes, at, p.resume, r);
    }
  }

  /** Wherever a page begins, the whole log's decoder is between characters. */
  lemma {:induction false} PagesBeginBetween(bytes: seq<Byte>, cols: nat, rows: nat, at: nat, n: nat)
    requires at <= |bytes| && 0 < rows && After(Ground, bytes[..at]) == Ground
    ensures Reached(bytes, cols, rows, at, n) < |bytes| ==>
              After(Ground, bytes[..Reached(bytes, cols, rows, at, n)]) == Ground
    decreases n
  {
    if n > 0 && at < |bytes| {
      var p := NextPage(bytes, cols, rows, at);
      PageCut(bytes, cols, rows, at);
      if p.end < |bytes| {
        assert bytes[..p.resume] == bytes[..at] + bytes[at..p.resume];
        DecodeSplit(Ground, bytes[..at], bytes[at..p.resume]);
        PagesBeginBetween(bytes, cols, rows, p.resume, n - 1);
      }
    }
  }

  // ---------- Pages that end inside a character ----------

  /** The newline at `i` cuts a character short. */
  predicate CutsShort(bytes: seq<Byte>, i: nat) {
    i < |bytes| && bytes[i] == NEWLINE && After(Ground, bytes[..i]).Utf8?
  }

  /** The page after `n` others ends before the log does, inside a character. */
  predicate EndsInside(bytes: seq<Byte>, cols: nat, rows: nat, n: nat) {
    var at := Reached(bytes, cols, rows, 0, n);
    at < |bytes| &&
    var p := NextPage(bytes, cols, rows, at);
    at <= p.end < |bytes| && After(Ground, bytes[at..p.end]).Utf8?
  }

  /** Then the byte it ends at is a newline that cuts that character short. */
  lemma EndsAtNewline(bytes: seq<Byte>, cols: nat, rows: nat, n: nat)
    requires 0 < rows && EndsInside(bytes, cols, rows, n)
    ensures CutsShort(bytes, NextPage(bytes, cols, rows, Reached(bytes, cols, rows, 0, n)).end)
  {
    var at := Reached(bytes, cols, rows, 0, n);
    var p := NextPage(bytes, cols, rows, at);
    PageCut(bytes, cols, rows, at);
    ScanBounds(bytes, cols, rows, at, Ground, Cursor(0, 0), at);
    assert bytes[..0] == [];
    PagesBeginBetween(bytes, cols, rows, 0, n);
    assert bytes[..p.end] == bytes[..at] + bytes[at..p.end];
    DecodeSplit(Ground, bytes[..at], bytes[at..p.end]);
  }

  /** On a screen wide enough only a newline starts a row. */
  lemma WideEnough(cols: nat, st: State, b: Byte, cur: Cursor)
    requires cur.row == 0 && cur.col + 10 <= cols
    ensures var actions := Feed(st, b).1;
            && !Overflow(cols, 1, cur, actions).ByGlyph?
            && (Overflow(cols, 1, cur, actions).Fits? <==> Newline !in actions)
            && (Newline !in actions ==> Track(cols, cur, actions).row == 0)
            && (Newline !in actions ==> Track(cols, cur, actions).col <= cur.col + 10)
  {
    var actions := Feed(st, b).1;
    assert actions != [] ==> actions == [actions[0]] + actions[1..];
    assert |actions| == 2 ==> actions[1..] == [actions[1]];
    assert |actions| <= 2 && (|actions| == 2 ==> actions[0].Draw?);
  }

  /** So on one such row the first page ends at the next newline. */
  lemma {:induction false} OneRowScan(
    bytes: seq<Byte>, cols: nat, i: nat, st: State, cur: Cursor, start: nat, stop: nat)
    requires i <= stop < |bytes| && cur.row == 0 && cur.col + 10 * (|bytes| - i) <= cols
    requires Newline in Feed(After(st, bytes[i..stop]), bytes[stop]).1
    ensures var (end, resume) := Scan(bytes, cols, 1, i, st, cur, start);
            i <= end <= stop && resume == end + 1 && Newline in Feed(After(st, bytes[i..end]), bytes[end]).1
    decreases stop - i
  {
    WideEnough(cols, st, bytes[i], cur);
    var (st', actions) := Feed(st, bytes[i]);
    assert bytes[i..i] == [];
    if Newline !in actions {
      assert bytes[i..stop][0] == bytes[i] && bytes[i..stop][1..] == bytes[i + 1..stop];
      var begun := if st.Ground? then i else start;
      OneRowScan(bytes, cols, i + 1, st', Track(cols, cur, actions), begun, stop);
      var end := Scan(bytes, cols, 1, i, st, cur, start).0;
      assert bytes[i..end][0] == bytes[i] && bytes[i..end][1..] == bytes[i + 1..end];
    }
  }

  lemma OneRowPage(bytes: seq<Byte>, cols: nat, at: nat, stop: nat) returns (end: nat)
    requires at <= stop < |bytes| && 10 * |bytes| <= cols
    requires Newline in Feed(After(Ground, bytes[at..stop]), bytes[stop]).1
    ensures at <= end <= stop && NextPage(bytes, cols, 1, at) == Page(end, end + 1)
    ensures end < stop ==> After(Ground, bytes[end + 1..stop]) == After(Ground, bytes[at..stop])
  {
    OneRowScan(bytes, cols, at, Ground, Cursor(0, 0), at, stop);
    end := NextPage(bytes, cols, 1, at).end;
    NewlineCut(bytes, at, end);
    if end + 1 < stop {
      CutBetween(bytes, at, end + 1, stop);
    }
  }

  /** And every newline ends a page. */
  lemma {:induction false} OneRowReaches(bytes: seq<Byte>, cols: nat, at: nat, stop: nat) returns (n: nat, from: nat)
    requires at <= stop < |bytes| && 10 * |bytes| <= cols
    requires Newline in Feed(After(Ground, bytes[at..stop]), bytes[stop]).1
    ensures at <= from <= stop && from == Reached(bytes, cols, 1, at, n)
    ensures NextPage(bytes, cols, 1, from).end == stop
    ensures After(Ground, bytes[from..stop]) == After(Ground, bytes[at..stop])
    decreases stop - at
  {
    var end := OneRowPage(bytes, cols, at, stop);
    if end == stop {
      n, from := 0, at;
    } else {
      var m;
      m, from := OneRowReaches(bytes, cols, end + 1, stop);
      n := m + 1;
    }
  }

  /** Exactly when some screen has a page that ends inside a character: a newline in the log cuts one short. */
  lemma PagesEndInsideIff(bytes: seq<Byte>)
    ensures (exists cols: nat, rows: nat, n: nat :: 0 < cols && 0 < rows && EndsInside(bytes, cols, rows, n)) <==>
            (exists i: nat :: CutsShort(bytes, i))
  {
    if cols: nat, rows: nat, n: nat :| 0 < cols && 0 < rows && EndsInside(bytes, cols, rows, n) {
      EndsAtNewline(bytes, cols, rows, n);
    }
    if i: nat :| CutsShort(bytes, i) {
      assert bytes[..i] == bytes[0..i];
      assert Feed(After(Ground, bytes[..i]), NEWLINE).1 == [Draw(REPLACEMENT)] + [Newline];
      var n, _ := OneRowReaches(bytes, 10 * |bytes|, 0, i);
      assert EndsInside(bytes, 10 * |bytes|, 1, n);
    }
  }

  /** A lead byte, a newline and a letter on a screen of one cell: the first page is the lead byte and shows nothing. */
  lemma LeadThenNewline()
    ensures var bytes: seq<Byte> := [0xC3, NEWLINE, 0x41];
            && NextPage(bytes, 1, 1, 0) == Page(1, 2)
            && Actions(Ground, bytes[0..1]) == [] && Dropped(bytes, 0, Page(1, 2)) == [Draw(REPLACEMENT), Newline]
  {
    var bytes: seq<Byte> := [0xC3, NEWLINE, 0x41];
    assert Feed(Ground, bytes[0]) == (Utf8(3, 1), []);
    assert Feed(Utf8(3, 1), bytes[1]) == (Ground, [Draw(REPLACEMENT)] + [Newline]);
    var cut := [Draw(REPLACEMENT)] + [Newline];
    assert cut[0] == Draw(REPLACEMENT) && cut[1..] == [Newline];
    assert Overflow(1, 1, Cursor(0, 0), cut) == ByNewline;
    assert Scan(bytes, 1, 1, 1, Utf8(3, 1), Cursor(0, 0), 0) == (1, 2);
    assert bytes[0..1] == [bytes[0]] && [bytes[0]][1..] == [];
    assert After(Ground, bytes[0..1]) == Utf8(3, 1);
  }

  /** Text in which every lead byte has what it asks for has no such newline. */
  lemma WellFormedNeverCutShort(bytes: seq<Byte>, i: nat)
    requires WellFormed(bytes)
    ensures !CutsShort(bytes, i)
  {
    if i < |bytes| && After(Ground, bytes[..i]).Utf8? {
      OpenIsOwed(bytes, i);
    }
  }

  /** Inside a character of well-formed text, its next bytes are the ones it is owed. */
  lemma {:induction false} OpenIsOwed(bytes: seq<Byte>, i: nat)
    requires WellFormed(bytes) && i <= |bytes| && After(Ground, bytes[..i]).Utf8?
    ensures 0 < After(Ground, bytes[..i]).owed && Continued(bytes[i..], After(Ground, bytes[..i]).owed)
    decreases i
  {
    if i > 0 {
      var b := bytes[i - 1];
      assert bytes[..i] == bytes[..i - 1] + [b];
      DecodeSplit(Ground, bytes[..i - 1], [b]);
      var st := After(Ground, bytes[..i - 1]);
      assert After(st, [b]) == Feed(st, b).0;
      assert Continued(bytes[i..], Owed(b));
      if st.Utf8? {
        OpenIsOwed(bytes, i - 1);
        assert bytes[i - 1..][0] == b && bytes[i - 1..][1..] == bytes[i..];
      }
    }
  }
}
