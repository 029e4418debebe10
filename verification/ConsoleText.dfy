/**
 What the console does with a byte stream (`kernel/src/fbcon/text.rs`): the decoder of UTF-8 and
 escape sequences, the screen as a plain list of rows, and the pager that cuts a log into screens.

 A glyph is named by its character: the font's table from code points to bitmaps is not modelled.
 */
module ConsoleText {
  import opened Common

  datatype Glyph = Ascii(b: nat) | Code(cp: nat)

  const BLANK := Ascii(0x20)
  const REPLACEMENT := Ascii(0x3F)

  const NEWLINE: Byte := 10

  // ---------- The decoder ----------

  datatype Action = Draw(g: Glyph) | Newline | Return | Tab | Backspace

  datatype State = Ground | Utf8(cp: nat, owed: nat) | Escape | Csi | Str | StrEscape

  /** A code point that is a character is drawn as it; a surrogate or anything past the last is not one. */
  function CodeGlyph(cp: nat): Glyph {
    if cp < 0xD800 || 0xE000 <= cp <= 0x10_FFFF then Code(cp) else REPLACEMENT
  }

  /** A byte that starts something. */
  function GroundByte(b: Byte): (State, seq<Action>) {
    if b == NEWLINE then (Ground, [Newline])
    else if b == 13 then (Ground, [Return])
    else if b == 9 then (Ground, [Tab])
    else if b == 8 then (Ground, [Backspace])
    else if b == 0x1B then (Escape, [])
    else if 0x20 <= b <= 0x7E then (Ground, [Draw(Ascii(b))])
    else if 0xC2 <= b <= 0xDF then (Utf8(b % 32, 1), [])
    else if 0xE0 <= b <= 0xEF then (Utf8(b % 16, 2), [])
    else if 0xF0 <= b <= 0xF4 then (Utf8(b % 8, 3), [])
    else if 0x80 <= b then (Ground, [Draw(REPLACEMENT)])
    else (Ground, [])
  }

  predicate IsContinuation(b: Byte) {
    0x80 <= b < 0xC0
  }

  function EscapeByte(b: Byte): State {
    if b == 0x5B then Csi
    else if b == 0x5D || b == 0x50 || b == 0x5E || b == 0x5F then Str
    else Ground
  }

  /** `Decoder::feed`: the state after a byte, and what it completes. */
  function Feed(st: State, b: Byte): (State, seq<Action>) {
    match st
    case Ground => GroundByte(b)
    case Utf8(cp, owed) =>
      if IsContinuation(b) then
        var cp' := cp * 64 + b % 64;
        if owed <= 1 then (Ground, [Draw(CodeGlyph(cp'))]) else (Utf8(cp', owed - 1), [])
      else
        var (st', actions) := GroundByte(b);
        (st', [Draw(REPLACEMENT)] + actions)
    case Escape => (EscapeByte(b), [])
    case Csi =>
      if 0x40 <= b <= 0x7E then (Ground, []) else if b < 0x20 then GroundByte(b) else (Csi, [])
    case Str =>
      (if b == 7 then Ground else if b == 0x1B then StrEscape else Str, [])
    case StrEscape =>
      (if b == 0x5C then Ground else EscapeByte(b), [])
  }

  /** The UTF-8 encoding of a code point above ASCII. */
  function Encode(cp: nat): seq<Byte>
    requires 0x80 <= cp <= 0x10_FFFF
  {
    if cp < 0x800 then [0xC0 + cp / 64, 0x80 + cp % 64]
    else if cp < 0x1_0000 then [0xE0 + cp / 4096, 0x80 + cp / 64 % 64, 0x80 + cp % 64]
    else [0xF0 + cp / 0x4_0000, 0x80 + cp / 4096 % 64, 0x80 + cp / 64 % 64, 0x80 + cp % 64]
  }

  /** The state a stream leaves the decoder in, and all it completes. */
  function After(st: State, bytes: seq<Byte>): State
    decreases |bytes|
  {
    if bytes == [] then st else After(Feed(st, bytes[0]).0, bytes[1..])
  }

  function Actions(st: State, bytes: seq<Byte>): seq<Action>
    decreases |bytes|
  {
    if bytes == [] then [] else Feed(st, bytes[0]).1 + Actions(Feed(st, bytes[0]).0, bytes[1..])
  }

  /** The bytes owed complete the character. */
  lemma OneOwed(cp: nat, b: Byte)
    requires IsContinuation(b)
    ensures After(Utf8(cp, 1), [b]) == Ground && Actions(Utf8(cp, 1), [b]) == [Draw(CodeGlyph(cp * 64 + b % 64))]
  {}

  lemma TwoOwed(cp: nat, b: Byte, c: Byte)
    requires IsContinuation(b) && IsContinuation(c)
    ensures After(Utf8(cp, 2), [b, c]) == Ground
    ensures Actions(Utf8(cp, 2), [b, c]) == [Draw(CodeGlyph((cp * 64 + b % 64) * 64 + c % 64))]
  {
    OneOwed(cp * 64 + b % 64, c);
    assert [b, c][1..] == [c];
  }

  lemma ThreeOwed(cp: nat, b: Byte, c: Byte, d: Byte)
    requires IsContinuation(b) && IsContinuation(c) && IsContinuation(d)
    ensures After(Utf8(cp, 3), [b, c, d]) == Ground
    ensures Actions(Utf8(cp, 3), [b, c, d]) == [Draw(CodeGlyph(((cp * 64 + b % 64) * 64 + c % 64) * 64 + d % 64))]
  {
    TwoOwed(cp * 64 + b % 64, c, d);
    assert [b, c, d][1..] == [c, d];
  }

  lemma Digits(cp: nat)
    ensures cp == (cp / 64) * 64 + cp % 64
    ensures cp / 64 == (cp / 4096) * 64 + cp / 64 % 64
    ensures cp / 4096 == (cp / 0x4_0000) * 64 + cp / 4096 % 64
  {}

  lemma ShortTrip(cp: nat)
    requires 0x80 <= cp < 0x800
    ensures After(Ground, Encode(cp)) == Ground && Actions(Ground, Encode(cp)) == [Draw(Code(cp))]
  {
    var e := Encode(cp);
    assert Feed(Ground, e[0]) == (Utf8(cp / 64, 1), []);
    OneOwed(cp / 64, e[1]);
    assert e[1..] == [e[1]];
  }

  lemma MiddleTrip(cp: nat)
    requires 0x800 <= cp < 0x1_0000 && (cp < 0xD800 || 0xE000 <= cp)
    ensures After(Ground, Encode(cp)) == Ground && Actions(Ground, Encode(cp)) == [Draw(Code(cp))]
  {
    var e := Encode(cp);
    assert Feed(Ground, e[0]) == (Utf8(cp / 4096, 2), []);
    Digits(cp);
    TwoOwed(cp / 4096, e[1], e[2]);
    assert e[1..] == [e[1], e[2]];
  }

  lemma LongTrip(cp: nat)
    requires 0x1_0000 <= cp <= 0x10_FFFF
    ensures After(Ground, Encode(cp)) == Ground && Actions(Ground, Encode(cp)) == [Draw(Code(cp))]
  {
    var e := Encode(cp);
    Digits(cp);
    LowBits(cp / 4096 % 64);
    LowBits(cp / 64 % 64);
    LowBits(cp % 64);
    LongDecodes(cp / 0x4_0000, e[1], e[2], e[3]);
  }

  lemma LowBits(x: nat)
    requires x < 64
    ensures (0x80 + x) % 64 == x
  {}

  lemma LongDecodes(top: nat, b: Byte, c: Byte, d: Byte)
    requires top <= 4 && IsContinuation(b) && IsContinuation(c) && IsContinuation(d)
    ensures After(Ground, [0xF0 + top, b, c, d]) == Ground
    ensures Actions(Ground, [0xF0 + top, b, c, d])
            == [Draw(CodeGlyph(((top * 64 + b % 64) * 64 + c % 64) * 64 + d % 64))]
  {
    LongLead(top);
    ThreeOwed(top, b, c, d);
    assert [0xF0 + top, b, c, d][1..] == [b, c, d];
  }

  lemma LongLead(top: nat)
    requires top <= 4
    ensures Feed(Ground, 0xF0 + top) == (Utf8(top, 3), [])
  {}

  /** Every character encoded in UTF-8 is decoded to that character and nothing else. */
  lemma Utf8RoundTrip(cp: nat)
    requires 0x80 <= cp <= 0x10_FFFF && (cp < 0xD800 || 0xE000 <= cp)
    ensures After(Ground, Encode(cp)) == Ground && Actions(Ground, Encode(cp)) == [Draw(Code(cp))]
  {
    if cp < 0x800 {
      ShortTrip(cp);
    } else if cp < 0x1_0000 {
      MiddleTrip(cp);
    } else {
      LongTrip(cp);
    }
  }

  /** However a stream is split, the two parts decode to what the whole does. */
  lemma {:induction false} DecodeSplit(st: State, a: seq<Byte>, b: seq<Byte>)
    ensures After(st, a + b) == After(After(st, a), b)
    ensures Actions(st, a + b) == Actions(st, a) + Actions(After(st, a), b)
    decreases |a|
  {
    if a == [] {
      assert a + b == b;
    } else {
      assert (a + b)[1..] == a[1..] + b && (a + b)[0] == a[0];
      var (st', actions) := Feed(st, a[0]);
      DecodeSplit(st', a[1..], b);
      Associates(actions, Actions(st', a[1..]), Actions(After(st', a[1..]), b));
    }
  }

  // ---------- The screen ----------

  /**
   A screen of rows of glyphs, the cursor, and the decoder's state. `col` may be one past the last: the next glyph
   wraps.
   */
  datatype Screen = Screen(lines: seq<seq<Glyph>>, row: nat, col: nat)

  ghost predicate IsScreen(s: Screen, rows: nat, cols: nat) {
    && 0 < rows == |s.lines| && 0 < cols
    && (forall r :: 0 <= r < rows ==> |s.lines[r]| == cols)
    && s.row < rows && s.col <= cols
  }

  function Blanks(n: nat): (s: seq<Glyph>)
    ensures |s| == n
  {
    seq(n, _ => BLANK)
  }

  function BlankRows(n: nat, cols: nat): (s: seq<seq<Glyph>>)
    ensures |s| == n && forall i :: 0 <= i < n ==> s[i] == Blanks(cols)
  {
    seq(n, _ => Blanks(cols))
  }

  function Fresh(rows: nat, cols: nat): (s: Screen)
    ensures 0 < rows && 0 < cols ==> IsScreen(s, rows, cols)
  {
    Screen(BlankRows(rows, cols), 0, 0)
  }

  /** How many rows a scroll drops: a quarter of them, at least one. */
  function Jump(rows: nat): (j: nat)
    requires 0 < rows
    ensures 1 <= j <= rows
  {
    Max(rows / 4, 1)
  }

  function NewlineOn(s: Screen, rows: nat, cols: nat): (t: Screen)
    requires IsScreen(s, rows, cols)
    ensures IsScreen(t, rows, cols)
  {
    if s.row + 1 < rows then s.(row := s.row + 1, col := 0)
    else
      var j := Jump(rows);
      Screen(s.lines[j..] + BlankRows(j, cols), rows - j, 0)
  }

  /** One action on a plain list of rows. */
  function Apply(s: Screen, rows: nat, cols: nat, a: Action): (t: Screen)
    requires IsScreen(s, rows, cols)
    ensures IsScreen(t, rows, cols)
  {
    match a
    case Draw(g) =>
      var u := if s.col >= cols then NewlineOn(s, rows, cols) else s;
      u.(lines := u.lines[u.row := u.lines[u.row][u.col := g]], col := u.col + 1)
    case Newline => NewlineOn(s, rows, cols)
    case Return => s.(col := 0)
    case Tab => s.(col := Min((s.col / 8 + 1) * 8, cols))
    case Backspace => s.(col := if Min(s.col, cols) == 0 then 0 else Min(s.col, cols) - 1)
  }

  function ApplyAll(s: Screen, rows: nat, cols: nat, actions: seq<Action>): (t: Screen)
    requires IsScreen(s, rows, cols)
    ensures IsScreen(t, rows, cols)
    decreases |actions|
  {
    if actions == [] then s else ApplyAll(Apply(s, rows, cols, actions[0]), rows, cols, actions[1..])
  }

  lemma {:induction false} ApplyAllSplit(s: Screen, rows: nat, cols: nat, a: seq<Action>, b: seq<Action>)
    requires IsScreen(s, rows, cols)
    ensures ApplyAll(s, rows, cols, a + b) == ApplyAll(ApplyAll(s, rows, cols, a), rows, cols, b)
    decreases |a|
  {
    if a == [] {
      assert a + b == b;
    } else {
      assert (a + b)[1..] == a[1..] + b;
      ApplyAllSplit(Apply(s, rows, cols, a[0]), rows, cols, a[1..], b);
    }
  }

  /** A byte stream written to a screen by a decoder in state `st`. */
  function Written(s: Screen, st: State, rows: nat, cols: nat, bytes: seq<Byte>): (t: Screen)
    requires IsScreen(s, rows, cols)
    ensures IsScreen(t, rows, cols)
  {
    ApplyAll(s, rows, cols, Actions(st, bytes))
  }

  /** What a screen shows does not depend on how the writes were split. */
  lemma WritesMayBeSplit(s: Screen, st: State, rows: nat, cols: nat, a: seq<Byte>, b: seq<Byte>)
    requires IsScreen(s, rows, cols)
    ensures Written(s, st, rows, cols, a + b) ==
            Written(Written(s, st, rows, cols, a), After(st, a), rows, cols, b)
  {
    DecodeSplit(st, a, b);
    ApplyAllSplit(s, rows, cols, Actions(st, a), Actions(After(st, a), b));
  }
}
