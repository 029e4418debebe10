/**
 The kernel log (`kernel/src/klog.rs`): a boot prefix that is never overwritten, a ring that keeps the
 most recent bytes after it, and a snapshot that says how much of the middle was lost.
 */
module Klog {
  import opened Common

  const PREFIX_CAP := 8192
  const RING_CAP := 8192
  const NOTICE_MAX := 48

  /** One past the largest `usize`. */
  const USIZE_END := 0x1_0000_0000_0000_0000

  // ---------- What the log is ----------

  /** The number in decimal, most significant digit first. */
  function Decimal(v: nat): seq<Byte> {
    if v < 10 then [48 + v] else Decimal(v / 10) + [48 + v % 10]
  }

  function Parse(digits: seq<Byte>): int {
    if digits == [] then 0 else Parse(digits[..|digits| - 1]) * 10 + digits[|digits| - 1] - 48
  }

  /** Reading the digits back gives the number. */
  lemma {:induction false} DecimalRoundTrip(v: nat)
    ensures Parse(Decimal(v)) == v && |Decimal(v)| > 0
  {
    if v >= 10 {
      DecimalRoundTrip(v / 10);
      assert Decimal(v)[..|Decimal(v)| - 1] == Decimal(v / 10);
    } else {
      assert Decimal(v)[..0] == [];
    }
  }

  function Pow10(k: nat): nat {
    if k == 0 then 1 else 10 * Pow10(k - 1)
  }

  lemma {:induction false} DecimalLength(v: nat, k: nat)
    requires 1 <= k && v < Pow10(k)
    ensures |Decimal(v)| <= k
    decreases k
  {
    if v >= 10 {
      DecimalLength(v / 10, k - 1);
    }
  }

  lemma UsizeHasTwentyDigits(v: nat)
    requires v < USIZE_END
    ensures |Decimal(v)| <= 20
  {
    assert Pow10(5) == 100_000;
    assert Pow10(10) == Pow10(5) * 100_000;
    assert Pow10(15) == Pow10(10) * 100_000;
    assert Pow10(20) == Pow10(15) * 100_000;
    DecimalLength(v, 20);
  }

  /** `"\n[klog: "` */
  const OPENING: seq<Byte> := [10, 91, 107, 108, 111, 103, 58, 32]

  /** `" bytes elided]\n"` */
  const CLOSING: seq<Byte> := [32, 98, 121, 116, 101, 115, 32, 101, 108, 105, 100, 101, 100, 93, 10]

  function Notice(lost: nat): seq<Byte> {
    OPENING + Decimal(lost) + CLOSING
  }

  /** How many of `n` bytes the prefix and the ring keep, and how many are lost between them. */
  function Kept(n: nat): nat {
    Min(n, PREFIX_CAP)
  }

  function Recent(n: nat): nat {
    Min(n - Kept(n), RING_CAP)
  }

  function Lost(n: nat): nat {
    n - Kept(n) - Recent(n)
  }

  /** The first bytes, a notice with the exact count if any were lost, and the most recent bytes. */
  function Snapshot(log: seq<Byte>): seq<Byte> {
    log[..Kept(|log|)] + (if Lost(|log|) > 0 then Notice(Lost(|log|)) else []) + log[|log| - Recent(|log|)..]
  }

  /** Kept and lost bytes are all the bytes, and a log that fits is its own snapshot. */
  lemma NothingUnaccounted(log: seq<Byte>)
    ensures Kept(|log|) + Lost(|log|) + Recent(|log|) == |log|
    ensures |log| <= PREFIX_CAP + RING_CAP <==> Lost(|log|) == 0
    ensures Lost(|log|) == 0 ==> Snapshot(log) == log
  {
    if Lost(|log|) == 0 {
      assert log == log[..Kept(|log|)] + log[Kept(|log|)..];
    }
  }

  // ---------- The notice in memory ----------

  /** `put`: bytes at the end, as far as there is room. */
  method Put(s: seq<Byte>, out: array<Byte>, n: nat) returns (m: nat)
    requires out.Length == NOTICE_MAX && n + |s| <= NOTICE_MAX
    modifies out
    ensures m == n + |s| && out[..m] == old(out[..n]) + s
  {
    m := n;
    for k := 0 to |s|
      invariant m == n + k && out[..m] == old(out[..n]) + s[..k]
    {
      if m < NOTICE_MAX {
        out[m] := s[k];
        m := m + 1;
      }
    }
    assert s[..|s|] == s;
  }

  function Reversed(s: seq<Byte>): (r: seq<Byte>)
    ensures |r| == |s|
  {
    if s == [] then [] else [s[|s| - 1]] + Reversed(s[..|s| - 1])
  }

  /** The digits not yet taken off `rest`. */
  function Above(rest: nat): seq<Byte> {
    if rest > 0 then Decimal(rest) else []
  }

  /** Taking one digit off moves it from what is left to what has been taken. */
  lemma DigitMoves(rest: nat, taken: seq<Byte>)
    requires rest > 0
    ensures Above(rest) + Reversed(taken) == Above(rest / 10) + Reversed(taken + [48 + rest % 10])
  {
    var more := taken + [48 + rest % 10];
    assert more[..|more| - 1] == taken;
    assert Reversed(more) == [48 + rest % 10] + Reversed(taken);
    assert Above(rest) == Above(rest / 10) + [48 + rest % 10];
  }

  /** The digits, least significant first. */
  method DigitsOf(v: nat) returns (digits: array<Byte>, count: nat)
    requires v < USIZE_END
    ensures fresh(digits) && digits.Length == 20 && 0 < count <= 20 && Reversed(digits[..count]) == Decimal(v)
  {
    digits := new Byte[20](_ => 0);
    count := 0;
    if v == 0 {
      digits[0] := 48;
      count := 1;
      assert digits[..1] == [48];
      return;
    }
    UsizeHasTwentyDigits(v);
    var rest := v;
    ghost var taken: seq<Byte> := [];
    while rest > 0
      invariant |Above(rest)| + |taken| == |Decimal(v)| && count == |taken|
      invariant Above(rest) + Reversed(taken) == Decimal(v)
      invariant digits[..count] == taken
      invariant rest == v || count > 0
    {
      DigitMoves(rest, taken);
      assert |Above(rest)| > 0;
      digits[count] := 48 + rest % 10;
      taken := taken + [48 + rest % 10];
      rest := rest / 10;
      count := count + 1;
    }
  }

  /** The digits put in the order they are read. */
  method PutDigits(digits: array<Byte>, count: nat, out: array<Byte>, n: nat) returns (m: nat)
    requires digits != out && digits.Length == 20 && count <= 20
    requires out.Length == NOTICE_MAX && n + count <= NOTICE_MAX
    modifies out
    ensures m == n + count && out[..m] == old(out[..n]) + Reversed(digits[..count])
  {
    ghost var all := out[..n] + Reversed(digits[..count]);
    var i := count;
    m := n;
    while i > 0
      invariant 0 <= i <= count && m + i == n + count
      invariant out[..m] + Reversed(digits[..i]) == all
    {
      ghost var before := out[..m];
      i := i - 1;
      ReversedStep(digits[..i], digits[i]);
      assert digits[..i + 1] == digits[..i] + [digits[i]];
      if m < NOTICE_MAX {
        out[m] := digits[i];
        m := m + 1;
        assert out[..m] == before + [digits[i]];
      }
    }
  }

  lemma ReversedStep(s: seq<Byte>, b: Byte)
    ensures Reversed(s + [b]) == [b] + Reversed(s)
  {
    assert (s + [b])[..|s|] == s;
  }

  /** `format_notice`. */
  method FormatNotice(lost: nat, out: array<Byte>) returns (n: nat)
    requires lost < USIZE_END && out.Length == NOTICE_MAX
    modifies out
    ensures n <= NOTICE_MAX && out[..n] == Notice(lost)
  {
    UsizeHasTwentyDigits(lost);
    n := Put(OPENING, out, 0);
    var digits, count := DigitsOf(lost);
    n := PutDigits(digits, count, out, n);
    n := Put(CLOSING, out, n);
  }

  // ---------- The ring ----------

  /** `x` taken round the ring once at most. */
  function Around(x: nat): nat {
    if x < RING_CAP then x else x - RING_CAP
  }

  lemma AroundIsRemainder(x: nat)
    requires x < 2 * RING_CAP
    ensures x % RING_CAP == Around(x)
  {}

  /** Where the `i`th oldest byte of the ring is. */
  function Place(head: nat, len: nat, i: nat): nat {
    if len < RING_CAP then i else Around(head + i)
  }

  predicate IsRing(head: nat, len: nat) {
    head < RING_CAP && len <= RING_CAP && (len < RING_CAP ==> head == len)
  }

  /**
   After `n` more bytes: a byte still in the ring is where it was, which nothing was stored over; a new one where it
   was stored.
   */
  lemma PlacesMove(head: nat, len: nat, n: nat, i: nat)
    requires IsRing(head, len) && 0 < n < RING_CAP && i < Min(len + n, RING_CAP)
    ensures var (head', len') := (Around(head + n), Min(len + n, RING_CAP));
            var (p, k) := (Place(head', len', i), len + n - len' + i);
            && IsRing(head', len') && p < RING_CAP
            && (k < len ==> p == Place(head, len, k) && !(head <= p < head + n) && !(p + RING_CAP < head + n))
            && (k >= len ==> k - len < n && p == Around(head + (k - len)))
  {}

  /** The ring's bytes, oldest first, are `recent`. */
  ghost predicate Holds(ring: seq<Byte>, head: nat, len: nat, recent: seq<Byte>) {
    && |ring| == RING_CAP && IsRing(head, len) && |recent| == len
    && forall i: nat :: i < len ==> ring[Place(head, len, i)] == recent[i]
  }

  /** `after` is `before` with `rest` stored from `head` on, round the end. */
  ghost predicate IsStored(before: seq<Byte>, after: seq<Byte>, head: nat, rest: seq<Byte>) {
    && |before| == |after| == RING_CAP && head < RING_CAP && |rest| < RING_CAP
    && (forall k: nat :: k < |rest| ==> after[Around(head + k)] == rest[k])
    && (forall p :: 0 <= p < RING_CAP && !(head <= p < head + |rest|) && !(p + RING_CAP < head + |rest|) ==>
        after[p] == before[p])
  }

  lemma StoredAt(before: seq<Byte>, after: seq<Byte>, head: nat, len: nat, recent: seq<Byte>, rest: seq<Byte>, i: nat)
    requires Holds(before, head, len, recent) && IsStored(before, after, head, rest) && 0 < |rest|
    requires i < Min(len + |rest|, RING_CAP)
    ensures var len' := Min(len + |rest|, RING_CAP);
            && Place(Around(head + |rest|), len', i) < RING_CAP
            && after[Place(Around(head + |rest|), len', i)] == (recent + rest)[len + |rest| - len' + i]
  {
    PlacesMove(head, len, |rest|, i);
    var k := len + |rest| - Min(len + |rest|, RING_CAP) + i;
    if k < len {
      assert before[Place(head, len, k)] == recent[k];
    } else {
      assert after[Around(head + (k - len))] == rest[k - len];
    }
  }

  /** Storing appends, and what no longer fits goes from the front. */
  lemma StoredHolds(before: seq<Byte>, after: seq<Byte>, head: nat, len: nat, recent: seq<Byte>, rest: seq<Byte>)
    requires Holds(before, head, len, recent) && IsStored(before, after, head, rest) && 0 < |rest|
    ensures var len' := Min(len + |rest|, RING_CAP);
            Holds(after, Around(head + |rest|), len', (recent + rest)[len + |rest| - len'..])
  {
    var (n, len') := (|rest|, Min(len + |rest|, RING_CAP));
    var over := len + n - len';
    var recent' := (recent + rest)[over..];
    PlacesMove(head, len, n, 0);
    forall i: nat | i < len'
      ensures after[Place(Around(head + n), len', i)] == recent'[i]
    {
      StoredAt(before, after, head, len, recent, rest, i);
      assert recent'[i] == (recent + rest)[over + i];
    }
  }

  lemma TailMoves(log: seq<Byte>, rest: seq<Byte>, len: nat, len': nat)
    requires PREFIX_CAP <= |log| && len <= |log| && len' <= len + |rest|
    ensures (log[|log| - len..] + rest)[len + |rest| - len'..] == (log + rest)[|log| + |rest| - len'..]
    ensures len' <= |rest| ==> (log + rest)[|log| + |rest| - len'..] == rest[|rest| - len'..]
    ensures (log + rest)[..PREFIX_CAP] == log[..PREFIX_CAP]
  {}

  // ---------- The log in memory ----------

  /** `Klog`. `log` is every byte ever appended. */
  class Log {
    const prefix: array<Byte>
    const ring: array<Byte>
    var prefixLen: nat
    var head: nat
    var ringLen: nat
    var elided: nat
    ghost var log: seq<Byte>
    ghost var recent: seq<Byte>

    /** The ring holds `recent`. */
    ghost predicate RingOk()
      reads this, ring
    {
      Holds(ring[..], head, ringLen, recent)
    }

    ghost predicate Valid()
      reads this, prefix, ring
    {
      && RingOk()
      && prefix.Length == PREFIX_CAP && prefix != ring
      && |log| < USIZE_END
      && prefixLen == Kept(|log|) && prefix[..prefixLen] == log[..prefixLen]
      && ringLen == Recent(|log|) && recent == log[|log| - ringLen..]
      && elided == Lost(|log|)
    }

    constructor ()
      ensures Valid() && log == [] && fresh(prefix) && fresh(ring)
    {
      prefix := new Byte[PREFIX_CAP](_ => 0);
      ring := new Byte[RING_CAP](_ => 0);
      prefixLen, head, ringLen, elided := 0, 0, 0, 0;
      log, recent := [], [];
    }

    static method Copy(dst: array<Byte>, at: nat, src: seq<Byte>)
      requires at + |src| <= dst.Length
      modifies dst
      ensures forall i :: 0 <= i < dst.Length ==> dst[i] == if at <= i < at + |src| then src[i - at] else old(dst[i])
    {
      forall i | 0 <= i < |src| {
        dst[at + i] := src[i];
      }
    }

    /** `append`: the prefix while it has room, then the ring. */
    method Append(bytes: seq<Byte>)
      requires Valid() && |log| + |bytes| < USIZE_END
      modifies this, prefix, ring
      ensures Valid() && log == old(log) + bytes
    {
      var rest := bytes;
      if prefixLen < PREFIX_CAP {
        var n := Min(|rest|, PREFIX_CAP - prefixLen);
        FillPrefix(rest[..n]);
        assert bytes == rest[..n] + rest[n..];
        rest := rest[n..];
      }
      assert log + rest == old(log) + bytes;
      if rest == [] {
        return;
      }
      if |rest| >= RING_CAP {
        ReplaceRing(rest);
      } else {
        ExtendRing(rest);
      }
    }

    method FillPrefix(bytes: seq<Byte>)
      requires Valid() && |log| + |bytes| < USIZE_END && prefixLen < PREFIX_CAP && prefixLen + |bytes| <= PREFIX_CAP
      modifies this, prefix
      ensures Valid() && log == old(log) + bytes && ring[..] == old(ring[..])
    {
      ghost var before := prefix[..prefixLen];
      Copy(prefix, prefixLen, bytes);
      assert prefix[..prefixLen] == before;
      prefixLen := prefixLen + |bytes|;
      assert prefix[..prefixLen] == before + bytes;
      log := log + bytes;
    }

    /** A write as long as the ring leaves only its tail. */
    method ReplaceRing(rest: seq<Byte>)
      requires Valid() && |log| + |rest| < USIZE_END && prefixLen == PREFIX_CAP && |rest| >= RING_CAP
      modifies this, ring
      ensures Valid() && log == old(log) + rest
    {
      var skip := |rest| - RING_CAP;
      TailMoves(log, rest, 0, RING_CAP);
      elided := elided + Min(ringLen, RING_CAP) + skip;
      Copy(ring, 0, rest[skip..]);
      head := 0;
      ringLen := RING_CAP;
      recent := rest[skip..];
      log := log + rest;
    }

    /** `rest` stored from the head on, round the end. */
    method StoreRing(rest: seq<Byte>)
      requires ring.Length == RING_CAP && head < RING_CAP && |rest| < RING_CAP
      modifies ring
      ensures IsStored(old(ring[..]), ring[..], head, rest)
    {
      var first := Min(|rest|, RING_CAP - head);
      Copy(ring, head, rest[..first]);
      var second := |rest| - first;
      if second > 0 {
        Copy(ring, 0, rest[first..]);
      }
    }

    /** Storing appends, and what no longer fits goes from the front. */
    method PushRing(rest: seq<Byte>)
      requires RingOk() && 0 < |rest| < RING_CAP
      modifies this`head, this`ringLen, this`recent, ring
      ensures RingOk() && ringLen == Min(old(ringLen) + |rest|, RING_CAP)
      ensures recent == (old(recent) + rest)[old(ringLen) + |rest| - ringLen..]
    {
      var len := Min(ringLen + |rest|, RING_CAP);
      var at := (head + |rest|) % RING_CAP;
      AroundIsRemainder(head + |rest|);
      ghost var kept := (recent + rest)[ringLen + |rest| - len..];
      ghost var after := OverwriteRing(rest);
      assert Holds(after, at, len, kept);
      recent, head, ringLen := kept, at, len;
      assert ring[..] == after;
    }

    /** The bytes stored, the fields still to follow. */
    method OverwriteRing(rest: seq<Byte>) returns (ghost after: seq<Byte>)
      requires RingOk() && 0 < |rest| < RING_CAP
      modifies ring
      ensures var len := Min(ringLen + |rest|, RING_CAP);
              after == ring[..] && Holds(after, Around(head + |rest|), len, (recent + rest)[ringLen + |rest| - len..])
    {
      ghost var before := ring[..];
      StoreRing(rest);
      after := ring[..];
      StoredHolds(before, after, head, ringLen, recent, rest);
    }

    method ExtendRing(rest: seq<Byte>)
      requires Valid() && |log| + |rest| < USIZE_END && prefixLen == PREFIX_CAP && 0 < |rest| < RING_CAP
      modifies this, ring
      ensures Valid() && log == old(log) + rest
    {
      TailMoves(log, rest, ringLen, Min(ringLen + |rest|, RING_CAP));
      elided := elided + if ringLen + |rest| > RING_CAP then ringLen + |rest| - RING_CAP else 0;
      PushRing(rest);
      log := log + rest;
    }

    method SnapshotLen() returns (n: nat)
      requires Valid()
      ensures n == |Snapshot(log)|
    {
      var notice := 0;
      if elided != 0 {
        var buf := new Byte[NOTICE_MAX](_ => 0);
        notice := FormatNotice(elided, buf);
      }
      n := prefixLen + notice + ringLen;
    }

    /** `runs`: the snapshot's pieces in order. */
    method Runs(notice: seq<Byte>) returns (runs: seq<seq<Byte>>)
      requires Valid()
      ensures |runs| == 4
      ensures runs[0] + runs[1] + (runs[2] + runs[3]) == log[..prefixLen] + notice + log[|log| - ringLen..]
    {
      var start := if ringLen < RING_CAP then 0 else head;
      var a, b := ring[..0], ring[..0];
      if ringLen == 0 {
      } else if start + ringLen <= RING_CAP {
        a := ring[start..start + ringLen];
      } else {
        var tail := RING_CAP - start;
        a, b := ring[start..], ring[..ringLen - tail];
      }
      assert a + b == recent;
      runs := [prefix[..prefixLen], notice, a, b];
    }

    /** `copy_into`: the snapshot, as much of it as `out` has room for. */
    method CopyInto(out: array<Byte>) returns (written: nat)
      requires Valid() && out != prefix && out != ring
      modifies out
      ensures written == Min(out.Length, |Snapshot(log)|) && out[..written] == Snapshot(log)[..written]
    {
      var notice := new Byte[NOTICE_MAX](_ => 0);
      var noticeLen := 0;
      if elided != 0 {
        noticeLen := FormatNotice(elided, notice);
      }
      var runs := Runs(notice[..noticeLen]);
      assert runs[0] + runs[1] + (runs[2] + runs[3]) == Snapshot(log);
      JoinedFour(runs);
      written := CopyRuns(runs, out);
    }

    /** The pieces one after the other, as far as there is room. */
    static method CopyRuns(runs: seq<seq<Byte>>, out: array<Byte>) returns (written: nat)
      modifies out
      ensures written == Min(out.Length, |Joined(runs, |runs|)|) && out[..written] == Joined(runs, |runs|)[..written]
    {
      written := 0;
      for k := 0 to |runs|
        invariant written == Min(out.Length, |Joined(runs, k)|)
        invariant out[..written] == Joined(runs, k)[..written]
      {
        var n := Min(|runs[k]|, out.Length - written);
        ghost var before := out[..written];
        Copy(out, written, runs[k][..n]);
        assert out[..written] == before;
        assert out[..written + n] == before + runs[k][..n];
        PrefixGrows(Joined(runs, k), runs[k], written, n);
        written := written + n;
      }
    }
  }

  lemma PrefixGrows(s: seq<Byte>, run: seq<Byte>, written: nat, n: nat)
    requires written <= |s| && n <= |run| && (written == |s| || n == 0)
    ensures s[..written] + run[..n] == (s + run)[..written + n]
  {}

  /** The first `k` pieces. */
  function Joined(runs: seq<seq<Byte>>, k: nat): seq<Byte>
    requires k <= |runs|
  {
    if k == 0 then [] else Joined(runs, k - 1) + runs[k - 1]
  }

  lemma JoinedFour(runs: seq<seq<Byte>>)
    requires |runs| == 4
    ensures Joined(runs, |runs|) == runs[0] + runs[1] + (runs[2] + runs[3])
  {
    assert Joined(runs, 1) == runs[0];
    assert Joined(runs, 2) == runs[0] + runs[1];
    assert Joined(runs, 3) == runs[0] + runs[1] + runs[2];
  }
}
