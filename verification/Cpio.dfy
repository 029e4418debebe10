/**
 The initramfs lookup (`kernel/src/initramfs.rs`): a CPIO newc archive searched for a name, checked
 against the packer that writes such archives. Offsets fit a machine word: an archive is in memory.
 */
module Cpio {
  import opened Common

  const HDR_LEN := 110

  /** `070701` */
  const MAGIC: seq<Byte> := [48, 55, 48, 55, 48, 49]

  /** `TRAILER!!!` */
  const TRAILER: seq<Byte> := [84, 82, 65, 73, 76, 69, 82, 33, 33, 33]

  function Align4(x: nat): (y: nat)
    ensures x <= y < x + 4 && y % 4 == 0
  {
    if x % 4 == 0 then x else x + 4 - x % 4
  }

  /** A leading `./` does not count. */
  function Normalize(name: seq<Byte>): seq<Byte> {
    if |name| >= 2 && name[0] == 46 && name[1] == 47 then name[2..] else name
  }

  // ---------- Hexadecimal ----------

  function HexDigit(b: Byte): Option<nat> {
    if 48 <= b <= 57 then Some(b - 48)
    else if 97 <= b <= 102 then Some(b - 97 + 10)
    else if 65 <= b <= 70 then Some(b - 65 + 10)
    else None
  }

  /** The value of the hexadecimal digits from `lo` up to `hi`. */
  function HexIn(s: seq<Byte>, lo: nat, hi: nat): Option<nat>
    requires lo <= hi <= |s|
    decreases hi - lo
  {
    if lo == hi then Some(0)
    else
      var (v, d) := (HexIn(s, lo, hi - 1), HexDigit(s[hi - 1]));
      if v.None? || d.None? then None else Some(v.value * 16 + d.value)
  }

  /** `hex8`: eight digits, or nothing if there are not eight or one is not hexadecimal. */
  method Hex8(s: seq<Byte>, at: nat) returns (r: Option<nat>)
    ensures r == if at + 8 > |s| then None else HexIn(s, at, at + 8)
  {
    if at + 8 > |s| {
      return None;
    }
    var v, i := 0, 0;
    while i < 8
      invariant 0 <= i <= 8 && HexIn(s, at, at + i) == Some(v)
    {
      var d := HexDigit(s[at + i]);
      if d.None? {
        NoValueFrom(s, at, at + i + 1, at + 8);
        return None;
      }
      v := v * 16 + d.value;
      i := i + 1;
    }
    r := Some(v);
  }

  /** One bad digit spoils the number. */
  lemma {:induction false} NoValueFrom(s: seq<Byte>, lo: nat, mid: nat, hi: nat)
    requires lo <= mid <= hi <= |s| && HexIn(s, lo, mid).None?
    ensures HexIn(s, lo, hi).None?
    decreases hi - mid
  {
    if mid < hi {
      NoValueFrom(s, lo, mid, hi - 1);
    }
  }

  function DigitOf(d: nat): Byte
    requires d < 16
  {
    if d < 10 then 48 + d else 97 + d - 10
  }

  /** A header field: `v` in eight lower-case digits. */
  function Field(v: nat): (s: seq<Byte>)
    ensures |s| == 8
  {
    var q1 := v / 16;
    var q2 := q1 / 16;
    var q3 := q2 / 16;
    var q4 := q3 / 16;
    var q5 := q4 / 16;
    var q6 := q5 / 16;
    var q7 := q6 / 16;
    [DigitOf(q7 % 16), DigitOf(q6 % 16), DigitOf(q5 % 16), DigitOf(q4 % 16),
     DigitOf(q3 % 16), DigitOf(q2 % 16), DigitOf(q1 % 16), DigitOf(v % 16)]
  }

  /** One more digit of `v` read. */
  lemma NextDigit(s: seq<Byte>, lo: nat, hi: nat, v: nat)
    requires lo <= hi < |s| && HexIn(s, lo, hi) == Some(v / 16) && s[hi] == DigitOf(v % 16)
    ensures HexIn(s, lo, hi + 1) == Some(v)
  {}

  /** A field that fits, wherever it stands, has its number's value. */
  lemma FieldReads(s: seq<Byte>, at: nat, v: nat)
    requires at + 8 <= |s| && v < 0x1_0000_0000 && s[at..at + 8] == Field(v)
    ensures HexIn(s, at, at + 8) == Some(v)
  {
    var f := s[at..at + 8];
    var q1 := v / 16;
    var q2 := q1 / 16;
    var q3 := q2 / 16;
    var q4 := q3 / 16;
    var q5 := q4 / 16;
    var q6 := q5 / 16;
    var q7 := q6 / 16;
    assert HexIn(s, at, at) == Some(q7 / 16);
    assert f[0] == s[at] && f[1] == s[at + 1] && f[2] == s[at + 2] && f[3] == s[at + 3];
    assert f[4] == s[at + 4] && f[5] == s[at + 5] && f[6] == s[at + 6] && f[7] == s[at + 7];
    NextDigit(s, at, at, q7);
    NextDigit(s, at, at + 1, q6);
    NextDigit(s, at, at + 2, q5);
    NextDigit(s, at, at + 3, q4);
    NextDigit(s, at, at + 4, q3);
    NextDigit(s, at, at + 5, q2);
    NextDigit(s, at, at + 6, q1);
    NextDigit(s, at, at + 7, v);
  }

  // ---------- One entry ----------

  /** A normalised name, and where its data is. */
  datatype Parsed = Parsed(name: seq<Byte>, start: nat, end: nat)

  /** The entry whose header is at `off`, if the archive has one there. */
  function EntryAt(blob: seq<Byte>, off: nat): (r: Option<Parsed>)
    ensures r.Some? ==> off + HDR_LEN <= r.value.start <= r.value.end <= |blob|
  {
    if off + HDR_LEN > |blob| || blob[off..off + 6] != MAGIC then None
    else
      var (filesize, namesize) := (HexIn(blob, off + 54, off + 62), HexIn(blob, off + 94, off + 102));
      if filesize.None? || namesize.None? then None else Sized(blob, off, filesize.value, namesize.value)
  }

  /** The entry at `off` whose header gives these sizes, if the archive is long enough for it. */
  function Sized(blob: seq<Byte>, off: nat, filesize: nat, namesize: nat): (r: Option<Parsed>)
    ensures r.Some? ==> off + HDR_LEN <= r.value.start <= r.value.end <= |blob|
  {
    var nameEnd := off + HDR_LEN + namesize;
    if nameEnd > |blob| || namesize == 0 then None
    else
      var start := Align4(nameEnd);
      var end := start + filesize;
      if end > |blob| then None
      else Some(Parsed(Normalize(blob[off + HDR_LEN..nameEnd - 1]), start, end))
  }

  /** A reader of the entry at an offset. */
  type Reader = nat -> Option<Parsed>

  /** What it reads lies behind the offset and inside the archive. */
  ghost predicate Bounded(read: Reader, limit: nat) {
    forall off: nat :: read(off).Some? ==> off < read(off).value.start <= read(off).value.end <= limit
  }

  function EntriesOf(blob: seq<Byte>): (read: Reader)
    ensures Bounded(read, |blob|)
  {
    (off: nat) => EntryAt(blob, off)
  }

  /** The data of the first entry from `off` on whose name is `want`; the trailer ends the search. */
  function Find(read: Reader, limit: nat, off: nat, want: seq<Byte>): (r: Option<(nat, nat)>)
    requires Bounded(read, limit)
    ensures r.Some? ==> r.value.0 <= r.value.1 <= limit
    decreases limit - off
  {
    var e := read(off);
    if e.None? || e.value.name == TRAILER then None
    else if e.value.name == want then Some((e.value.start, e.value.end))
    else Find(read, limit, Align4(e.value.end), want)
  }

  /** One header read and checked, as `lookup` does at each step. */
  method ReadEntry(blob: seq<Byte>, off: nat) returns (r: Option<Parsed>)
    ensures r == EntryAt(blob, off)
  {
    if off + HDR_LEN > |blob| {
      return None;
    }
    var hdr := blob[off..off + HDR_LEN];
    if hdr[0..6] != MAGIC {
      assert hdr[0..6] == blob[off..off + 6];
      return None;
    }
    assert hdr[0..6] == blob[off..off + 6];
    var filesize := Hex8(blob, off + 54);
    var namesize := Hex8(blob, off + 94);
    if filesize.None? || namesize.None? {
      return None;
    }
    var nameStart := off + HDR_LEN;
    var nameEnd := nameStart + namesize.value;
    if nameEnd > |blob| || namesize.value == 0 {
      return None;
    }
    var dataStart := Align4(nameEnd);
    var dataEnd := dataStart + filesize.value;
    if dataEnd > |blob| {
      return None;
    }
    r := Some(Parsed(Normalize(blob[nameStart..nameEnd - 1]), dataStart, dataEnd));
  }

  /** `lookup`: for any bytes it ends and stays inside the archive. */
  method Lookup(blob: seq<Byte>, name: seq<Byte>) returns (r: Option<(nat, nat)>)
    ensures r == Find(EntriesOf(blob), |blob|, 0, Normalize(name))
    ensures r.Some? ==> r.value.0 <= r.value.1 <= |blob|
  {
    var want := Normalize(name);
    var off := 0;
    ghost var read := EntriesOf(blob);
    while true
      invariant Find(read, |blob|, off, want) == Find(read, |blob|, 0, want)
      decreases |blob| - off
    {
      var e := ReadEntry(blob, off);
      if e.None? || e.value.name == TRAILER {
        return None;
      }
      if e.value.name == want {
        return Some((e.value.start, e.value.end));
      }
      off := Align4(e.value.end);
    }
  }

  // ---------- The packer ----------

  /** A file to pack; `meta` is what else its header says, which a lookup does not read. */
  datatype File = File(name: seq<Byte>, data: seq<Byte>, meta: (seq<Byte>, seq<Byte>, seq<Byte>))

  ghost predicate Packable(f: File) {
    && |f.name| + 1 < 0x1_0000_0000 && |f.data| < 0x1_0000_0000
    && |f.meta.0| == 48 && |f.meta.1| == 32 && |f.meta.2| == 8
  }

  function Zeros(n: nat): (s: seq<Byte>)
    ensures |s| == n
  {
    seq(n, _ => 0)
  }

  /** Zeros up to the next multiple of four. */
  function Padding(len: nat): seq<Byte> {
    Zeros(Align4(len) - len)
  }

  function Header(f: File): seq<Byte> {
    MAGIC + f.meta.0 + Field(|f.data|) + f.meta.1 + Field(|f.name| + 1) + f.meta.2
  }

  /** One entry, from an offset that is a multiple of four to the next. */
  function Pack(f: File): seq<Byte> {
    Front(f) + f.data + Padding(|f.data|)
  }

  /** Up to the data: the header, the name, its NUL and the padding. */
  function Front(f: File): seq<Byte> {
    Header(f) + f.name + ([0] + Padding(HDR_LEN + |f.name| + 1))
  }

  /** The files a lookup can come to: one named as the trailer ends it. */
  function BeforeTrailer(files: seq<File>): seq<File> {
    if files == [] || Normalize(files[0].name) == TRAILER then [] else [files[0]] + BeforeTrailer(files[1..])
  }

  /** What a lookup among them is to find. */
  function FirstNamed(files: seq<File>, want: seq<Byte>): Option<seq<Byte>> {
    if files == [] then None
    else if Normalize(files[0].name) == want then Some(files[0].data)
    else FirstNamed(files[1..], want)
  }

  lemma HeaderLayout(f: File)
    requires Packable(f)
    ensures |Header(f)| == HDR_LEN && Header(f)[..6] == MAGIC
    ensures Header(f)[54..62] == Field(|f.data|) && Header(f)[94..102] == Field(|f.name| + 1)
  {}

  lemma Middle(x: seq<Byte>, y: seq<Byte>, z: seq<Byte>)
    ensures (x + y + z)[..|x|] == x && (x + y + z)[|x|..|x| + |y|] == y
  {}

  lemma Slices(h: seq<Byte>, name: seq<Byte>, tail: seq<Byte>, data: seq<Byte>, pad: seq<Byte>)
    ensures var p := h + name + tail + data + pad;
            var start := |h| + |name| + |tail|;
            && p[..|h|] == h
            && p[|h|..|h| + |name|] == name
            && p[start..start + |data|] == data
            && |p| == start + |data| + |pad|
  {
    var front := h + name + tail;
    var p := front + data + pad;
    Middle(front, data, pad);
    Middle(h, name, tail);
    assert p[..|h|] == front[..|h|];
    assert p[|h|..|h| + |name|] == front[|h|..|h| + |name|];
  }

  /** Where the parts of a packed entry are. */
  lemma PackedLayout(f: File)
    requires Packable(f)
    ensures var start := Align4(HDR_LEN + |f.name| + 1);
            && |Pack(f)| == start + Align4(|f.data|)
            && Pack(f)[..HDR_LEN] == Header(f)
            && Pack(f)[HDR_LEN..HDR_LEN + |f.name|] == f.name
            && Pack(f)[start..start + |f.data|] == f.data
  {
    HeaderLayout(f);
    Slices(Header(f), f.name, [0] + Padding(HDR_LEN + |f.name| + 1), f.data, Padding(|f.data|));
  }

  lemma Shifted(before: seq<Byte>, p: seq<Byte>, rest: seq<Byte>, a: nat, b: nat)
    requires a <= b <= |p|
    ensures (before + p + rest)[|before| + a..|before| + b] == p[a..b]
  {}

  lemma AlignShifts(off: nat, x: nat)
    requires off % 4 == 0
    ensures Align4(off + x) == off + Align4(x)
  {}

  /** The bytes of an entry with this name and data, found at `off` of an archive. */
  ghost predicate EntryStands(blob: seq<Byte>, off: nat, name: seq<Byte>, data: seq<Byte>) {
    var start := off + Align4(HDR_LEN + |name| + 1);
    && start + |data| <= |blob|
    && blob[off..off + 6] == MAGIC
    && HexIn(blob, off + 54, off + 62) == Some(|data|) && HexIn(blob, off + 94, off + 102) == Some(|name| + 1)
    && blob[off + HDR_LEN..off + HDR_LEN + |name|] == name
    && blob[start..start + |data|] == data
  }

  lemma StandingReads(blob: seq<Byte>, off: nat, name: seq<Byte>, data: seq<Byte>)
    requires off % 4 == 0 && EntryStands(blob, off, name, data)
    ensures var start := off + Align4(HDR_LEN + |name| + 1);
            EntryAt(blob, off) == Some(Parsed(Normalize(name), start, start + |data|))
  {
    assert EntryAt(blob, off) == Sized(blob, off, |data|, |name| + 1);
    StandingSized(blob, off, name, |data|);
  }

  lemma StandingSized(blob: seq<Byte>, off: nat, name: seq<Byte>, filesize: nat)
    requires off % 4 == 0 && off + Align4(HDR_LEN + |name| + 1) + filesize <= |blob|
    requires blob[off + HDR_LEN..off + HDR_LEN + |name|] == name
    ensures var start := off + Align4(HDR_LEN + |name| + 1);
            Sized(blob, off, filesize, |name| + 1) == Some(Parsed(Normalize(name), start, start + filesize))
  {
    AlignShifts(off, HDR_LEN + |name| + 1);
  }

  lemma HeadOf(p: seq<Byte>, h: seq<Byte>)
    requires |h| == HDR_LEN <= |p| && p[..HDR_LEN] == h
    ensures p[0..6] == h[..6] && p[54..62] == h[54..62] && p[94..102] == h[94..102]
  {}

  /** The bytes an entry takes. */
  function Size(f: File): (n: nat)
    ensures n % 4 == 0
  {
    Align4(HDR_LEN + |f.name| + 1) + Align4(|f.data|)
  }

  lemma FieldWithin(before: seq<Byte>, p: seq<Byte>, rest: seq<Byte>, at: nat, v: nat)
    requires at + 8 <= |p| && v < 0x1_0000_0000 && p[at..at + 8] == Field(v)
    ensures HexIn(before + p + rest, |before| + at, |before| + at + 8) == Some(v)
  {
    Shifted(before, p, rest, at, at + 8);
    FieldReads(before + p + rest, |before| + at, v);
  }

  /** A piece laid out as an entry stands wherever it is put. */
  lemma PieceStands(
    blob: seq<Byte>, before: seq<Byte>, p: seq<Byte>, rest: seq<Byte>, name: seq<Byte>, data: seq<Byte>)
    requires blob == before + p + rest && |name| + 1 < 0x1_0000_0000 && |data| < 0x1_0000_0000
    requires var start := Align4(HDR_LEN + |name| + 1);
             && start + |data| <= |p| && p[0..6] == MAGIC
             && p[54..62] == Field(|data|) && p[94..102] == Field(|name| + 1)
             && p[HDR_LEN..HDR_LEN + |name|] == name && p[start..start + |data|] == data
    ensures EntryStands(blob, |before|, name, data)
  {
    var start := Align4(HDR_LEN + |name| + 1);
    FieldWithin(before, p, rest, 54, |data|);
    FieldWithin(before, p, rest, 94, |name| + 1);
    Shifted(before, p, rest, 0, 6);
    Shifted(before, p, rest, HDR_LEN, HDR_LEN + |name|);
    Shifted(before, p, rest, start, start + |data|);
  }

  lemma PackStands(blob: seq<Byte>, before: seq<Byte>, f: File, rest: seq<Byte>)
    requires blob == before + Pack(f) + rest && Packable(f)
    ensures EntryStands(blob, |before|, f.name, f.data) && |Pack(f)| == Size(f)
  {
    PackedLayout(f);
    HeaderLayout(f);
    HeadOf(Pack(f), Header(f));
    PieceStands(blob, before, Pack(f), rest, f.name, f.data);
  }

  lemma AlignTwice(off: nat, a: nat, b: nat)
    requires off % 4 == 0
    ensures Align4(off + Align4(a) + b) == off + Align4(a) + Align4(b)
  {
    AlignShifts(off + Align4(a), b);
  }

  /** An entry with this name and data is read back from `off`, and the next one is at `next`. */
  ghost predicate EntryReads(blob: seq<Byte>, read: Reader, off: nat, name: seq<Byte>, data: seq<Byte>, next: nat)
    requires Bounded(read, |blob|)
  {
    var e := read(off);
    e.Some? && e.value.name == name && blob[e.value.start..e.value.end] == data && Align4(e.value.end) == next
  }

  /** An entry that stands at a multiple of four is read back from there. */
  lemma StandingEntryReads(blob: seq<Byte>, off: nat, name: seq<Byte>, data: seq<Byte>)
    requires off % 4 == 0 && EntryStands(blob, off, name, data)
    ensures EntryReads(blob, EntriesOf(blob), off, Normalize(name), data,
                       off + (Align4(HDR_LEN + |name| + 1) + Align4(|data|)))
  {
    StandingReads(blob, off, name, data);
    AlignTwice(off, HDR_LEN + |name| + 1, |data|);
  }

  /** An entry packed at a multiple of four reads back, whatever is around it. */
  lemma PackReads(blob: seq<Byte>, before: seq<Byte>, f: File, rest: seq<Byte>)
    requires blob == before + Pack(f) + rest && |before| % 4 == 0 && Packable(f)
    ensures EntryReads(blob, EntriesOf(blob), |before|, Normalize(f.name), f.data, |before| + Size(f))
    ensures |Pack(f)| == Size(f)
  {
    PackStands(blob, before, f, rest);
    StandingEntryReads(blob, |before|, f.name, f.data);
  }

  // ---------- An archive ----------

  const LAST := File(TRAILER, [], (Zeros(48), Zeros(32), Zeros(8)))

  /** The entries of `files` and the trailer read back from `offs`, each next to the last. */
  ghost predicate Laid(blob: seq<Byte>, read: Reader, offs: seq<nat>, files: seq<File>)
    requires Bounded(read, |blob|)
  {
    && |offs| == |files| + 1
    && (forall i :: 0 <= i < |files| ==>
          EntryReads(blob, read, offs[i], Normalize(files[i].name), files[i].data, offs[i + 1]))
    && read(offs[|files|]).Some? && read(offs[|files|]).value.name == TRAILER
  }

  /** What a search from `off` is to answer. */
  ghost predicate Answers(blob: seq<Byte>, read: Reader, off: nat, files: seq<File>, want: seq<Byte>)
    requires Bounded(read, |blob|)
  {
    var r := Find(read, |blob|, off, want);
    match FirstNamed(files, want)
    case None => r.None?
    case Some(data) => r.Some? && blob[r.value.0..r.value.1] == data
  }

  lemma {:induction false} LaidAnswers(
    blob: seq<Byte>, read: Reader, offs: seq<nat>, files: seq<File>, k: nat, want: seq<Byte>)
    requires Bounded(read, |blob|) && Laid(blob, read, offs, files) && k <= |files|
    ensures Answers(blob, read, offs[k], BeforeTrailer(files[k..]), want)
    decreases |files| - k
  {
    if k < |files| {
      LaidAnswers(blob, read, offs, files, k + 1, want);
      assert files[k..][1..] == files[k + 1..];
      assert EntryReads(blob, read, offs[k], Normalize(files[k].name), files[k].data, offs[k + 1]);
    }
  }

  /** The pieces of an archive put together, the trailer's last. */
  function Joined(pieces: seq<seq<Byte>>, last: seq<Byte>): seq<Byte> {
    if pieces == [] then last else pieces[0] + Joined(pieces[1..], last)
  }

  /** The first `k` pieces. */
  function Leading(pieces: seq<seq<Byte>>, k: nat): seq<Byte>
    requires k <= |pieces|
  {
    if k == 0 then [] else pieces[0] + Leading(pieces[1..], k - 1)
  }

  lemma {:induction false} JoinedSplits(pieces: seq<seq<Byte>>, last: seq<Byte>, k: nat)
    requires k <= |pieces|
    ensures Joined(pieces, last) == Leading(pieces, k) + Joined(pieces[k..], last)
    decreases k
  {
    if k > 0 {
      JoinedSplits(pieces[1..], last, k - 1);
      assert pieces[1..][k - 1..] == pieces[k..];
    }
  }

  /** Files packed one after the other, and the trailer. */
  function Archive(files: seq<File>): seq<Byte> {
    Joined(Packs(files), Pack(LAST))
  }

  function Packs(files: seq<File>): (pieces: seq<seq<Byte>>)
    ensures |pieces| == |files| && forall i :: 0 <= i < |files| ==> pieces[i] == Pack(files[i])
  {
    seq(|files|, i requires 0 <= i < |files| => Pack(files[i]))
  }

  /** Where the `k`th entry begins. */
  function OffsetOf(pieces: seq<seq<Byte>>, k: nat): nat
    requires k <= |pieces|
  {
    |Leading(pieces, k)|
  }

  lemma {:induction false} OffsetsAdd(pieces: seq<seq<Byte>>, k: nat)
    requires k < |pieces|
    ensures OffsetOf(pieces, k + 1) == OffsetOf(pieces, k) + |pieces[k]|
    decreases k
  {
    if k > 0 {
      OffsetsAdd(pieces[1..], k - 1);
    } else {
      assert Leading(pieces, 1) == pieces[0] + Leading(pieces[1..], 0);
    }
  }

  lemma {:induction false} OffsetsAligned(pieces: seq<seq<Byte>>, k: nat)
    requires k <= |pieces| && forall i :: 0 <= i < |pieces| ==> |pieces[i]| % 4 == 0
    ensures OffsetOf(pieces, k) % 4 == 0
    decreases k
  {
    if k > 0 {
      OffsetsAdd(pieces, k - 1);
      OffsetsAligned(pieces, k - 1);
      SumAligned(OffsetOf(pieces, k - 1), |pieces[k - 1]|);
    }
  }

  /** What PackReads says of a piece that is one file's. */
  lemma PieceReadsBack(blob: seq<Byte>, before: seq<Byte>, p: seq<Byte>, rest: seq<Byte>, f: File)
    requires p == Pack(f) && blob == before + p + rest && |before| % 4 == 0 && Packable(f)
    ensures EntryReads(blob, EntriesOf(blob), |before|, Normalize(f.name), f.data, |before| + |p|)
  {
    PackReads(blob, before, f, rest);
  }

  /** A piece of an archive, and what is around it. */
  lemma PieceIn(pieces: seq<seq<Byte>>, last: seq<Byte>, k: nat)
    requires k <= |pieces|
    ensures var p := if k < |pieces| then pieces[k] else last;
            exists rest :: Joined(pieces, last) == Leading(pieces, k) + p + rest
  {
    JoinedSplits(pieces, last, k);
    if k < |pieces| {
      var rest := Joined(pieces[k..][1..], last);
      assert Joined(pieces, last) == Leading(pieces, k) + pieces[k] + rest;
    } else {
      assert Joined(pieces, last) == Leading(pieces, k) + last + [];
    }
  }

  lemma PackAligned(f: File)
    requires Packable(f)
    ensures |Pack(f)| % 4 == 0
  {
    PackedLayout(f);
    SumAligned(Align4(HDR_LEN + |f.name| + 1), Align4(|f.data|));
  }

  lemma SumAligned(a: nat, b: nat)
    requires a % 4 == 0 && b % 4 == 0
    ensures (a + b) % 4 == 0
  {}

  /** Each file's entry reads back from its place in the archive. */
  lemma ArchiveReads(blob: seq<Byte>, pieces: seq<seq<Byte>>, last: seq<Byte>, k: nat, f: File)
    requires blob == Joined(pieces, last) && k <= |pieces| && Packable(f)
    requires (if k < |pieces| then pieces[k] else last) == Pack(f)
    requires forall i :: 0 <= i < |pieces| ==> |pieces[i]| % 4 == 0
    ensures EntryReads(blob, EntriesOf(blob), OffsetOf(pieces, k), Normalize(f.name), f.data,
                       OffsetOf(pieces, k) + |Pack(f)|)
  {
    OffsetsAligned(pieces, k);
    PieceIn(pieces, last, k);
    var p := if k < |pieces| then pieces[k] else last;
    var rest :| blob == Leading(pieces, k) + p + rest;
    PieceReadsBack(blob, Leading(pieces, k), p, rest, f);
  }

  function Offsets(pieces: seq<seq<Byte>>): (offs: seq<nat>)
    ensures |offs| == |pieces| + 1 && offs[0] == 0 && forall k :: 0 <= k <= |pieces| ==> offs[k] == OffsetOf(pieces, k)
  {
    seq(|pieces| + 1, k requires 0 <= k <= |pieces| => OffsetOf(pieces, k))
  }

  /** Piece `k` reads back as the entry of `f`. */
  ghost predicate PieceIs(blob: seq<Byte>, read: Reader, pieces: seq<seq<Byte>>, k: nat, f: File)
    requires Bounded(read, |blob|) && k < |pieces|
  {
    EntryReads(blob, read, OffsetOf(pieces, k), Normalize(f.name), f.data, OffsetOf(pieces, k) + |pieces[k]|)
  }

  lemma PiecesAreLaid(blob: seq<Byte>, read: Reader, pieces: seq<seq<Byte>>, files: seq<File>)
    requires Bounded(read, |blob|) && |pieces| == |files|
    requires forall i :: 0 <= i < |files| ==> PieceIs(blob, read, pieces, i, files[i])
    requires read(OffsetOf(pieces, |files|)).Some? && read(OffsetOf(pieces, |files|)).value.name == TRAILER
    ensures Laid(blob, read, Offsets(pieces), files)
  {
    var offs := Offsets(pieces);
    forall i | 0 <= i < |files|
      ensures EntryReads(blob, read, offs[i], Normalize(files[i].name), files[i].data, offs[i + 1])
    {
      OffsetsAdd(pieces, i);
      assert PieceIs(blob, read, pieces, i, files[i]);
    }
  }

  lemma PieceIsPacked(blob: seq<Byte>, pieces: seq<seq<Byte>>, last: seq<Byte>, k: nat, f: File)
    requires blob == Joined(pieces, last) && k < |pieces| && Packable(f) && pieces[k] == Pack(f)
    requires forall i :: 0 <= i < |pieces| ==> |pieces[i]| % 4 == 0
    ensures PieceIs(blob, EntriesOf(blob), pieces, k, f)
  {
    ArchiveReads(blob, pieces, last, k, f);
  }

  lemma TrailerReads(blob: seq<Byte>, pieces: seq<seq<Byte>>)
    requires blob == Joined(pieces, Pack(LAST))
    requires forall i :: 0 <= i < |pieces| ==> |pieces[i]| % 4 == 0
    ensures var e := EntriesOf(blob)(OffsetOf(pieces, |pieces|)); e.Some? && e.value.name == TRAILER
  {
    ArchiveReads(blob, pieces, Pack(LAST), |pieces|, LAST);
    assert Normalize(TRAILER) == TRAILER;
  }

  lemma ArchiveIsLaid(files: seq<File>)
    requires forall i :: 0 <= i < |files| ==> Packable(files[i])
    ensures var blob := Archive(files); Laid(blob, EntriesOf(blob), Offsets(Packs(files)), files)
  {
    var (pieces, blob) := (Packs(files), Archive(files));
    forall i | 0 <= i < |files|
      ensures |pieces[i]| % 4 == 0
    {
      PackAligned(files[i]);
    }
    forall i | 0 <= i < |files|
      ensures PieceIs(blob, EntriesOf(blob), pieces, i, files[i])
    {
      PieceIsPacked(blob, pieces, Pack(LAST), i, files[i]);
    }
    TrailerReads(blob, pieces);
    PiecesAreLaid(blob, EntriesOf(blob), pieces, files);
  }

  /**
   For any files packed in newc form, a lookup finds the bytes of the first whose name matches and nothing when none
   does. A file named as the trailer ends the search like the trailer itself.
   */
  lemma LookupFindsFirst(files: seq<File>, name: seq<Byte>)
    requires forall i :: 0 <= i < |files| ==> Packable(files[i])
    ensures var blob := Archive(files); Answers(blob, EntriesOf(blob), 0, BeforeTrailer(files), Normalize(name))
  {
    var blob := Archive(files);
    ArchiveIsLaid(files);
    LaidAnswers(blob, EntriesOf(blob), Offsets(Packs(files)), files, 0, Normalize(name));
    assert files[0..] == files;
  }

  // ---------- Directories ----------

  /** The type bits of the mode, the second field of the header, are a directory's. */
  ghost predicate IsDirectory(f: File) {
    Packable(f) && var mode := HexIn(f.meta.0, 8, 16); mode.Some? && mode.value / 0x1000 == 4
  }

  lemma {:induction false} FirstIsFound(files: seq<File>, k: nat)
    requires k < |files| && forall i :: 0 <= i <= k ==> Normalize(files[i].name) != TRAILER
    requires forall i :: 0 <= i < k ==> Normalize(files[i].name) != Normalize(files[k].name)
    ensures FirstNamed(BeforeTrailer(files), Normalize(files[k].name)) == Some(files[k].data)
    decreases k
  {
    assert BeforeTrailer(files) == [files[0]] + BeforeTrailer(files[1..]);
    assert BeforeTrailer(files)[1..] == BeforeTrailer(files[1..]);
    if k > 0 {
      FirstIsFound(files[1..], k - 1);
    }
  }

  /** A directory is found like a file, as empty: nothing looks at the mode. */
  lemma DirectoryIsFound(files: seq<File>, k: nat, name: seq<Byte>)
    requires forall i :: 0 <= i < |files| ==> Packable(files[i])
    requires k < |files| && IsDirectory(files[k]) && files[k].data == []
    requires Normalize(files[k].name) == Normalize(name)
    requires forall i :: 0 <= i <= k ==> Normalize(files[i].name) != TRAILER
    requires forall i :: 0 <= i < k ==> Normalize(files[i].name) != Normalize(name)
    ensures var blob := Archive(files);
            var r := Find(EntriesOf(blob), |blob|, 0, Normalize(name));
            r.Some? && r.value.0 == r.value.1
  {
    LookupFindsFirst(files, name);
    FirstIsFound(files, k);
  }
}
