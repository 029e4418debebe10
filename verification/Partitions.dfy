/**
 A disk's partition table (`kernel/src/drivers/partitions.rs`): GPT, MBR or none, from any bytes. The
 disk is a function from a range of blocks to its bytes, or to a failed read.
 */
module Partitions {
  import opened Common

  const U64_END := 0x1_0000_0000_0000_0000
  const BLOCK := 512
  const GPT_ENTRY_BLOCKS_MAX := 32

  // ---------- Bytes and numbers ----------

  function CheckedAdd(a: nat, b: nat): Option<nat> {
    if a + b < U64_END then Some(a + b) else None
  }

  function ByteAt(b: seq<Byte>, at: nat): (v: nat)
    requires at < |b|
    ensures v < 256
  {
    b[at]
  }

  function U32At(b: seq<Byte>, at: nat): (v: nat)
    requires at + 4 <= |b|
    ensures v < 0x1_0000_0000
  {
    ByteAt(b, at) + 0x100 * ByteAt(b, at + 1) + 0x1_0000 * ByteAt(b, at + 2) + 0x100_0000 * ByteAt(b, at + 3)
  }

  function U64At(b: seq<Byte>, at: nat): (v: nat)
    requires at + 8 <= |b|
    ensures v < U64_END
  {
    U32At(b, at) + 0x1_0000_0000 * U32At(b, at + 4)
  }

  // ---------- A table ----------

  datatype Kind = Gpt(guid: seq<Byte>, name: seq<Byte>) | Mbr(code: Byte)

  datatype Part = Part(first: nat, count: nat, number: nat, kind: Kind)

  datatype Scheme = GptDisk(guid: seq<Byte>) | MbrDisk | NoTable

  datatype Table = Table(scheme: Scheme, parts: seq<Part>, extended: nat)

  datatype Unread = Io | Unsupported

  datatype Result = Read(table: Table) | Failed(why: Unread)

  /** `fits`: the range lies on a disk of `blocks` blocks. */
  predicate Fits(first: nat, count: nat, blocks: nat) {
    CheckedAdd(first, count).Some? && first + count <= blocks
  }

  /** Every partition has blocks, and all of them are on the disk. */
  ghost predicate OnDisk(parts: seq<Part>, blocks: nat) {
    forall i :: 0 <= i < |parts| ==> 0 < parts[i].count && parts[i].first + parts[i].count <= blocks
  }

  // ---------- GPT ----------

  predicate AllZero(b: seq<Byte>) {
    forall i :: 0 <= i < |b| ==> b[i] == 0
  }

  /** An entry in use that fits the disk, without its number. */
  function GptEntry(e: seq<Byte>, blocks: nat): Option<(nat, nat)>
    requires |e| >= 128
  {
    var (first, last) := (U64At(e, 32), U64At(e, 40));
    if AllZero(e[..16]) || last < first || CheckedAdd(last - first, 1).None? then None
    else if !Fits(first, last - first + 1, blocks) then None
    else Some((first, last - first + 1))
  }

  /** One more entry's partition, numbered after those before it. */
  function Appended(before: seq<Part>, e: seq<Byte>, blocks: nat): seq<Part>
    requires |e| >= 128
  {
    var r := GptEntry(e, blocks);
    if r.None? then before
    else before + [Part(r.value.0, r.value.1, |before| + 1, Gpt(e[16..32], e[56..128]))]
  }

  /** The first `n` entries of an array of them. */
  function Chunks(bytes: seq<Byte>, size: nat, n: nat): (es: seq<seq<Byte>>)
    requires size >= 128 && n * size <= |bytes|
    ensures |es| == n && forall k :: 0 <= k < n ==> |es[k]| == size && Chunk(bytes, size, k, es[k])
    decreases n
  {
    if n == 0 then []
    else
      Below(n - 1, n, size);
      Chunks(bytes, size, n - 1) + [bytes[(n - 1) * size..n * size]]
  }

  predicate Chunk(bytes: seq<Byte>, size: nat, k: nat, e: seq<Byte>) {
    k * size <= (k + 1) * size <= |bytes| && e == bytes[k * size..(k + 1) * size]
  }

  /** The partitions of these entries, numbered from 1 in the order they are in use. */
  function GptParts(es: seq<seq<Byte>>, blocks: nat): (parts: seq<Part>)
    requires forall k :: 0 <= k < |es| ==> |es[k]| >= 128
    ensures |parts| <= |es| && OnDisk(parts, blocks)
    ensures forall i :: 0 <= i < |parts| ==> parts[i].number == i + 1
  {
    if es == [] then [] else Appended(GptParts(es[..|es| - 1], blocks), es[|es| - 1], blocks)
  }

  /** Where the partition of entry `k`, if it has one, is listed: after those of the entries before it. */
  function ListedAt(es: seq<seq<Byte>>, blocks: nat, k: nat): nat
    requires k <= |es| && forall j :: 0 <= j < |es| ==> |es[j]| >= 128
  {
    |GptParts(es[..k], blocks)|
  }

  /** The partition an entry in use that fits the disk describes, under that number. */
  function PartOf(e: seq<Byte>, blocks: nat, number: nat): Part
    requires |e| >= 128 && GptEntry(e, blocks).Some?
  {
    var (first, count) := GptEntry(e, blocks).value;
    Part(first, count, number, Gpt(e[16..32], e[56..128]))
  }

  /** Every entry in use that fits the disk is listed whole, where its turn is. */
  lemma {:induction false} EntryIsListed(es: seq<seq<Byte>>, blocks: nat, k: nat)
    requires forall j :: 0 <= j < |es| ==> |es[j]| >= 128
    requires k < |es| && GptEntry(es[k], blocks).Some?
    ensures var (parts, at) := (GptParts(es, blocks), ListedAt(es, blocks, k));
            at < |parts| && parts[at] == PartOf(es[k], blocks, at + 1)
    decreases |es|
  {
    if k < |es| - 1 {
      assert es[..|es| - 1][..k] == es[..k];
      EntryIsListed(es[..|es| - 1], blocks, k);
    }
  }

  /** And nothing else is. */
  lemma {:induction false} ListedIsEntry(es: seq<seq<Byte>>, blocks: nat, i: nat)
    returns (k: nat)
    requires forall j :: 0 <= j < |es| ==> |es[j]| >= 128
    requires i < |GptParts(es, blocks)|
    ensures k < |es| && GptEntry(es[k], blocks).Some? && ListedAt(es, blocks, k) == i
    ensures GptParts(es, blocks)[i] == PartOf(es[k], blocks, i + 1)
    decreases |es|
  {
    if i < |GptParts(es[..|es| - 1], blocks)| {
      k := ListedIsEntry(es[..|es| - 1], blocks, i);
      assert es[..|es| - 1][..k] == es[..k];
    } else {
      k := |es| - 1;
    }
  }

  /** The table's order is kept: an entry's partition comes before those of the entries after it. */
  lemma {:induction false} OrderIsKept(es: seq<seq<Byte>>, blocks: nat, k: nat, l: nat)
    requires forall j :: 0 <= j < |es| ==> |es[j]| >= 128
    requires k < l < |es| && GptEntry(es[k], blocks).Some?
    ensures ListedAt(es, blocks, k) < ListedAt(es, blocks, l)
    decreases l
  {
    assert es[..l][..l - 1] == es[..l - 1];
    if k < l - 1 {
      OrderIsKept(es, blocks, k, l - 1);
    }
  }

  lemma Below(m: nat, n: nat, size: nat)
    requires m <= n
    ensures m * size <= n * size && n * size - m * size == (n - m) * size
  {}

  /** How a GPT's entries are read: where, how many, how large. */
  function EntryBlocks(entries: nat, size: nat): nat
    requires 0 < size <= BLOCK
  {
    var perBlock := BLOCK / size;
    var needed := (entries + perBlock - 1) / perBlock;
    if needed < GPT_ENTRY_BLOCKS_MAX then needed else GPT_ENTRY_BLOCKS_MAX
  }

  predicate EntrySizeOk(size: nat) {
    128 <= size <= BLOCK && BLOCK % size == 0
  }

  /** A disk: `count` blocks from `lba` on, if they can be read. */
  type Disk = (nat, nat) -> Option<seq<Byte>>

  ghost predicate ReadsWhole(disk: Disk) {
    forall lba: nat, count: nat :: disk(lba, count).Some? ==> |disk(lba, count).value| == count * BLOCK
  }

  /** What a header that says this of its entries gives: a table, or which error. */
  ghost predicate IsGptResult(scheme: Scheme, lba: nat, entries: nat, size: nat, blocks: nat, disk: Disk, r: Result) {
    match r
    case Read(table) =>
      && table.scheme == scheme && table.extended == 0
      && EntrySizeOk(size) && IsGpt(lba, entries, size, blocks, disk, table.parts)
    case Failed(Unsupported) =>
      EntrySizeOk(size) ==> 0 < EntryBlocks(entries, size) && !Fits(lba, EntryBlocks(entries, size), blocks)
    case Failed(Io) =>
      && EntrySizeOk(size) && Fits(lba, EntryBlocks(entries, size), blocks)
      && 0 < EntryBlocks(entries, size) && disk(lba, EntryBlocks(entries, size)).None?
  }

  /** `gpt`: the entries where the header says, those that fit. */
  method ReadGpt(hdr: seq<Byte>, blocks: nat, disk: Disk) returns (r: Result)
    requires |hdr| == BLOCK && ReadsWhole(disk)
    ensures r.Read? ==> OnDisk(r.table.parts, blocks)
    ensures IsGptResult(GptDisk(hdr[56..72]), U64At(hdr, 72), U32At(hdr, 80), U32At(hdr, 84), blocks, disk, r)
  {
    r := ReadEntries(GptDisk(hdr[56..72]), U64At(hdr, 72), U32At(hdr, 80), U32At(hdr, 84), blocks, disk);
  }

  /** The entries of a GPT, given what its header says of them. */
  method ReadEntries(scheme: Scheme, lba: nat, entries: nat, size: nat, blocks: nat, disk: Disk) returns (r: Result)
    requires ReadsWhole(disk)
    ensures r.Read? ==> OnDisk(r.table.parts, blocks)
    ensures IsGptResult(scheme, lba, entries, size, blocks, disk, r)
  {
    if !(128 <= size <= BLOCK) || BLOCK % size != 0 {
      return Failed(Unsupported);
    }
    var perBlock := BLOCK / size;
    var arrayBlocks := EntryBlocks(entries, size);
    var bytes: seq<Byte> := [];
    if arrayBlocks > 0 {
      if !Fits(lba, arrayBlocks, blocks) {
        return Failed(Unsupported);
      }
      var got := disk(lba, arrayBlocks);
      if got.None? {
        return Failed(Io);
      }
      bytes := got.value;
    }
    var inArray := InArray(arrayBlocks, perBlock, entries);
    InArrayFits(arrayBlocks, size, entries);
    var parts := CollectGpt(Chunks(bytes, size, inArray), blocks);
    r := Read(Table(scheme, parts, 0));
  }

  /** How many of the entries are in the blocks read. */
  function InArray(arrayBlocks: nat, perBlock: nat, entries: nat): nat {
    if arrayBlocks * perBlock < entries then arrayBlocks * perBlock else entries
  }

  /** The parts are those of the entries the header describes, as far as they are read. */
  ghost predicate IsGpt(lba: nat, entries: nat, size: nat, blocks: nat, disk: Disk, parts: seq<Part>)
    requires EntrySizeOk(size)
  {
    var arrayBlocks := EntryBlocks(entries, size);
    var inArray := InArray(arrayBlocks, BLOCK / size, entries);
    if arrayBlocks == 0 then parts == []
    else
      var got := disk(lba, arrayBlocks);
      && Fits(lba, arrayBlocks, blocks) && got.Some? && inArray * size <= |got.value|
      && parts == GptParts(Chunks(got.value, size, inArray), blocks)
  }

  lemma InArrayFits(arrayBlocks: nat, size: nat, entries: nat)
    requires EntrySizeOk(size)
    ensures InArray(arrayBlocks, BLOCK / size, entries) * size <= arrayBlocks * BLOCK
    ensures arrayBlocks == 0 ==> InArray(arrayBlocks, BLOCK / size, entries) == 0
  {
    var perBlock := BLOCK / size;
    assert perBlock * size == BLOCK;
    Within(arrayBlocks, perBlock, size, InArray(arrayBlocks, perBlock, entries));
  }

  lemma Within(arrayBlocks: nat, perBlock: nat, size: nat, inArray: nat)
    requires inArray <= arrayBlocks * perBlock
    ensures inArray * size <= arrayBlocks * (perBlock * size)
  {
    Below(inArray, arrayBlocks * perBlock, size);
    assert arrayBlocks * perBlock * size == arrayBlocks * (perBlock * size);
  }

  /** The loop over the entries. */
  method CollectGpt(es: seq<seq<Byte>>, blocks: nat) returns (parts: seq<Part>)
    requires forall k :: 0 <= k < |es| ==> |es[k]| >= 128
    ensures parts == GptParts(es, blocks)
  {
    parts := [];
    for k := 0 to |es|
      invariant parts == GptParts(es[..k], blocks)
    {
      parts := Appended(parts, es[k], blocks);
      assert es[..k + 1][..k] == es[..k];
    }
    assert es[..|es|] == es;
  }

  // ---------- MBR ----------

  predicate HasText(b: seq<Byte>, at: nat, text: seq<Byte>) {
    at + |text| <= |b| && b[at..at + |text|] == text
  }

  const NTFS: seq<Byte> := [78, 84, 70, 83, 32, 32, 32, 32]
  const EXFAT: seq<Byte> := [69, 88, 70, 65, 84, 32, 32, 32]
  const FAT: seq<Byte> := [70, 65, 84]
  const FAT32: seq<Byte> := [70, 65, 84, 51, 50]

  /** A filesystem's own boot sector, which is signed like an MBR. */
  predicate IsVolumeBootSector(b: seq<Byte>)
    requires |b| >= BLOCK
  {
    && (b[0] == 0xEB || b[0] == 0xE9)
    && (HasText(b, 3, NTFS) || HasText(b, 3, EXFAT)
        || (ByteAt(b, 11) + 0x100 * ByteAt(b, 12) in {512, 1024, 2048, 4096}
            && ((b[0x26] == 0x29 && HasText(b, 0x36, FAT)) || (b[0x42] == 0x29 && HasText(b, 0x52, FAT32)))))
  }

  function SlotAt(slot: nat): nat {
    0x1BE + 16 * slot
  }

  predicate IsMbr(b: seq<Byte>) {
    && |b| >= BLOCK && b[510] == 0x55 && b[511] == 0xAA && !IsVolumeBootSector(b)
    && forall slot :: 0 <= slot < 4 ==> b[SlotAt(slot)] in {0x00, 0x80}
  }

  predicate IsExtended(code: nat) {
    code == 0x05 || code == 0x0F || code == 0x85
  }

  /** What slot `slot` holds: nothing, an extended partition, or a range. */
  function MbrPart(b: seq<Byte>, slot: nat, blocks: nat): Option<Part>
    requires |b| >= BLOCK && slot < 4
  {
    var (code, first, count) := (b[SlotAt(slot) + 4], U32At(b, SlotAt(slot) + 8), U32At(b, SlotAt(slot) + 12));
    if code == 0 || code == 0xEE || IsExtended(code) then None
    else if first == 0 || count == 0 || !Fits(first, count, blocks) then None
    else Some(Part(first, count, slot + 1, Mbr(code)))
  }

  function MbrParts(b: seq<Byte>, n: nat, blocks: nat): (parts: seq<Part>)
    requires |b| >= BLOCK && n <= 4
    ensures OnDisk(parts, blocks)
    ensures forall i :: 0 <= i < |parts| ==> 1 <= parts[i].number <= n
    ensures forall i, j :: 0 <= i < j < |parts| ==> parts[i].number < parts[j].number
  {
    if n == 0 then []
    else
      var p := MbrPart(b, n - 1, blocks);
      MbrParts(b, n - 1, blocks) + if p.Some? then [p.value] else []
  }

  function Extended(b: seq<Byte>, n: nat): nat
    requires |b| >= BLOCK && n <= 4
  {
    if n == 0 then 0 else Extended(b, n - 1) + if IsExtended(b[SlotAt(n - 1) + 4]) then 1 else 0
  }

  /** Every slot that holds a partition is listed under its number. */
  lemma {:induction false} SlotIsListed(b: seq<Byte>, n: nat, blocks: nat, slot: nat)
    requires |b| >= BLOCK && slot < n <= 4 && MbrPart(b, slot, blocks).Some?
    ensures MbrPart(b, slot, blocks).value in MbrParts(b, n, blocks)
  {
    if slot < n - 1 {
      SlotIsListed(b, n - 1, blocks, slot);
    }
  }

  /** And nothing else is. */
  lemma {:induction false} ListedIsSlot(b: seq<Byte>, n: nat, blocks: nat, i: nat)
    requires |b| >= BLOCK && n <= 4 && i < |MbrParts(b, n, blocks)|
    ensures var p := MbrParts(b, n, blocks)[i]; 1 <= p.number <= n && MbrPart(b, p.number - 1, blocks) == Some(p)
  {
    var (before, last) := (MbrParts(b, n - 1, blocks), MbrPart(b, n - 1, blocks));
    if i < |before| {
      ListedIsSlot(b, n - 1, blocks, i);
      assert MbrParts(b, n, blocks)[i] == before[i];
    } else {
      assert MbrParts(b, n, blocks)[i] == last.value && last.value.number == n;
    }
  }

  function MbrTable(b: seq<Byte>, blocks: nat): Table
    requires |b| >= BLOCK
  {
    if IsMbr(b) then Table(MbrDisk, MbrParts(b, 4, blocks), Extended(b, 4)) else Table(NoTable, [], 0)
  }

  /** `mbr_table`: the primary entries that fit, each under its slot's number. */
  method ReadMbr(b: seq<Byte>, blocks: nat) returns (r: Result)
    requires |b| >= BLOCK
    ensures r == Read(MbrTable(b, blocks)) && OnDisk(r.table.parts, blocks)
  {
    if !IsMbr(b) {
      return Read(Table(NoTable, [], 0));
    }
    var parts, extended := CollectMbr(b, 4, blocks);
    r := Read(Table(MbrDisk, parts, extended));
  }

  /** The loop over the first `n` slots. */
  method CollectMbr(b: seq<Byte>, n: nat, blocks: nat) returns (parts: seq<Part>, extended: nat)
    requires |b| >= BLOCK && n <= 4
    ensures parts == MbrParts(b, n, blocks) && extended == Extended(b, n)
  {
    parts, extended := [], 0;
    for slot := 0 to n
      invariant parts == MbrParts(b, slot, blocks) && extended == Extended(b, slot)
    {
      var code := b[SlotAt(slot) + 4];
      if code != 0 && code != 0xEE {
        if IsExtended(code) {
          extended := extended + 1;
        } else {
          var first, count := U32At(b, SlotAt(slot) + 8), U32At(b, SlotAt(slot) + 12);
          if first != 0 && count != 0 && Fits(first, count, blocks) {
            parts := parts + [Part(first, count, slot + 1, Mbr(code))];
          }
        }
      }
    }
  }

  /** `EFI PART` */
  const GPT_SIG: seq<Byte> := [69, 70, 73, 32, 80, 65, 82, 84]

  /** What the first two blocks give: a GPT if the second has its signature, else an MBR in the first or no table. */
  ghost predicate IsTableOf(first: seq<Byte>, blocks: nat, disk: Disk, r: Result)
    requires |first| == 2 * BLOCK
  {
    var (mbr, header) := (first[..BLOCK], first[BLOCK..]);
    if header[..8] == GPT_SIG
    then IsGptResult(GptDisk(header[56..72]), U64At(header, 72), U32At(header, 80), U32At(header, 84), blocks, disk, r)
    else r == Read(MbrTable(mbr, blocks))
  }

  /** `read`: whatever the bytes are, every partition the table gives is wholly on the disk. */
  method ReadTable(blocks: nat, disk: Disk) returns (r: Result)
    requires ReadsWhole(disk)
    ensures r.Read? ==> OnDisk(r.table.parts, blocks)
    ensures disk(0, 2).None? ==> r == Failed(Io)
    ensures disk(0, 2).Some? ==> IsTableOf(disk(0, 2).value, blocks, disk, r)
  {
    var first := disk(0, 2);
    if first.None? {
      return Failed(Io);
    }
    var mbr, header := first.value[..BLOCK], first.value[BLOCK..];
    if header[..8] == GPT_SIG {
      r := ReadGpt(header, blocks, disk);
    } else {
      r := ReadMbr(mbr, blocks);
    }
  }
}
