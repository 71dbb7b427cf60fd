/**
 The master boot record (section 5.2.1 of the UEFI Specification): four little-endian partition
 records at byte 446 and a two-byte signature at the end of the first sector.
 */
module PartitionTable {
  type Byte = b: int | 0 <= b < 256
  type Word = w: int | 0 <= w < 0x1_0000_0000

  const SECTOR := 512
  const TABLE := 446
  const RECORD := 16

  // ----------------------------------------------------------- 32-bit numbers

  /** Four bytes, lowest first. */
  function Decode(b0: Byte, b1: Byte, b2: Byte, b3: Byte): Word
  {
    var n: int := b0;
    n + b1 * 0x100 + b2 * 0x1_0000 + b3 * 0x100_0000
  }

  function Encode(w: Word): (e: seq<Byte>)
    ensures |e| == 4
  {
    var n: int := w;
    [n % 0x100, n / 0x100 % 0x100, n / 0x1_0000 % 0x100, n / 0x100_0000]
  }

  lemma DecodeEncode(w: Word)
    ensures var e := Encode(w); Decode(e[0], e[1], e[2], e[3]) == w
  {
    var n: int := w;
    Shifts(n);
    Parts(n);
    Parts(n / 0x100);
    Parts(n / 0x100 / 0x100);
  }

  lemma Parts(n: nat)
    ensures n == n % 0x100 + 0x100 * (n / 0x100)
  {
  }

  lemma EncodeDecode(b0: Byte, b1: Byte, b2: Byte, b3: Byte)
    ensures Encode(Decode(b0, b1, b2, b3)) == [b0, b1, b2, b3]
  {
    var n := Decode(b0, b1, b2, b3);
    var h2 := b2 + 0x100 * b3;
    var h1 := b1 + 0x100 * h2;
    LowByte(b0, h1);
    LowByte(b1, h2);
    LowByte(b2, b3);
    Shifts(n);
  }

  lemma LowByte(b: Byte, high: nat)
    ensures (b + 0x100 * high) % 0x100 == b && (b + 0x100 * high) / 0x100 == high
  {
  }

  lemma Shifts(n: nat)
    ensures n / 0x1_0000 == n / 0x100 / 0x100 && n / 0x100_0000 == n / 0x100 / 0x100 / 0x100
  {
  }

  // -------------------------------------------------------------- the parser

  datatype Partition = Partition(index: nat, offset: nat, length: nat, kind: string)

  const DIGITS := "0123456789abcdef"

  function TypeName(kind: Byte): string
  {
    "mbr-0x" + [DIGITS[kind / 16], DIGITS[kind % 16]]
  }

  predicate Signed(image: seq<Byte>)
  {
    |image| >= SECTOR && image[510] == 0x55 && image[511] == 0xaa
  }

  /** One of the four records, as far as the parser reads it. */
  datatype Entry = Entry(kind: Byte, first: Word, count: Word) {
    predicate Used() { kind != 0 && count != 0 }
  }

  function EntryAt(image: seq<Byte>, i: nat): Entry
    requires |image| >= SECTOR && i < 4
  {
    var e := image[TABLE + RECORD * i..TABLE + RECORD * i + RECORD];
    Entry(e[4], Decode(e[8], e[9], e[10], e[11]), Decode(e[12], e[13], e[14], e[15]))
  }

  function PartitionOf(i: nat, e: Entry): Partition
  {
    Partition(i, e.first * SECTOR, e.count * SECTOR, TypeName(e.kind))
  }

  /** The used entries in slot order, each with its slot number. */
  function UsedPartitions(entries: seq<Entry>): seq<Partition>
  {
    if entries == [] then []
    else
      var n := |entries| - 1;
      UsedPartitions(entries[..n]) + (if entries[n].Used() then [PartitionOf(n, entries[n])] else [])
  }

  function Entries(image: seq<Byte>): seq<Entry>
    requires |image| >= SECTOR
  {
    [EntryAt(image, 0), EntryAt(image, 1), EntryAt(image, 2), EntryAt(image, 3)]
  }

  method ParseMbr(image: seq<Byte>) returns (sector: nat, parts: seq<Partition>)
    ensures sector == SECTOR
    ensures parts == if Signed(image) then UsedPartitions(Entries(image)) else []
  {
    sector, parts := SECTOR, [];
    if !Signed(image) {
      return;
    }
    ghost var entries := Entries(image);
    for i := 0 to 4
      invariant parts == UsedPartitions(entries[..i])
    {
      hide EntryAt;
      var e := EntryAt(image, i);
      assert entries[..i + 1][..i] == entries[..i] && entries[i] == e;
      if e.kind != 0 && e.count != 0 {
        parts := parts + [Partition(i, e.first * SECTOR, e.count * SECTOR, TypeName(e.kind))];
      }
    }
    assert entries[..4] == entries;
  }

  // -------------------------------------------------------------- the writer

  /** A record with the fields the parser skips: boot indicator and first sector in CHS form, and last
      sector in CHS form. */
  datatype Slot = Slot(start: seq<Byte>, end: seq<Byte>, entry: Entry)

  ghost predicate WellSized(s: Slot) { |s.start| == 4 && |s.end| == 3 }

  function Raw(s: Slot): seq<Byte>
  {
    s.start + [s.entry.kind] + s.end + Encode(s.entry.first) + Encode(s.entry.count)
  }

  /** A disk: boot code, four records, the signature, and everything after the first sector. */
  datatype Disk = Disk(boot: seq<Byte>, slots: seq<Slot>, rest: seq<Byte>) {
    ghost predicate Valid() { |boot| == TABLE && |slots| == 4 && forall i :: 0 <= i < 4 ==> WellSized(slots[i]) }
  }

  function Write(d: Disk): seq<Byte>
    requires |d.slots| == 4
  {
    d.boot + Raw(d.slots[0]) + Raw(d.slots[1]) + Raw(d.slots[2]) + Raw(d.slots[3]) + [0x55, 0xaa] + d.rest
  }

  lemma RecordAt(d: Disk, i: nat)
    requires d.Valid() && i < 4
    ensures Signed(Write(d)) && Write(d)[TABLE + RECORD * i..TABLE + RECORD * i + RECORD] == Raw(d.slots[i])
  {
    hide Encode;
    assert WellSized(d.slots[0]) && WellSized(d.slots[1]) && WellSized(d.slots[2]) && WellSized(d.slots[3]);
    forall j | 0 <= j < 4 ensures |Raw(d.slots[j])| == RECORD {
    }
    hide Raw;
    var r0, r1, r2, r3 := Raw(d.slots[0]), Raw(d.slots[1]), Raw(d.slots[2]), Raw(d.slots[3]);
    var image := Write(d);
    assert image[TABLE..TABLE + 16] == r0;
    assert image[TABLE + 16..TABLE + 32] == r1;
    assert image[TABLE + 32..TABLE + 48] == r2;
    assert image[TABLE + 48..TABLE + 64] == r3;
  }

  lemma EntryAtWritten(d: Disk, i: nat)
    requires d.Valid() && i < 4
    ensures |Write(d)| >= SECTOR && EntryAt(Write(d), i) == d.slots[i].entry
  {
    RecordAt(d, i);
    assert WellSized(d.slots[i]);
    var s := d.slots[i];
    DecodeEncode(s.entry.first);
    DecodeEncode(s.entry.count);
    var raw := Raw(s);
    var first, count := Encode(s.entry.first), Encode(s.entry.count);
    hide Encode, Decode, Write;
    assert raw[4] == s.entry.kind && raw[8..12] == first && raw[12..16] == count;
    assert forall k :: 0 <= k < 4 ==> raw[8 + k] == raw[8..12][k] && raw[12 + k] == raw[12..16][k];
  }

  /** What the slots of a disk say. */
  function EntriesOf(d: Disk): seq<Entry>
  {
    seq(|d.slots|, i requires 0 <= i < |d.slots| => d.slots[i].entry)
  }

  /** Parsing what was written gives back the used records, whatever the other bytes are. */
  lemma ParsesWhatWasWritten(d: Disk)
    requires d.Valid()
    ensures Signed(Write(d)) && Entries(Write(d)) == EntriesOf(d)
  {
    hide *;
    SignedAndLong(d);
    EntryAtWritten(d, 0);
    EntryAtWritten(d, 1);
    EntryAtWritten(d, 2);
    EntryAtWritten(d, 3);
    EntriesAre(Write(d), d);
  }

  lemma SignedAndLong(d: Disk)
    requires d.Valid()
    ensures |d.slots| == 4 && Signed(Write(d)) && |Write(d)| >= SECTOR
  {
    RecordAt(d, 0);
  }

  lemma EntriesAre(image: seq<Byte>, d: Disk)
    requires |image| >= SECTOR && |d.slots| == 4
    requires forall i :: 0 <= i < 4 ==> EntryAt(image, i) == d.slots[i].entry
    ensures Entries(image) == EntriesOf(d)
  {
    hide EntryAt;
  }

  /** The fields of the 16 bytes of a record. */
  function SlotAt(image: seq<Byte>, i: nat): Slot
    requires |image| >= SECTOR && i < 4
  {
    var e := image[TABLE + RECORD * i..TABLE + RECORD * i + RECORD];
    Slot(e[..4], e[5..8], EntryAt(image, i))
  }

  lemma SlotAtIsRaw(image: seq<Byte>, i: nat)
    requires |image| >= SECTOR && i < 4
    ensures Raw(SlotAt(image, i)) == image[TABLE + RECORD * i..TABLE + RECORD * i + RECORD]
            && WellSized(SlotAt(image, i))
  {
    var e := image[TABLE + RECORD * i..TABLE + RECORD * i + RECORD];
    EncodeDecode(e[8], e[9], e[10], e[11]);
    EncodeDecode(e[12], e[13], e[14], e[15]);
    SixteenBytes(e);
    hide Encode, Decode;
  }

  lemma SixteenBytes(e: seq<Byte>)
    requires |e| == RECORD
    ensures e == e[..4] + [e[4]] + e[5..8] + [e[8], e[9], e[10], e[11]] + [e[12], e[13], e[14], e[15]]
  {
  }

  function Read(image: seq<Byte>): (d: Disk)
    requires |image| >= SECTOR
    ensures |d.slots| == 4
  {
    Disk(image[..TABLE], [SlotAt(image, 0), SlotAt(image, 1), SlotAt(image, 2), SlotAt(image, 3)], image[SECTOR..])
  }

  /** Every signed image is the writing of some disk, so the round trip covers every input that the
      parser does not answer with an empty list for want of a signature. */
  lemma EverySignedImageIsWritten(image: seq<Byte>)
    requires Signed(image)
    ensures Read(image).Valid() && Write(Read(image)) == image
  {
    SlotAtIsRaw(image, 0);
    SlotAtIsRaw(image, 1);
    SlotAtIsRaw(image, 2);
    SlotAtIsRaw(image, 3);
    hide SlotAt, Raw, WellSized;
    var t := TABLE;
    assert image == image[..t] + image[t..t + 16] + image[t + 16..t + 32] + image[t + 32..t + 48]
           + image[t + 48..t + 64]
                    + [image[510], image[511]] + image[SECTOR..];
  }

  // ------------------------------------------------------------- the results

  function HexValue(c: char): int
  {
    if '0' <= c <= '9' then c as int - '0' as int else if 'a' <= c <= 'f' then c as int - 'a' as int + 10 else -1
  }

  /** The type is printed as two hexadecimal digits. */
  lemma TypeNameReadsBack(kind: Byte)
    ensures var t := TypeName(kind);
            |t| == 8 && t[..6] == "mbr-0x" && HexValue(t[6]) >= 0 && HexValue(t[7]) >= 0
            && 16 * HexValue(t[6]) + HexValue(t[7]) == kind
  {
    DigitReadsBack(kind / 16);
    DigitReadsBack(kind % 16);
  }

  lemma DigitReadsBack(d: nat)
    requires d < 16
    ensures HexValue(DIGITS[d]) == d
  {
  }

  /** A listed partition is that of a used slot, at 512 times its first sector and as long as 512 times its count. */
  lemma PartitionFields(entries: seq<Entry>, p: Partition)
    requires p in UsedPartitions(entries)
    ensures p.index < |entries| && entries[p.index].kind != 0 && entries[p.index].count != 0
    ensures p.offset == 512 * entries[p.index].first && p.length == 512 * entries[p.index].count
    ensures p.kind == TypeName(entries[p.index].kind)
  {
    PartitionsExactly(entries);
    hide UsedPartitions, TypeName;
  }

  /** Membership, order and bounds of the parsed list, read off the entries alone. */
  lemma {:induction false} PartitionsExactly(entries: seq<Entry>)
    ensures forall p :: p in UsedPartitions(entries) <==>
              exists i :: 0 <= i < |entries| && entries[i].Used() && p == PartitionOf(i, entries[i])
    ensures forall j, k :: 0 <= j < k < |UsedPartitions(entries)| ==>
              UsedPartitions(entries)[j].index < UsedPartitions(entries)[k].index
    ensures forall p :: p in UsedPartitions(entries) ==> p.index < |entries|
  {
    if entries != [] {
      var n := |entries| - 1;
      var init := entries[..n];
      PartitionsExactly(init);
      hide PartitionOf, Entry.Used;
      assert forall i :: 0 <= i < n ==> init[i] == entries[i];
      forall p ensures p in UsedPartitions(entries) <==>
                 exists i :: 0 <= i < |entries| && entries[i].Used() && p == PartitionOf(i, entries[i])
      {
        if p in UsedPartitions(init) {
          var i :| 0 <= i < n && init[i].Used() && p == PartitionOf(i, init[i]);
          assert entries[i].Used();
        }
      }
    }
  }

  lemma TypeNameInjective(a: Byte, b: Byte)
    requires TypeName(a) == TypeName(b)
    ensures a == b
  {
    assert TypeName(a)[6] == TypeName(b)[6] && TypeName(a)[7] == TypeName(b)[7];
    assert a == 16 * (a / 16) + a % 16 && b == 16 * (b / 16) + b % 16;
    DigitInjective(a / 16, b / 16);
    DigitInjective(a % 16, b % 16);
  }

  lemma DigitInjective(x: nat, y: nat)
    requires x < 16 && y < 16 && DIGITS[x] == DIGITS[y]
    ensures x == y
  {
  }

  /** A partition ends below byte 2^42, however large the fields. */
  lemma {:induction false} EndsBelowLimit(entries: seq<Entry>, p: Partition)
    requires p in UsedPartitions(entries)
    ensures 0 < p.length && p.offset + p.length < 0x400_0000_0000 && p.offset % SECTOR == 0 && p.length % SECTOR == 0
  {
    PartitionsExactly(entries);
    hide UsedPartitions, TypeName;
  }

  /** Two disks that parse alike use the same slots, with the same type, first sector and count. */
  lemma ParseDeterminesUsedRecords(a: Disk, b: Disk, i: nat)
    requires a.Valid() && b.Valid() && i < 4
    requires UsedPartitions(EntriesOf(a)) == UsedPartitions(EntriesOf(b))
    ensures a.slots[i].entry.Used() <==> b.slots[i].entry.Used()
    ensures a.slots[i].entry.Used() ==> a.slots[i].entry == b.slots[i].entry
  {
    if a.slots[i].entry.Used() {
      UsedIsDetermined(EntriesOf(a), EntriesOf(b), i);
    }
    if b.slots[i].entry.Used() {
      UsedIsDetermined(EntriesOf(b), EntriesOf(a), i);
    }
  }

  lemma UsedIsDetermined(a: seq<Entry>, b: seq<Entry>, i: nat)
    requires i < |a| && a[i].Used() && UsedPartitions(a) == UsedPartitions(b)
    ensures i < |b| && b[i] == a[i]
  {
    PartitionsExactly(a);
    PartitionsExactly(b);
    var p := PartitionOf(i, a[i]);
    assert p in UsedPartitions(a);
    var k :| 0 <= k < |b| && b[k].Used() && p == PartitionOf(k, b[k]);
    hide UsedPartitions;
    TypeNameInjective(a[i].kind, b[i].kind);
  }
}
