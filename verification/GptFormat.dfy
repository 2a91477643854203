/**
 Freshly formatted disks. For every block size, checksum and entry array there is a disk with two
 agreeing, valid copies of it, so the hypotheses of GptSafety and GptRecovery can be met whatever
 the device.
 */
module GptFormat {
  import opened Bytes
  import opened GptHeader
  import opened BootChain
  import opened EntryTable
  import opened GptProtocol
  import opened GptSafety

  /** A header block with its fields filled in but not its checksums. */
  function Fields(blk: nat, lba: nat, count: u32, entry: u32): (h: ByteString)
    requires blk >= HEADER_MIN
    ensures |h| == blk
  {
    SIGNATURE + Le(0, 3) + Le(HEADER_MIN, 4) + Le(0, 56) + Le(lba, 8) + Le(count, 4) + Le(entry, 4) + Le(0, blk - 88)
  }

  lemma FieldsRead(blk: nat, lba: nat, count: u32, entry: u32)
    requires blk >= HEADER_MIN && lba < 0x1_0000_0000_0000_0000
    ensures var h := Fields(blk, lba, count, entry);
      && InBlock(h) && SigOk(h) && EntriesLba(h) == lba && EntryCount(h) == count && EntrySize(h) == entry
  {
    hide Le, Val;
    var h := Fields(blk, lba, count, entry);
    assert h[..9] == SIGNATURE;
    assert h[12..16] == Le(HEADER_MIN, 4) && h[72..80] == Le(lba, 8) && h[80..84] == Le(count, 4) && h[84..88] == Le(entry, 4);
    assert Pow256(4) == 0x1_0000_0000;
    assert Pow256(8) == 0x100 * 0x100 * 0x100 * 0x100 * Pow256(4);
    ValOfLe(HEADER_MIN, 4);
    ValOfLe(lba, 8);
    ValOfLe(count, 4);
    ValOfLe(entry, 4);
  }

  function FreshHeader(v: Device, lba: nat, count: u32, entry: u32, e: ByteString): (h: ByteString)
    requires v.blk >= HEADER_MIN && lba < 0x1_0000_0000_0000_0000
    ensures |h| == v.blk
  {
    FieldsRead(v.blk, lba, count, entry);
    SetEntriesCrc(v.crc, Fields(v.blk, lba, count, entry), v.crc(e))
  }

  lemma FreshHeaderIsSound(v: Device, lba: nat, count: u32, entry: u32, e: ByteString)
    requires v.blk >= HEADER_MIN && lba < 0x1_0000_0000_0000_0000
    ensures var h := FreshHeader(v, lba, count, entry, e);
      && InBlock(h) && GetState(v.crc, h) == GptOk && EntriesCrc(h) == v.crc(e)
      && EntriesLba(h) == lba && EntryCount(h) == count && EntrySize(h) == entry
  {
    hide Fields, SetEntriesCrc;
    var h0 := Fields(v.blk, lba, count, entry);
    FieldsRead(v.blk, lba, count, entry);
    SetEntriesCrcIsSound(v.crc, h0, v.crc(e));
    FrameFixesFields(SetEntriesCrc(v.crc, h0, v.crc(e)), h0);
  }

  lemma {:induction false} TimesAtLeast(n: nat, c: nat)
    requires c > 0
    ensures Times(n, c) >= n
  {
    if n > 0 {
      TimesAtLeast(n - 1, c);
    }
  }

  /** The blocks of a fresh disk, from the protective one to the secondary header. */
  function Joined(a: ByteString, p: ByteString, e: ByteString, gap: ByteString, t: ByteString, s: ByteString): (d: ByteString) {
    a + p + e + gap + t + s
  }

  lemma JoinedParts(a: ByteString, p: ByteString, e: ByteString, gap: ByteString, t: ByteString, s: ByteString)
    ensures var d := Joined(a, p, e, gap, t, s);
      && |d| == |a| + |p| + |e| + |gap| + |t| + |s|
      && d[|a|..|a| + |p|] == p && d[|a| + |p|..|a| + |p| + |e|] == e
      && d[|a| + |p| + |e| + |gap|..|a| + |p| + |e| + |gap| + |t|] == t && d[|d| - |s|..] == s
  {
    var d := Joined(a, p, e, gap, t, s);
    assert d == a + (p + (e + (gap + (t + s))));
  }

  /** Every entry array of every shape has a disk to start an update on, with agreeing copies. */
  lemma StartExists(v: Device, e: ByteString, count: u32, entry: u32) returns (l: Layout, d: Disk)
    requires v.blk >= HEADER_MIN && entry >= PTN_ENTRY_SIZE && |e| == Times(count, entry) < 0x1_0000_0000
    ensures Start(v, l, d) && CopyValid(v, d, Secondary)
    ensures l.count == count && l.entry == entry && MainEntries(l, d) == e == d[l.e2..l.e2 + l.len]
  {
    hide FreshHeader, Joined, GetState, InBlock, EntriesLba, EntryCount, EntrySize, EntriesCrc, Le;
    var rest := Times(|e|, v.blk);
    TimesAtLeast(|e|, v.blk);
    var k := 2 + |e|;
    TimesSum(2, |e|, v.blk);
    assert Times(2, v.blk) == 2 * v.blk && Times(k, v.blk) == 2 * v.blk + rest;
    var p, s := FreshHeader(v, 2, count, entry, e), FreshHeader(v, k, count, entry, e);
    FreshHeaderIsSound(v, 2, count, entry, e);
    FreshHeaderIsSound(v, k, count, entry, e);
    var a, gap := Le(0, v.blk), Le(0, rest - |e|);
    d := Joined(a, p, e, gap, e, s);
    JoinedParts(a, p, e, gap, e, s);
    l := Layout(2 * v.blk, 2 * v.blk + rest, count, entry, |e|);
    assert Header(v, d, Primary) == p && Header(v, d, Secondary) == s;
  }

  lemma {:induction false} TimesSum(a: nat, b: nat, c: nat)
    ensures Times(a + b, c) == Times(a, c) + Times(b, c)
    decreases b
  {
    if b > 0 {
      TimesSum(a, b - 1, c);
    }
  }

  //// A table with a backup

  predicate Printable(name: string) {
    |name| <= MAX_GPT_NAME_SIZE / 2 && forall i :: 0 <= i < |name| ==> name[i] as int < 0x100
  }

  /** The name field: UTF-16, little-endian, then zeros. */
  function Utf16(name: string): (b: ByteString)
    requires Printable(name)
    ensures |b| == MAX_GPT_NAME_SIZE
  {
    seq(MAX_GPT_NAME_SIZE, i requires 0 <= i < MAX_GPT_NAME_SIZE =>
      if i % 2 == 0 && i / 2 < |name| then name[i / 2] as int as byte else 0)
  }

  /** An entry field by field: type, identity, first and last block, attributes, name. */
  function EntryOf(kind: ByteString, id: ByteString, first: nat, last: nat, attributes: nat, name: string): (e: Entry)
    requires |kind| == 16 && |id| == 16 && Printable(name)
    ensures |e| == PTN_ENTRY_SIZE
  {
    kind + id + Le(first, 8) + Le(last, 8) + Le(attributes, 8) + Utf16(name)
  }

  lemma {:induction false} CStringIs(n: string, name: string)
    requires |name| < |n| && n[..|name|] == name && n[|name|] == '\0' && '\0' !in name
    ensures CString(n) == name
    decreases |name|
  {
    if name != [] {
      assert n[0] == n[..|name|][0] == name[0];
      assert n[1..][..|name| - 1] == n[..|name|][1..] == name[1..];
      CStringIs(n[1..], name[1..]);
    }
  }

  /** The lookup reads the name field, whatever the fields before it hold. */
  lemma EntryReads(kind: ByteString, id: ByteString, first: nat, last: nat, attributes: nat, name: string, x: string)
    requires |kind| == 16 && |id| == 16 && Printable(name) && '\0' !in name && '\0' !in x
    ensures var e := EntryOf(kind, id, first, last, attributes, name);
      Matches(e, x) <==> name == x || name == x + "bak"
  {
    hide Le, CString;
    var e := EntryOf(kind, id, first, last, attributes, name);
    var n := Name8(e);
    assert e[56..] == Utf16(name);
    forall i | 0 <= i < 36 ensures n[i] == if i < |name| then name[i] else '\0' {
      assert e[56..][2 * i] == e[56 + 2 * i];
      assert (2 * i) % 2 == 0 && (2 * i) / 2 == i;
    }
    assert n[36] == '\0';
    assert n[..|name|] == name;
    CStringIs(n, name);
    MatchesIffTwin(e, x);
  }

  /** On every device whose first swapped name fits an entry, an update can start with a backup present. */
  lemma UpdateCanStart(v: Device) returns (l: Layout, d: Disk)
    requires v.blk >= HEADER_MIN && v.names != [] && Printable(v.names[0]) && '\0' !in v.names[0]
    ensures Start(v, l, d) && HasBackups(v, l, d) && CopyValid(v, d, Secondary)
    ensures MainEntries(l, d) == d[l.e2..l.e2 + l.len]
  {
    hide Start, CopyValid, EntryOf;
    var x := EntryOf(Le(0, 16), Le(0, 16), 0, 0, 0, v.names[0]);
    EntryReads(Le(0, 16), Le(0, 16), 0, 0, 0, v.names[0], v.names[0]);
    var es := [x, x];
    ChunksOfFlatten(es, PTN_ENTRY_SIZE);
    assert Times(2, PTN_ENTRY_SIZE) == 256;
    l, d := StartExists(v, Flatten(es), 2, PTN_ENTRY_SIZE);
    assert Seek(es, 0, v.names[0]) == 0 && Seek(es, 1, v.names[0]) == 1;
    assert HasPair(es, v.names[0]);
  }
}
