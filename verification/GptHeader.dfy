/**
 The GPT header block (section 5.3.2 of the UEFI Specification) as gpt-utils reads and
 rewrites it: its fields, the signature, and the header checksum, which covers the header
 with its own field cleared.

 The checksum is a parameter, so every result holds for any deterministic 32-bit checksum.
 */
module GptHeader {
  import opened Bytes

  type Checksum = ByteString -> u32

  const HEADER_SIZE_OFFSET := 12
  const HEADER_CRC_OFFSET := 16
  const PENTRIES_OFFSET := 72
  const PARTITION_COUNT_OFFSET := 80
  const PENTRY_SIZE_OFFSET := 84
  const PARTITION_CRC_OFFSET := 88

  // The smallest GPT header; every field above lies below it.
  const HEADER_MIN := 92

  // "EFI PART" with its terminating NUL: the source compares and copies sizeof(GPT_SIGNATURE)
  // bytes, so the low byte of the revision is part of what it treats as the signature.
  const SIGNATURE: ByteString := [0x45, 0x46, 0x49, 0x20, 0x50, 0x41, 0x52, 0x54, 0]

  datatype GptState = GptOk | GptBadSignature | GptBadCrc

  function HeaderSize(h: ByteString): (n: u32)
    requires |h| >= HEADER_MIN
  {
    Get4(h, HEADER_SIZE_OFFSET)
  }

  function EntriesLba(h: ByteString): (n: nat)
    requires |h| >= HEADER_MIN
  {
    Get8(h, PENTRIES_OFFSET)
  }

  function EntryCount(h: ByteString): (n: u32)
    requires |h| >= HEADER_MIN
  {
    Get4(h, PARTITION_COUNT_OFFSET)
  }

  function EntrySize(h: ByteString): (n: u32)
    requires |h| >= HEADER_MIN
  {
    Get4(h, PENTRY_SIZE_OFFSET)
  }

  function EntriesCrc(h: ByteString): (n: u32)
    requires |h| >= HEADER_MIN
  {
    Get4(h, PARTITION_CRC_OFFSET)
  }

  /** The header lies inside its block, so the checksum never reads past the buffer. */
  predicate InBlock(h: ByteString) {
    |h| >= HEADER_MIN && HeaderSize(h) <= |h|
  }

  /** The checksum of the header with its checksum field cleared. */
  function BodyCrc(crc: Checksum, h: ByteString): (v: u32)
    requires InBlock(h)
  {
    crc(Put4(h, HEADER_CRC_OFFSET, 0)[..HeaderSize(h)])
  }

  predicate CrcOk(crc: Checksum, h: ByteString)
    requires InBlock(h)
  {
    Get4(h, HEADER_CRC_OFFSET) == BodyCrc(crc, h)
  }

  predicate SigOk(h: ByteString) {
    |h| >= 9 && h[..9] == SIGNATURE
  }

  function GetState(crc: Checksum, h: ByteString): (s: GptState)
    requires InBlock(h)
  {
    if !CrcOk(crc, h) then GptBadCrc else if !SigOk(h) then GptBadSignature else GptOk
  }

  /** The bytes that no state change and no entry-checksum update may touch. */
  predicate SameFrame(a: ByteString, b: ByteString) {
    && |a| == |b| >= HEADER_MIN
    && a[9..16] == b[9..16]
    && a[20..88] == b[20..88]
    && a[92..] == b[92..]
  }

  lemma FrameTransitive(a: ByteString, b: ByteString, c: ByteString)
    requires SameFrame(a, b) && SameFrame(b, c)
    ensures SameFrame(a, c)
  {
  }

  lemma FrameSymmetric(a: ByteString, b: ByteString)
    requires SameFrame(a, b)
    ensures SameFrame(b, a)
  {
  }

  lemma FrameFixesFields(a: ByteString, b: ByteString)
    requires SameFrame(a, b)
    ensures HeaderSize(a) == HeaderSize(b) && EntriesLba(a) == EntriesLba(b)
    ensures EntryCount(a) == EntryCount(b) && EntrySize(a) == EntrySize(b)
  {
    SliceAgrees(a, b, 9, 16, 12, 16);
    SliceAgrees(a, b, 20, 88, 72, 80);
    SliceAgrees(a, b, 20, 88, 80, 84);
    SliceAgrees(a, b, 20, 88, 84, 88);
  }

  /** Recomputes the header checksum after an edit. */
  function Seal(crc: Checksum, h: ByteString): (r: ByteString)
    requires InBlock(h)
    ensures |r| == |h|
  {
    Put4(h, HEADER_CRC_OFFSET, BodyCrc(crc, h))
  }

  /** Sealing makes the checksum right and touches nothing but the checksum. */
  lemma SealIsSound(crc: Checksum, h: ByteString)
    requires InBlock(h)
    ensures SameFrame(Seal(crc, h), h) && InBlock(Seal(crc, h))
    ensures Seal(crc, h)[..9] == h[..9] && Seal(crc, h)[88..92] == h[88..92]
    ensures CrcOk(crc, Seal(crc, h))
  {
    var s, x := Seal(crc, h), Le(BodyCrc(crc, h), 4);
    SpliceMiss(h, HEADER_CRC_OFFSET, x, 0, 9);
    SpliceMiss(h, HEADER_CRC_OFFSET, x, 9, 16);
    SpliceMiss(h, HEADER_CRC_OFFSET, x, 20, 88);
    SpliceMiss(h, HEADER_CRC_OFFSET, x, 88, 92);
    SpliceMiss(h, HEADER_CRC_OFFSET, x, 92, |h|);
    FrameFixesFields(s, h);
    SpliceOver(h, HEADER_CRC_OFFSET, x, Le(0, 4));
    Get4OfPut4(h, HEADER_CRC_OFFSET, BodyCrc(crc, h));
  }

  /** Restores or breaks the signature, before the checksum is recomputed. */
  function Mark(h: ByteString, ok: bool): (r: ByteString)
    requires |h| >= HEADER_MIN
    ensures SameFrame(r, h) && r[88..92] == h[88..92]
  {
    if ok then Splice(h, 0, SIGNATURE) else Splice(h, 0, [0])
  }

  function SetState(crc: Checksum, h: ByteString, ok: bool): (r: ByteString)
    requires InBlock(h)
    ensures |r| == |h|
  {
    FrameFixesFields(Mark(h, ok), h);
    Seal(crc, Mark(h, ok))
  }

  /** What the state writer writes, the state reader reads back, on every header block. */
  lemma SetThenGet(crc: Checksum, h: ByteString, ok: bool)
    requires InBlock(h)
    ensures SameFrame(SetState(crc, h, ok), h) && InBlock(SetState(crc, h, ok))
    ensures EntriesCrc(SetState(crc, h, ok)) == EntriesCrc(h)
    ensures GetState(crc, SetState(crc, h, ok)) == if ok then GptOk else GptBadSignature
  {
    var m := Mark(h, ok);
    FrameFixesFields(m, h);
    SealIsSound(crc, m);
    if !ok {
      assert Seal(crc, m)[..9][0] == m[..9][0] == 0;
    }
  }

  /** Breaking clears the first byte and keeps the rest of the signature; mending writes "EFI PART" and a zero. */
  lemma MarksAre(crc: Checksum, h: ByteString)
    requires InBlock(h)
    ensures SetState(crc, h, false)[0] == 0 && SetState(crc, h, false)[1..9] == h[1..9]
    ensures SetState(crc, h, true)[..9] == [0x45, 0x46, 0x49, 0x20, 0x50, 0x41, 0x52, 0x54, 0]
  {
    var broken, whole := Mark(h, false), Mark(h, true);
    FrameFixesFields(broken, h);
    FrameFixesFields(whole, h);
    SealIsSound(crc, broken);
    SealIsSound(crc, whole);
    assert Seal(crc, broken)[0] == Seal(crc, broken)[..9][0];
    assert Seal(crc, broken)[1..9] == Seal(crc, broken)[..9][1..];
  }

  /** A header, around its checksum field. */
  lemma CutUp(h: ByteString)
    requires |h| >= HEADER_MIN
    ensures h[..16] == h[..9] + h[9..16] && h[20..] == h[20..88] + h[88..92] + h[92..]
    ensures h == h[..16] + h[16..20] + h[20..]
  {
  }

  /** Two sound headers with one frame and one entry checksum are the same block. */
  lemma SoundHeaderDetermined(crc: Checksum, a: ByteString, b: ByteString)
    requires SameFrame(a, b) && InBlock(a) && InBlock(b)
    requires GetState(crc, a) == GptOk && GetState(crc, b) == GptOk
    requires EntriesCrc(a) == EntriesCrc(b)
    ensures a == b
  {
    FrameFixesFields(a, b);
    Get4Injective(a, b, PARTITION_CRC_OFFSET);
    CutUp(a);
    CutUp(b);
    assert a[..16] == b[..16] && a[20..] == b[20..];
    assert Put4(a, HEADER_CRC_OFFSET, 0) == Put4(b, HEADER_CRC_OFFSET, 0);
    assert BodyCrc(crc, a) == BodyCrc(crc, b);
    Get4Injective(a, b, HEADER_CRC_OFFSET);
  }

  /** Breaking and then restoring the signature gives back the block, checksum included. */
  lemma BreakThenRestore(crc: Checksum, h: ByteString)
    requires InBlock(h) && GetState(crc, h) == GptOk
    ensures InBlock(SetState(crc, h, false))
    ensures SetState(crc, SetState(crc, h, false), true) == h
  {
    var broken := SetState(crc, h, false);
    SetThenGet(crc, h, false);
    SetThenGet(crc, broken, true);
    SoundHeaderDetermined(crc, SetState(crc, broken, true), h);
  }

  /** Records the checksum of an entry array, then the header's own. */
  function SetEntriesCrc(crc: Checksum, h: ByteString, v: u32): (r: ByteString)
    requires InBlock(h)
    ensures |r| == |h|
  {
    var h' := Put4(h, PARTITION_CRC_OFFSET, v);
    EditEntriesCrc(h, v);
    Seal(crc, h')
  }

  lemma EditEntriesCrc(h: ByteString, v: u32)
    requires InBlock(h)
    ensures SameFrame(Put4(h, PARTITION_CRC_OFFSET, v), h)
    ensures InBlock(Put4(h, PARTITION_CRC_OFFSET, v))
    ensures EntriesCrc(Put4(h, PARTITION_CRC_OFFSET, v)) == v
    ensures Put4(h, PARTITION_CRC_OFFSET, v)[..9] == h[..9]
  {
    var h' := Put4(h, PARTITION_CRC_OFFSET, v);
    Get4OfPut4(h, PARTITION_CRC_OFFSET, v);
    SpliceMiss(h, PARTITION_CRC_OFFSET, Le(v, 4), 0, 9);
    SpliceMiss(h, PARTITION_CRC_OFFSET, Le(v, 4), 9, 16);
    SpliceMiss(h, PARTITION_CRC_OFFSET, Le(v, 4), 20, 88);
    SpliceMiss(h, PARTITION_CRC_OFFSET, Le(v, 4), 92, |h|);
    FrameFixesFields(h', h);
  }

  /** Recording an entry checksum leaves a sound block in the same signature state. */
  lemma SetEntriesCrcIsSound(crc: Checksum, h: ByteString, v: u32)
    requires InBlock(h)
    ensures SameFrame(SetEntriesCrc(crc, h, v), h) && InBlock(SetEntriesCrc(crc, h, v))
    ensures SetEntriesCrc(crc, h, v)[..9] == h[..9]
    ensures CrcOk(crc, SetEntriesCrc(crc, h, v))
    ensures EntriesCrc(SetEntriesCrc(crc, h, v)) == v
  {
    var h' := Put4(h, PARTITION_CRC_OFFSET, v);
    EditEntriesCrc(h, v);
    SealIsSound(crc, h');
  }
}
