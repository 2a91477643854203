/**
 The second path of gpt-utils to the partition tables: load both copies into a gpt_disk, edit the
 entry arrays in memory, recompute the checksums and commit with four writes.
 */
module GptCommit {
  import opened Bytes
  import opened GptHeader
  import opened BootChain
  import opened EntryTable
  import opened GptProtocol
  import opened GptSafety
  import opened GptDevice
  import opened GptCalls
  import opened Crc32

  /** The buffers of a gpt_disk. */
  datatype Image = Image(hdr: ByteString, hdrBak: ByteString, arr: ByteString, arrBak: ByteString)

  predicate ImageFits(v: Device, l: Layout, im: Image) {
    && |im.hdr| == v.blk && Describes(v, im.hdr, l, l.e1) && |im.arr| == l.len
    && |im.hdrBak| == v.blk && Describes(v, im.hdrBak, l, l.e2) && |im.arrBak| == l.len
  }

  /** gpt_disk_get_disk_info. */
  function Load(v: Device, l: Layout, d: Disk): (im: Image)
    requires Fits(v, l, |d|)
  {
    Image(Header(v, d, Primary), Header(v, d, Secondary), d[l.e1..l.e1 + l.len], d[l.e2..l.e2 + l.len])
  }

  /** The checksum field is filled with the checksum of the first `size` bytes. */
  function SealSized(crc: Checksum, h: ByteString, size: nat): (r: ByteString)
    requires HEADER_MIN <= |h| && size <= |h|
    ensures |r| == |h|
  {
    Put4(h, HEADER_CRC_OFFSET, crc(Put4(h, HEADER_CRC_OFFSET, 0)[..size]))
  }

  /** gpt_disk_update_crc: both headers are sealed over the primary's header size. */
  function UpdateCrc(v: Device, im: Image): (r: Image)
    requires InBlock(im.hdr) && |im.hdrBak| == |im.hdr|
  {
    var size := HeaderSize(im.hdr);
    im.(hdr := SealSized(v.crc, Put4(im.hdr, PARTITION_CRC_OFFSET, v.crc(im.arr)), size),
        hdrBak := SealSized(v.crc, Put4(im.hdrBak, PARTITION_CRC_OFFSET, v.crc(im.arrBak)), size))
  }

  /** The primary header always comes out sealed. */
  lemma UpdateCrcSealsPrimary(v: Device, im: Image)
    requires InBlock(im.hdr) && |im.hdrBak| == |im.hdr|
    ensures UpdateCrc(v, im).hdr == SetEntriesCrc(v.crc, im.hdr, v.crc(im.arr))
  {
    EditEntriesCrc(im.hdr, v.crc(im.arr));
    FrameFixesFields(Put4(im.hdr, PARTITION_CRC_OFFSET, v.crc(im.arr)), im.hdr);
  }

  /** The backup header comes out sealed when the two header sizes agree. */
  lemma UpdateCrcSealsBackup(v: Device, im: Image)
    requires InBlock(im.hdr) && InBlock(im.hdrBak) && |im.hdrBak| == |im.hdr|
    requires HeaderSize(im.hdr) == HeaderSize(im.hdrBak)
    ensures UpdateCrc(v, im).hdrBak == SetEntriesCrc(v.crc, im.hdrBak, v.crc(im.arrBak))
  {
    EditEntriesCrc(im.hdrBak, v.crc(im.arrBak));
    FrameFixesFields(Put4(im.hdrBak, PARTITION_CRC_OFFSET, v.crc(im.arrBak)), im.hdrBak);
  }

  /**
   With unequal sizes the backup header is sealed over the wrong number of bytes: its checksum is
   right exactly when the checksum cannot tell the two lengths apart.
   */
  lemma BackupSealIff(v: Device, im: Image)
    requires InBlock(im.hdr) && InBlock(im.hdrBak) && |im.hdrBak| == |im.hdr|
    ensures InBlock(UpdateCrc(v, im).hdrBak)
    ensures var z := Put4(Put4(im.hdrBak, PARTITION_CRC_OFFSET, v.crc(im.arrBak)), HEADER_CRC_OFFSET, 0);
      CrcOk(v.crc, UpdateCrc(v, im).hdrBak)
      <==> v.crc(z[..HeaderSize(im.hdr)]) == v.crc(z[..HeaderSize(im.hdrBak)])
  {
    var h := Put4(im.hdrBak, PARTITION_CRC_OFFSET, v.crc(im.arrBak));
    EditEntriesCrc(im.hdrBak, v.crc(im.arrBak));
    FrameFixesFields(h, im.hdrBak);
    var x: u32 := v.crc(Put4(h, HEADER_CRC_OFFSET, 0)[..HeaderSize(im.hdr)]);
    SpliceMiss(h, HEADER_CRC_OFFSET, Le(x, 4), 12, 16);
    SpliceOver(h, HEADER_CRC_OFFSET, Le(x, 4), Le(0, 4));
    Get4OfPut4(h, HEADER_CRC_OFFSET, x);
  }

  /** The backup header that BackupSealIff looks at, with one byte behind its fields exchanged. */
  lemma EditedByte(h: ByteString, c: u32, k: nat, b: byte)
    requires HEADER_MIN <= k < |h|
    ensures var h' := h[k := b];
      && HeaderSize(h') == HeaderSize(h)
      && Put4(Put4(h', PARTITION_CRC_OFFSET, c), HEADER_CRC_OFFSET, 0)
        == Put4(Put4(h, PARTITION_CRC_OFFSET, c), HEADER_CRC_OFFSET, 0)[k := b]
  {
    hide Le;
    assert h[k := b][12..16] == h[12..16];
  }

  /** The image with one byte of its backup header exchanged. */
  function WithByte(im: Image, k: nat, b: byte): (r: Image)
    requires k < |im.hdrBak|
  {
    im.(hdrBak := im.hdrBak[k := b])
  }

  function LastByte(im: Image): (k: int)
    requires InBlock(im.hdr) && InBlock(im.hdrBak)
  {
    (if HeaderSize(im.hdr) > HeaderSize(im.hdrBak) then HeaderSize(im.hdr) else HeaderSize(im.hdrBak)) - 1
  }

  /**
   With the CRC-32 that the source uses, and header sizes that differ: of the 256 values of the last
   byte that only one of the two lengths covers, at most one leaves the backup header sound.
   */
  lemma UnequalSizesBreakBackup(v: Device, im: Image, a: byte, b: byte)
    requires v.crc == Crc && InBlock(im.hdr) && InBlock(im.hdrBak) && |im.hdrBak| == |im.hdr|
    requires HeaderSize(im.hdr) != HeaderSize(im.hdrBak) && LastByte(im) >= HEADER_MIN && a != b
    ensures var k := LastByte(im);
      && InBlock(UpdateCrc(v, WithByte(im, k, a)).hdrBak) && InBlock(UpdateCrc(v, WithByte(im, k, b)).hdrBak)
      && (GetState(v.crc, UpdateCrc(v, WithByte(im, k, a)).hdrBak) == GptBadCrc
          || GetState(v.crc, UpdateCrc(v, WithByte(im, k, b)).hdrBak) == GptBadCrc)
  {
    hide UpdateCrc, Put4, SigOk, Crc, HeaderSize, CrcOk;
    var k, c := LastByte(im), v.crc(im.arrBak);
    EditedByte(im.hdrBak, c, k, a);
    EditedByte(im.hdrBak, c, k, b);
    BackupSealIff(v, WithByte(im, k, a));
    BackupSealIff(v, WithByte(im, k, b));
    var z := Put4(Put4(im.hdrBak, PARTITION_CRC_OFFSET, c), HEADER_CRC_OFFSET, 0);
    if Crc(z[k := a][..HeaderSize(im.hdr)]) == Crc(z[k := a][..HeaderSize(im.hdrBak)])
      && Crc(z[k := b][..HeaderSize(im.hdr)]) == Crc(z[k := b][..HeaderSize(im.hdrBak)]) {
      var n := if HeaderSize(im.hdr) > HeaderSize(im.hdrBak) then HeaderSize(im.hdrBak) else HeaderSize(im.hdr);
      assert z[k := a][..n] == z[k := b][..n];
      assert z[k := a][..k + 1] == z[..k] + [a] && z[k := b][..k + 1] == z[..k] + [b];
      LastByteTells(z[..k], a, b);
    }
  }

  /** So every image with differing header sizes is one byte away from losing its backup header. */
  lemma BackupCanBreak(v: Device, im: Image) returns (b: byte)
    requires v.crc == Crc && InBlock(im.hdr) && InBlock(im.hdrBak) && |im.hdrBak| == |im.hdr|
    requires HeaderSize(im.hdr) != HeaderSize(im.hdrBak) && LastByte(im) >= HEADER_MIN
    ensures var r := UpdateCrc(v, WithByte(im, LastByte(im), b));
      InBlock(r.hdrBak) && GetState(v.crc, r.hdrBak) == GptBadCrc
  {
    hide UpdateCrc, GetState;
    UnequalSizesBreakBackup(v, im, 0, 1);
    if GetState(v.crc, UpdateCrc(v, WithByte(im, LastByte(im), 0)).hdrBak) == GptBadCrc {
      b := 0;
    } else {
      b := 1;
    }
  }

  /** gpt_disk_commit: primary header and array, then secondary header and array. */
  function CommitWrites(v: Device, l: Layout, size: nat, im: Image): (ws: seq<Write>)
    requires Fits(v, l, size) && ImageFits(v, l, im)
    ensures WritesFit(size, ws)
  {
    [Write(v.blk, im.hdr), Write(l.e1, im.arr), Write(size - v.blk, im.hdrBak), Write(l.e2, im.arrBak)]
  }

  //// The disk as an image on a background

  predicate Shape(v: Device, l: Layout, im: Image) {
    |im.hdr| == |im.hdrBak| == v.blk && |im.arr| == |im.arrBak| == l.len
  }

  function PutImage(v: Device, l: Layout, d0: Disk, im: Image): (d: Disk)
    requires Fits(v, l, |d0|) && Shape(v, l, im)
    ensures |d| == |d0|
  {
    Put(v, l, Splice(d0, l.e1, im.arr), Tables(im.hdr, im.hdrBak, im.arrBak))
  }

  lemma LoadOfPutImage(v: Device, l: Layout, d0: Disk, im: Image)
    requires Fits(v, l, |d0|) && Shape(v, l, im)
    ensures Load(v, l, PutImage(v, l, d0, im)) == im
  {
    hide Put, Splice;
    TakeOfPut(v, l, Splice(d0, l.e1, im.arr), Tables(im.hdr, im.hdrBak, im.arrBak));
    SpliceHit(d0, l.e1, im.arr);
  }

  lemma PutImageOfLoad(v: Device, l: Layout, d: Disk)
    requires Fits(v, l, |d|)
    ensures Shape(v, l, Load(v, l, d)) && PutImage(v, l, d, Load(v, l, d)) == d
  {
    hide Put, Splice;
    SpliceBack(d, l.e1, l.len);
    PutOfTake(v, l, d);
  }

  lemma WriteHdr(v: Device, l: Layout, d0: Disk, im: Image, y: ByteString)
    requires Fits(v, l, |d0|) && Shape(v, l, im) && |y| == v.blk
    ensures Apply(PutImage(v, l, d0, im), Write(v.blk, y)) == PutImage(v, l, d0, im.(hdr := y))
    ensures Apply(PutImage(v, l, d0, im), Write(|d0| - v.blk, y)) == PutImage(v, l, d0, im.(hdrBak := y))
  {
    hide Put, Splice;
    var b, x := Splice(d0, l.e1, im.arr), Tables(im.hdr, im.hdrBak, im.arrBak);
    WritePrimary(v, l, b, x, y);
    WriteSecondary(v, l, b, x, y);
  }

  lemma WriteArrBak(v: Device, l: Layout, d0: Disk, im: Image, y: ByteString)
    requires Fits(v, l, |d0|) && Shape(v, l, im) && |y| == l.len
    ensures Apply(PutImage(v, l, d0, im), Write(l.e2, y)) == PutImage(v, l, d0, im.(arrBak := y))
  {
    hide Put, Splice;
    WriteEntries(v, l, Splice(d0, l.e1, im.arr), Tables(im.hdr, im.hdrBak, im.arrBak), y);
  }

  lemma WriteArr(v: Device, l: Layout, d0: Disk, im: Image, y: ByteString)
    requires Fits(v, l, |d0|) && Shape(v, l, im) && |y| == l.len
    ensures Apply(PutImage(v, l, d0, im), Write(l.e1, y)) == PutImage(v, l, d0, im.(arr := y))
  {
    hide Splice;
    var b := Splice(d0, l.e1, im.arr);
    var b1 := Splice(b, v.blk, im.hdr);
    var b2 := Splice(b1, |d0| - v.blk, im.hdrBak);
    if l.e1 + l.len <= l.e2 {
      SpliceCommutes(b2, l.e1, y, l.e2, im.arrBak);
    } else {
      SpliceCommutes(b2, l.e2, im.arrBak, l.e1, y);
    }
    SpliceCommutes(b1, l.e1, y, |d0| - v.blk, im.hdrBak);
    SpliceCommutes(b, v.blk, im.hdr, l.e1, y);
    SpliceOver(d0, l.e1, im.arr, y);
  }

  //// Validity of a copy, in the image

  predicate PrimaryGood(v: Device, l: Layout, im: Image) {
    && |im.hdr| == v.blk && Describes(v, im.hdr, l, l.e1)
    && GetState(v.crc, im.hdr) == GptOk && EntriesCrc(im.hdr) == v.crc(im.arr)
  }

  predicate SecondaryGood(v: Device, l: Layout, im: Image) {
    && |im.hdrBak| == v.blk && Describes(v, im.hdrBak, l, l.e2)
    && GetState(v.crc, im.hdrBak) == GptOk && EntriesCrc(im.hdrBak) == v.crc(im.arrBak)
  }

  /** A copy is valid on the disk exactly when it is good in the image. */
  lemma CopiesOfImage(v: Device, l: Layout, d0: Disk, im: Image)
    requires Fits(v, l, |d0|) && Shape(v, l, im)
    ensures PrimaryGood(v, l, im) ==> CopyValid(v, PutImage(v, l, d0, im), Primary)
    ensures SecondaryGood(v, l, im) ==> CopyValid(v, PutImage(v, l, d0, im), Secondary)
  {
    hide PutImage, GetState, EntriesCrc;
    LoadOfPutImage(v, l, d0, im);
  }

  lemma ImageIsDescribed(v: Device, l: Layout, d: Disk, im: Image)
    requires Fits(v, l, |d|) && ImageFits(v, l, im) && Shape(v, l, im)
    ensures Described(v, l, PutImage(v, l, d, im))
  {
    hide PutImage, Describes;
    LoadOfPutImage(v, l, d, im);
  }

  lemma GoodOfValid(v: Device, l: Layout, d: Disk)
    requires Described(v, l, d)
    ensures CopyValid(v, d, Primary) ==> PrimaryGood(v, l, Load(v, l, d))
    ensures CopyValid(v, d, Secondary) ==> SecondaryGood(v, l, Load(v, l, d))
  {
    hide GetState;
  }

  /** Sealing over whatever size touches the two checksums alone. */
  lemma SealSizedFrame(crc: Checksum, h: ByteString, c: u32, size: nat)
    requires InBlock(h) && size <= |h|
    ensures var r := SealSized(crc, Put4(h, PARTITION_CRC_OFFSET, c), size);
      SameFrame(r, h) && InBlock(r) && (SigOk(r) <==> SigOk(h)) && EntriesCrc(r) == c
  {
    hide Le, Splice;
    var e := Put4(h, PARTITION_CRC_OFFSET, c);
    EditEntriesCrc(h, c);
    var x := Le(crc(Put4(e, HEADER_CRC_OFFSET, 0)[..size]), 4);
    SpliceMiss(e, HEADER_CRC_OFFSET, x, 0, 9);
    SpliceMiss(e, HEADER_CRC_OFFSET, x, 9, 16);
    SpliceMiss(e, HEADER_CRC_OFFSET, x, 20, 88);
    SpliceMiss(e, HEADER_CRC_OFFSET, x, 88, 92);
    SpliceMiss(e, HEADER_CRC_OFFSET, x, 92, |e|);
    var r := Splice(e, HEADER_CRC_OFFSET, x);
    FrameTransitive(r, e, h);
    FrameFixesFields(r, h);
  }

  /**
   Every edit of the arrays, followed by the checksum update, is good in the primary copy, and in the
   backup exactly when its header came out sound; with equal header sizes it always does.
   */
  lemma EditedIsGood(v: Device, l: Layout, im: Image, arr: ByteString, arrBak: ByteString)
    requires Shape(v, l, im) && |arr| == |arrBak| == l.len
    requires PrimaryGood(v, l, im) && SecondaryGood(v, l, im)
    ensures var r := UpdateCrc(v, im.(arr := arr, arrBak := arrBak));
      && Shape(v, l, r) && ImageFits(v, l, r)
      && r.arr == arr && r.arrBak == arrBak
      && PrimaryGood(v, l, r) && (SecondaryGood(v, l, r) <==> CrcOk(v.crc, r.hdrBak))
      && (HeaderSize(im.hdr) == HeaderSize(im.hdrBak) ==> CrcOk(v.crc, r.hdrBak))
  {
    hide SetEntriesCrc, SealSized, CrcOk, SameFrame, HeaderSize;
    var e := im.(arr := arr, arrBak := arrBak);
    UpdateCrcSealsPrimary(v, e);
    SetEntriesCrcIsSound(v.crc, im.hdr, v.crc(arr));
    FrameFixesFields(SetEntriesCrc(v.crc, im.hdr, v.crc(arr)), im.hdr);
    SealSizedFrame(v.crc, im.hdrBak, v.crc(arrBak), HeaderSize(im.hdr));
    FrameFixesFields(UpdateCrc(v, e).hdrBak, im.hdrBak);
    if HeaderSize(im.hdr) == HeaderSize(im.hdrBak) {
      UpdateCrcSealsBackup(v, e);
      SetEntriesCrcIsSound(v.crc, im.hdrBak, v.crc(arrBak));
    }
  }

  //// Commit

  predicate AnyValid(v: Device, d: Disk) {
    CopyValid(v, d, Primary) || CopyValid(v, d, Secondary)
  }

  function CommitGoal(v: Device): (goal: Goal) {
    Goal(d => true, d => AnyValid(v, d), d => AnyValid(v, d), (w: Write, g: ByteString) => true)
  }

  lemma ImageAlive(v: Device, l: Layout, d0: Disk, im: Image)
    requires Fits(v, l, |d0|) && Shape(v, l, im) && (PrimaryGood(v, l, im) || SecondaryGood(v, l, im))
    ensures AnyValid(v, PutImage(v, l, d0, im))
  {
    hide PutImage, CopyValid;
    CopiesOfImage(v, l, d0, im);
  }

  /** One write in front of a safe rest, safe if every tear of it leaves a good copy. */
  lemma CommitCons(v: Device, d: Disk, w: Write, ws: seq<Write>)
    requires WriteFits(|d|, w) && WritesFit(|d|, ws) && AnyValid(v, d)
    requires forall g: ByteString :: |g| == |w.data| ==> AnyValid(v, Apply(d, Write(w.off, g)))
    requires Safe(CommitGoal(v), Apply(d, w), ws)
    ensures WritesFit(|d|, [w] + ws) && Safe(CommitGoal(v), d, [w] + ws)
  {
    hide AnyValid, Apply;
    SafeCons(CommitGoal(v), d, w, ws);
  }

  ghost predicate CommitRest(v: Device, l: Layout, d0: Disk, im: Image, ws: seq<Write>) {
    && Fits(v, l, |d0|) && Shape(v, l, im) && WritesFit(|d0|, ws)
    && Safe(CommitGoal(v), PutImage(v, l, d0, im), ws)
  }

  /** While the secondary copy is good, the primary header and array may be written and torn. */
  lemma CommitHdr(v: Device, l: Layout, d0: Disk, im: Image, y: ByteString, ws: seq<Write>)
    requires Fits(v, l, |d0|) && Shape(v, l, im) && SecondaryGood(v, l, im) && |y| == v.blk
    requires CommitRest(v, l, d0, im.(hdr := y), ws)
    ensures CommitRest(v, l, d0, im, [Write(v.blk, y)] + ws)
  {
    hide PutImage, AnyValid, Safe, Apply, SecondaryGood, PrimaryGood;
    forall g: ByteString | |g| == |y| ensures AnyValid(v, Apply(PutImage(v, l, d0, im), Write(v.blk, g))) {
      WriteHdr(v, l, d0, im, g);
      SecondaryByParts(v, l, im, im.(hdr := g));
      ImageAlive(v, l, d0, im.(hdr := g));
    }
    ImageAlive(v, l, d0, im);
    WriteHdr(v, l, d0, im, y);
    CommitCons(v, PutImage(v, l, d0, im), Write(v.blk, y), ws);
  }

  lemma CommitArr(v: Device, l: Layout, d0: Disk, im: Image, y: ByteString, ws: seq<Write>)
    requires Fits(v, l, |d0|) && Shape(v, l, im) && SecondaryGood(v, l, im) && |y| == l.len
    requires CommitRest(v, l, d0, im.(arr := y), ws)
    ensures CommitRest(v, l, d0, im, [Write(l.e1, y)] + ws)
  {
    hide PutImage, AnyValid, Safe, Apply, SecondaryGood, PrimaryGood;
    forall g: ByteString | |g| == |y| ensures AnyValid(v, Apply(PutImage(v, l, d0, im), Write(l.e1, g))) {
      WriteArr(v, l, d0, im, g);
      SecondaryByParts(v, l, im, im.(arr := g));
      ImageAlive(v, l, d0, im.(arr := g));
    }
    ImageAlive(v, l, d0, im);
    WriteArr(v, l, d0, im, y);
    CommitCons(v, PutImage(v, l, d0, im), Write(l.e1, y), ws);
  }

  /** While the primary copy is good, the secondary header and array may be. */
  lemma CommitHdrBak(v: Device, l: Layout, d0: Disk, im: Image, y: ByteString, ws: seq<Write>)
    requires Fits(v, l, |d0|) && Shape(v, l, im) && PrimaryGood(v, l, im) && |y| == v.blk
    requires CommitRest(v, l, d0, im.(hdrBak := y), ws)
    ensures CommitRest(v, l, d0, im, [Write(|d0| - v.blk, y)] + ws)
  {
    hide PutImage, AnyValid, Safe, Apply, SecondaryGood, PrimaryGood;
    forall g: ByteString | |g| == |y| ensures AnyValid(v, Apply(PutImage(v, l, d0, im), Write(|d0| - v.blk, g))) {
      WriteHdr(v, l, d0, im, g);
      PrimaryByParts(v, l, im, im.(hdrBak := g));
      ImageAlive(v, l, d0, im.(hdrBak := g));
    }
    ImageAlive(v, l, d0, im);
    WriteHdr(v, l, d0, im, y);
    CommitCons(v, PutImage(v, l, d0, im), Write(|d0| - v.blk, y), ws);
  }

  lemma CommitArrBak(v: Device, l: Layout, d0: Disk, im: Image, y: ByteString, ws: seq<Write>)
    requires Fits(v, l, |d0|) && Shape(v, l, im) && PrimaryGood(v, l, im) && |y| == l.len
    requires CommitRest(v, l, d0, im.(arrBak := y), ws)
    ensures CommitRest(v, l, d0, im, [Write(l.e2, y)] + ws)
  {
    hide PutImage, AnyValid, Safe, Apply, SecondaryGood, PrimaryGood;
    forall g: ByteString | |g| == |y| ensures AnyValid(v, Apply(PutImage(v, l, d0, im), Write(l.e2, g))) {
      WriteArrBak(v, l, d0, im, g);
      PrimaryByParts(v, l, im, im.(arrBak := g));
      ImageAlive(v, l, d0, im.(arrBak := g));
    }
    ImageAlive(v, l, d0, im);
    WriteArrBak(v, l, d0, im, y);
    CommitCons(v, PutImage(v, l, d0, im), Write(l.e2, y), ws);
  }

  lemma SecondaryByParts(v: Device, l: Layout, a: Image, b: Image)
    requires SecondaryGood(v, l, a) && a.hdrBak == b.hdrBak && a.arrBak == b.arrBak
    ensures SecondaryGood(v, l, b)
  {
  }

  lemma PrimaryByParts(v: Device, l: Layout, a: Image, b: Image)
    requires PrimaryGood(v, l, a) && a.hdr == b.hdr && a.arr == b.arr
    ensures PrimaryGood(v, l, b)
  {
  }

  lemma CommitEnd(v: Device, l: Layout, d0: Disk, im: Image)
    requires Fits(v, l, |d0|) && Shape(v, l, im) && PrimaryGood(v, l, im)
    ensures CommitRest(v, l, d0, im, [])
  {
    ImageAlive(v, l, d0, im);
  }

  /** All four writes of a commit are safe at every boundary and in every tear. */
  lemma CommitSafe(v: Device, l: Layout, d0: Disk, old': Image, im: Image)
    requires Fits(v, l, |d0|) && Shape(v, l, old') && SecondaryGood(v, l, old')
    requires ImageFits(v, l, im) && PrimaryGood(v, l, im)
    ensures CommitRest(v, l, d0, old', CommitWrites(v, l, |d0|, im))
  {
    hide CommitRest, PrimaryGood, SecondaryGood, Describes;
    var i1 := old'.(hdr := im.hdr);
    var i2 := i1.(arr := im.arr);
    var i3 := i2.(hdrBak := im.hdrBak);
    var i4 := i3.(arrBak := im.arrBak);
    SecondaryByParts(v, l, old', i1);
    PrimaryByParts(v, l, im, i2);
    PrimaryByParts(v, l, im, i3);
    PrimaryByParts(v, l, im, i4);
    CommitEnd(v, l, d0, i4);
    CommitArrBak(v, l, d0, i3, im.arrBak, []);
    var w4 := [Write(l.e2, im.arrBak)];
    assert w4 + [] == w4;
    CommitHdrBak(v, l, d0, i2, im.hdrBak, w4);
    var w3 := [Write(|d0| - v.blk, im.hdrBak)] + w4;
    CommitArr(v, l, d0, i1, im.arr, w3);
    var w2 := [Write(l.e1, im.arr)] + w3;
    CommitHdr(v, l, d0, old', im.hdr, w2);
    assert [Write(v.blk, im.hdr)] + w2 == CommitWrites(v, l, |d0|, im);
  }

  lemma CommitPrimaryHalf(v: Device, l: Layout, d0: Disk, i0: Image, im: Image)
    requires Fits(v, l, |d0|) && Shape(v, l, i0) && Shape(v, l, im)
    ensures ApplyAll(PutImage(v, l, d0, i0), [Write(v.blk, im.hdr), Write(l.e1, im.arr)])
      == PutImage(v, l, d0, i0.(hdr := im.hdr, arr := im.arr))
  {
    hide PutImage, Apply;
    var i1 := i0.(hdr := im.hdr);
    WriteHdr(v, l, d0, i0, im.hdr);
    WriteArr(v, l, d0, i1, im.arr);
    ApplyTwo(PutImage(v, l, d0, i0), Write(v.blk, im.hdr), Write(l.e1, im.arr));
  }

  lemma CommitSecondaryHalf(v: Device, l: Layout, d0: Disk, i0: Image, im: Image)
    requires Fits(v, l, |d0|) && Shape(v, l, i0) && Shape(v, l, im)
    ensures ApplyAll(PutImage(v, l, d0, i0), [Write(|d0| - v.blk, im.hdrBak), Write(l.e2, im.arrBak)])
      == PutImage(v, l, d0, i0.(hdrBak := im.hdrBak, arrBak := im.arrBak))
  {
    hide PutImage, Apply;
    var i1 := i0.(hdrBak := im.hdrBak);
    WriteHdr(v, l, d0, i0, im.hdrBak);
    WriteArrBak(v, l, d0, i1, im.arrBak);
    ApplyTwo(PutImage(v, l, d0, i0), Write(|d0| - v.blk, im.hdrBak), Write(l.e2, im.arrBak));
  }

  /** A commit that goes through leaves exactly the image, on an otherwise unchanged disk. */
  lemma CommitLands(v: Device, l: Layout, d: Disk, im: Image)
    requires Fits(v, l, |d|) && ImageFits(v, l, im)
    ensures Shape(v, l, im) && ApplyAll(d, CommitWrites(v, l, |d|, im)) == PutImage(v, l, d, im)
  {
    hide PutImage, Describes, Apply, ApplyAll;
    var i0 := Load(v, l, d);
    var mid := i0.(hdr := im.hdr, arr := im.arr);
    PutImageOfLoad(v, l, d);
    CommitPrimaryHalf(v, l, d, i0, im);
    CommitSecondaryHalf(v, l, d, mid, im);
    var a := [Write(v.blk, im.hdr), Write(l.e1, im.arr)];
    var b := [Write(|d| - v.blk, im.hdrBak), Write(l.e2, im.arrBak)];
    assert mid.(hdrBak := im.hdrBak, arrBak := im.arrBak) == im;
    assert a + b == CommitWrites(v, l, |d|, im);
    ApplyConcat(d, a, b);
  }

  /**
   Commit safety. Load a disk with two valid copies, edit the arrays at will, update the checksums and
   commit: whatever fault strikes, one copy is valid. A commit that completes reloads as the image
   that was committed and has changed nothing else; its primary copy is valid, and its secondary
   exactly when the backup header was sealed, as it is whenever the header sizes agree.
   */
  lemma EditedCommitSafe(v: Device, l: Layout, d: Disk, arr: ByteString, arrBak: ByteString, f: Fault)
    requires Described(v, l, d) && CopyValid(v, d, Primary) && CopyValid(v, d, Secondary)
    requires |arr| == |arrBak| == l.len
    ensures ImageFits(v, l, UpdateCrc(v, Load(v, l, d).(arr := arr, arrBak := arrBak)))
    ensures var im := UpdateCrc(v, Load(v, l, d).(arr := arr, arrBak := arrBak));
      var o := Perform(d, CommitWrites(v, l, |d|, im), f);
      && (CopyValid(v, o.disk, Primary) || CopyValid(v, o.disk, Secondary))
      && (o.ok ==>
          && CopyValid(v, o.disk, Primary)
          && (CopyValid(v, o.disk, Secondary) <==> CrcOk(v.crc, im.hdrBak))
          && Load(v, l, o.disk) == im && im.arr == arr && im.arrBak == arrBak
          && Shape(v, l, im) && o.disk == PutImage(v, l, d, im))
      && (HeaderSize(Header(v, d, Primary)) == HeaderSize(Header(v, d, Secondary)) ==> CrcOk(v.crc, im.hdrBak))
  {
    hide CopyValid, PrimaryGood, SecondaryGood, PutImage, UpdateCrc, EntriesOff, Perform, Safe, CrcOk, HeaderSize;
    var i0 := Load(v, l, d);
    var im := UpdateCrc(v, i0.(arr := arr, arrBak := arrBak));
    GoodOfValid(v, l, d);
    PutImageOfLoad(v, l, d);
    EditedIsGood(v, l, i0, arr, arrBak);
    CommitSafe(v, l, d, i0, im);
    var ws := CommitWrites(v, l, |d|, im);
    SafeOutcome(CommitGoal(v), d, ws, f);
    if Perform(d, ws, f).ok {
      PerformComplete(d, ws, f);
      CommitLands(v, l, d, im);
      LoadOfPutImage(v, l, d, im);
      CopiesOfImage(v, l, d, im);
      ImageIsDescribed(v, l, d, im);
      GoodOfValid(v, l, PutImage(v, l, d, im));
    }
  }

  /** The image on the disk after k of the four writes: headers before arrays, primary before secondary. */
  function Partly(a: Image, b: Image, k: nat): (r: Image) {
    Image(if k > 0 then b.hdr else a.hdr, if k > 2 then b.hdrBak else a.hdrBak,
          if k > 1 then b.arr else a.arr, if k > 3 then b.arrBak else a.arrBak)
  }

  /** The four writes, one by one. */
  lemma FourWrites(v: Device, l: Layout, d: Disk, im: Image)
    requires Fits(v, l, |d|) && Shape(v, l, im)
    ensures var i0 := Load(v, l, d);
      var d1 := Apply(d, Write(v.blk, im.hdr));
      var d2 := Apply(d1, Write(l.e1, im.arr));
      var d3 := Apply(d2, Write(|d| - v.blk, im.hdrBak));
      && d == PutImage(v, l, d, Partly(i0, im, 0)) && d1 == PutImage(v, l, d, Partly(i0, im, 1))
      && d2 == PutImage(v, l, d, Partly(i0, im, 2)) && d3 == PutImage(v, l, d, Partly(i0, im, 3))
      && Apply(d3, Write(l.e2, im.arrBak)) == PutImage(v, l, d, Partly(i0, im, 4))
  {
    hide PutImage, Apply;
    var i0 := Load(v, l, d);
    var i1 := i0.(hdr := im.hdr);
    var i2 := i1.(arr := im.arr);
    var i3 := i2.(hdrBak := im.hdrBak);
    PutImageOfLoad(v, l, d);
    WriteHdr(v, l, d, i0, im.hdr);
    WriteArr(v, l, d, i1, im.arr);
    WriteHdr(v, l, d, i2, im.hdrBak);
    WriteArrBak(v, l, d, i3, im.arrBak);
  }

  /** A commit cut after k writes leaves the first k of the four regions new and the rest old. */
  lemma CommitCutAfter(v: Device, l: Layout, d: Disk, im: Image, k: nat)
    requires Fits(v, l, |d|) && ImageFits(v, l, im) && k <= 4
    ensures Load(v, l, Perform(d, CommitWrites(v, l, |d|, im), Cut(k)).disk) == Partly(Load(v, l, d), im, k)
  {
    hide PutImage, Apply, Describes, Perform, Load;
    var ws, i0 := CommitWrites(v, l, |d|, im), Load(v, l, d);
    FourWrites(v, l, d, im);
    CutAfter(d, ws);
    CutLater(d, ws);
    LoadShape(v, l, d);
    LoadOfPutImage(v, l, d, Partly(i0, im, k));
  }

  lemma LoadShape(v: Device, l: Layout, d: Disk)
    requires Fits(v, l, |d|)
    ensures Shape(v, l, Load(v, l, d))
  {
  }

  lemma CutLater(d: Disk, ws: seq<Write>)
    requires WritesFit(|d|, ws) && |ws| == 4
    ensures Perform(d, ws, Cut(3)).disk == Apply(Apply(Apply(d, ws[0]), ws[1]), ws[2])
    ensures Perform(d, ws, Cut(4)).disk == Apply(Apply(Apply(Apply(d, ws[0]), ws[1]), ws[2]), ws[3])
  {
    hide Apply, Perform;
    var d2, rest := Apply(Apply(d, ws[0]), ws[1]), ws[2..];
    assert ws == [ws[0], ws[1]] + rest && rest[0] == ws[2] && rest[1] == ws[3];
    TwoPass(d, ws[0], ws[1], 3);
    TwoPass(d, ws[0], ws[1], 4);
    PerformAppend(d, [ws[0], ws[1]], rest, Cut(3));
    PerformAppend(d, [ws[0], ws[1]], rest, Cut(4));
    CutAfter(d2, rest);
  }

  lemma TwoPass(d: Disk, a: Write, b: Write, k: nat)
    requires WriteFits(|d|, a) && WriteFits(|d|, b) && k >= 2
    ensures Perform(d, [a, b], Cut(k)) == Outcome(Apply(Apply(d, a), b), true, Cut(k - 2))
  {
    hide Apply, Perform;
    PerformTwo(d, a, b, Cut(k));
  }

  /**
   The two paths together. Cut an edited commit anywhere, and then call for any stage under any
   fault: a valid copy is left. The disk is one that an update may start on, or one that the update
   refuses to touch.
   */
  lemma CommitThenUpdate(v: Device, l: Layout, d: Disk, arr: ByteString, arrBak: ByteString, k: nat, c: Call)
    requires Described(v, l, d) && CopyValid(v, d, Primary) && CopyValid(v, d, Secondary)
    requires |arr| == |arrBak| == l.len && k <= 4
    ensures ImageFits(v, l, UpdateCrc(v, Load(v, l, d).(arr := arr, arrBak := arrBak)))
    ensures var im := UpdateCrc(v, Load(v, l, d).(arr := arr, arrBak := arrBak));
      var d1 := Perform(d, CommitWrites(v, l, |d|, im), Cut(k)).disk;
      && Described(v, l, d1) && (Start(v, l, d1) || PreparePlan(v, l, d1, c.stage, c.env) == Plan(-1, []))
      && var d2 := Perform(d1, CallWrites(v, l, d1, c), c.fault).disk;
      CopyValid(v, d2, Primary) || CopyValid(v, d2, Secondary)
  {
    hide CopyValid, PutImage, UpdateCrc, EntriesOff, Perform, PreparePlan, CrcOk, HeaderSize, Start;
    var i0 := Load(v, l, d);
    var im := UpdateCrc(v, i0.(arr := arr, arrBak := arrBak));
    EditedCommitSafe(v, l, d, arr, arrBak, Cut(k));
    var d1 := Perform(d, CommitWrites(v, l, |d|, im), Cut(k)).disk;
    CommitCutAfter(v, l, d, im, k);
    EditedStates(v, l, d, arr, arrBak);
    PartlyDescribed(v, l, d, d1, im, k);
    StartOrNothing(v, l, d1, c.stage, c.env);
    CallKeepsACopy(v, l, d1, c);
  }

  /** The edited headers: the primary's is good, the backup's is good or fails its checksum. */
  lemma EditedStates(v: Device, l: Layout, d: Disk, arr: ByteString, arrBak: ByteString)
    requires Described(v, l, d) && CopyValid(v, d, Primary) && CopyValid(v, d, Secondary)
    requires |arr| == |arrBak| == l.len
    ensures ImageFits(v, l, UpdateCrc(v, Load(v, l, d).(arr := arr, arrBak := arrBak)))
    ensures var im := UpdateCrc(v, Load(v, l, d).(arr := arr, arrBak := arrBak));
      GetState(v.crc, im.hdr) == GptOk && GetState(v.crc, im.hdrBak) in {GptOk, GptBadCrc}
  {
    hide UpdateCrc, CrcOk, HeaderSize, EntriesOff, SigOk;
    GoodOfValid(v, l, d);
    EditedIsGood(v, l, Load(v, l, d), arr, arrBak);
  }

  lemma PartlyDescribed(v: Device, l: Layout, d: Disk, d1: Disk, im: Image, k: nat)
    requires Described(v, l, d) && CopyValid(v, d, Primary) && CopyValid(v, d, Secondary)
    requires ImageFits(v, l, im) && |d1| == |d| && Load(v, l, d1) == Partly(Load(v, l, d), im, k)
    requires GetState(v.crc, im.hdr) == GptOk && GetState(v.crc, im.hdrBak) in {GptOk, GptBadCrc}
    ensures Described(v, l, d1) && DetectedStage(v, d1) in {Abort, Detected(UpdateMain)}
  {
    hide GetState, EntriesOff, EntriesCrc, EntryCount, EntrySize;
  }

  //// The handle

  class GptDisk {
    var hdr: array<byte>
    var hdrBak: array<byte>
    var pentryArr: array<byte>
    var pentryArrBak: array<byte>
    var isInitialized: bool

    /** gpt_disk_alloc: a cleared handle. */
    constructor ()
      ensures !isInitialized
    {
      hdr, hdrBak := new byte[0], new byte[0];
      pentryArr, pentryArrBak := new byte[0], new byte[0];
      isInitialized := false;
    }

    ghost predicate Separated()
      reads this
    {
      hdr != hdrBak && hdr != pentryArr && hdr != pentryArrBak
      && hdrBak != pentryArr && hdrBak != pentryArrBak && pentryArr != pentryArrBak
    }

    ghost function Contents(): (im: Image)
      reads this, hdr, hdrBak, pentryArr, pentryArrBak
    {
      Image(hdr[..], hdrBak[..], pentryArr[..], pentryArrBak[..])
    }

    /** gpt_disk_get_disk_info: both headers, and the array that each of them describes. */
    method GetDiskInfo(dev: BlockDevice, ghost l: Layout)
      requires Described(dev.v, l, dev.disk)
      modifies this
      ensures isInitialized && Separated()
      ensures fresh(hdr) && fresh(hdrBak) && fresh(pentryArr) && fresh(pentryArrBak)
      ensures Contents() == Load(dev.v, l, dev.disk)
    {
      hide Describes, Times;
      var v := dev.v;
      hdr := dev.BlkRead(HeaderOff(v, |dev.disk|, Primary), v.blk);
      hdrBak := dev.BlkRead(HeaderOff(v, |dev.disk|, Secondary), v.blk);
      assert hdr[..] == Header(v, dev.disk, Primary) && hdrBak[..] == Header(v, dev.disk, Secondary);
      pentryArr := ReadArray(dev, l, hdr, l.e1);
      pentryArrBak := ReadArray(dev, l, hdrBak, l.e2);
      isInitialized := true;
    }

    /** gpt_get_pentry_arr. */
    static method ReadArray(dev: BlockDevice, ghost l: Layout, h: array<byte>, ghost at: nat) returns (arr: array<byte>)
      requires Describes(dev.v, h[..], l, at) && l.len == Times(l.count, l.entry) && at + l.len <= |dev.disk|
      ensures fresh(arr) && arr[..] == dev.disk[at..at + l.len]
    {
      var start, len := ArrayPlace(dev.v, l, h, at);
      arr := dev.BlkRead(start, len);
    }

    static method ArrayPlace(v: Device, ghost l: Layout, h: array<byte>, ghost at: nat) returns (start: nat, len: nat)
      requires Describes(v, h[..], l, at) && l.len == Times(l.count, l.entry)
      ensures start == at && len == l.len
    {
      TimesIsProduct(EntriesLba(h[..]), v.blk);
      TimesIsProduct(l.count, l.entry);
      start := Get8(h[..], PENTRIES_OFFSET) * v.blk;
      len := Get4(h[..], PARTITION_COUNT_OFFSET) * Get4(h[..], PENTRY_SIZE_OFFSET);
    }

    /** gpt_disk_update_crc: -1 on a handle that was never loaded. */
    method UpdateCrcs(v: Device) returns (r: int)
      requires isInitialized ==> Separated() && InBlock(hdr[..]) && hdrBak.Length == hdr.Length
      modifies hdr, hdrBak
      ensures r == if isInitialized then 0 else -1
      ensures Contents() == if isInitialized then UpdateCrc(v, old(Contents())) else old(Contents())
    {
      if !isInitialized {
        return -1;
      }
      ghost var im := Contents();
      EditEntriesCrc(im.hdr, v.crc(im.arr));
      var arrCrc, bakCrc := v.crc(pentryArr[..]), v.crc(pentryArrBak[..]);
      PutFourBytes(hdr, PARTITION_CRC_OFFSET, arrCrc);
      PutFourBytes(hdrBak, PARTITION_CRC_OFFSET, bakCrc);
      ghost var h, b := hdr[..], hdrBak[..];
      var size := Get4(hdr[..], HEADER_SIZE_OFFSET);
      FrameFixesFields(h, im.hdr);
      PutFourBytes(hdr, HEADER_CRC_OFFSET, 0);
      PutFourBytes(hdrBak, HEADER_CRC_OFFSET, 0);
      var hdrCrc, hdrBakCrc := v.crc(hdr[..][..size]), v.crc(hdrBak[..][..size]);
      PutFourBytes(hdr, HEADER_CRC_OFFSET, hdrCrc);
      PutFourBytes(hdrBak, HEADER_CRC_OFFSET, hdrBakCrc);
      SpliceOver(h, HEADER_CRC_OFFSET, Le(0, 4), Le(hdrCrc, 4));
      SpliceOver(b, HEADER_CRC_OFFSET, Le(0, 4), Le(hdrBakCrc, 4));
      r := 0;
    }

    /** gpt_disk_commit: four writes, stopping at the first that fails. */
    method Commit(dev: BlockDevice, ghost l: Layout) returns (r: int)
      requires isInitialized ==> Fits(dev.v, l, |dev.disk|) && ImageFits(dev.v, l, Contents())
      modifies dev
      ensures !isInitialized ==> r == -1 && dev.disk == old(dev.disk) && dev.fault == old(dev.fault)
      ensures isInitialized ==>
        var p := Plan(0, CommitWrites(dev.v, l, |old(dev.disk)|, Contents()));
        Follows(old(dev.disk), old(dev.fault), p, dev.disk, dev.fault, r)
    {
      if !isInitialized {
        return -1;
      }
      hide Perform, Describes;
      ghost var d, f, im := dev.disk, dev.fault, Contents();
      ghost var w1, w2 := Write(dev.v.blk, im.hdr), Write(l.e1, im.arr);
      ghost var w3, w4 := Write(|d| - dev.v.blk, im.hdrBak), Write(l.e2, im.arrBak);
      var start, _ := ArrayPlace(dev.v, l, hdr, l.e1);
      var startBak, _ := ArrayPlace(dev.v, l, hdrBak, l.e2);
      var ok := dev.WriteCopy(HeaderOff(dev.v, |dev.disk|, Primary), hdr, start, pentryArr);
      if ok {
        ok := dev.WriteCopy(HeaderOff(dev.v, |dev.disk|, Secondary), hdrBak, startBak, pentryArrBak);
      }
      PerformAppend(d, [w1, w2], [w3, w4], f);
      assert [w1, w2] + [w3, w4] == CommitWrites(dev.v, l, |d|, im);
      r := if ok then 0 else -1;
    }
  }
}
