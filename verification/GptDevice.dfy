/**
 The fail-safe update as gpt-utils runs it: header and entry buffers edited in place, block by
 block, against a device that may refuse or tear a write. Each method is proved against the plan
 of GptProtocol, so every result of GptSafety and GptRecovery is about these methods.
 */
module GptDevice {
  import opened Bytes
  import opened GptHeader
  import opened BootChain
  import opened EntryTable
  import opened GptProtocol
  import opened GptSafety

  /** What a call leaves: the planned writes up to the first that fails, and -1 if one failed. */
  ghost predicate Follows(d: Disk, f: Fault, p: Plan, d': Disk, f': Fault, r: int)
    requires WritesFit(|d|, p.writes)
  {
    var o := Perform(d, p.writes, f);
    d' == o.disk && f' == o.fault && r == if o.ok then p.code else -1
  }

  lemma PerformNothing(d: Disk, f: Fault)
    ensures Perform(d, [], f) == Outcome(d, true, f)
  {
  }

  lemma PerformTwo(d: Disk, a: Write, b: Write, f: Fault)
    requires WriteFits(|d|, a) && WriteFits(|d|, b)
    ensures var o := Attempt(d, a, f);
      Perform(d, [a, b], f) == if o.ok then Attempt(o.disk, b, o.fault) else o
  {
    assert [a, b][1..] == [b];
    PerformOne(Attempt(d, a, f).disk, b, Attempt(d, a, f).fault);
  }

  lemma PerformOne(d: Disk, w: Write, f: Fault)
    requires WriteFits(|d|, w)
    ensures Perform(d, [w], f) == Attempt(d, w, f)
  {
  }

  class BlockDevice {
    const v: Device
    const swapList: seq<string>
    var disk: Disk
    var fault: Fault

    constructor (blk: nat, crc: Checksum, ufs: bool, passes: ByteString -> bool, disk: Disk, fault: Fault)
      ensures v == Device(blk, crc, ufs, Kept(SWAP_LIST, ufs), passes) && ListMatches()
      ensures this.disk == disk && this.fault == fault
    {
      this.v := Device(blk, crc, ufs, Kept(SWAP_LIST, ufs), passes);
      this.swapList := SWAP_LIST;
      this.disk := disk;
      this.fault := fault;
    }

    /** The names the device swaps are those of its list that its kind does not skip. */
    predicate ListMatches() {
      v.names == Kept(swapList, v.ufs)
    }

    /** blk_rw, reading. */
    method BlkRead(off: nat, len: nat) returns (buf: array<byte>)
      requires off + len <= |disk|
      ensures fresh(buf) && buf[..] == disk[off..off + len]
    {
      buf := new byte[len](i requires 0 <= i < len && off + len <= |disk| reads this => disk[off + i]);
    }

    /** blk_rw, writing: the armed fault decides whether and how far the write goes. */
    method BlkWrite(off: nat, buf: array<byte>) returns (ok: bool)
      requires off + buf.Length <= |disk|
      modifies this
      ensures Attempt(old(disk), Write(off, buf[..]), old(fault)) == Outcome(disk, ok, fault)
    {
      var w := Write(off, buf[..]);
      match fault {
        case NoFault =>
          disk := Apply(disk, w);
          ok := true;
        case Cut(k) =>
          ok := k > 0;
          if ok {
            disk := Apply(disk, w);
            fault := Cut(k - 1);
          }
        case Torn(k, g) =>
          ok := k > 0;
          if ok {
            disk := Apply(disk, w);
            fault := Torn(k - 1, g);
          } else {
            if |g| == buf.Length {
              disk := Apply(disk, Write(off, g));
            }
            fault := Cut(0);
          }
      }
    }

    /** A header block and then an entry array. */
    method WriteCopy(off: nat, hdr: array<byte>, start: nat, arr: array<byte>) returns (ok: bool)
      requires off + hdr.Length <= |disk| && start + arr.Length <= |disk|
      modifies this
      ensures |disk| == |old(disk)|
      ensures Perform(old(disk), [Write(off, hdr[..]), Write(start, arr[..])], old(fault)) == Outcome(disk, ok, fault)
    {
      hide Perform, Apply;
      PerformTwo(disk, Write(off, hdr[..]), Write(start, arr[..]), fault);
      ok := BlkWrite(off, hdr);
      if ok {
        ok := BlkWrite(start, arr);
      }
    }

    /** gpt_get_state: the checksum stays inside the block exactly when the size field does. */
    method GptGetState(g: Instance) returns (state: GptState, inside: bool)
      requires HasBlocks(v, |disk|)
      ensures state == ReadState(v, Header(v, disk, g))
      ensures inside <==> InBlock(Header(v, disk, g))
    {
      ghost var h := Header(v, disk, g);
      var hdr := BlkRead(HeaderOff(v, |disk|, g), v.blk);
      assert hdr[..] == h;
      state := GptOk;
      if hdr[..9] != SIGNATURE {
        state := GptBadSignature;
      }
      var size := Get4(hdr[..], HEADER_SIZE_OFFSET);
      inside := size <= hdr.Length;
      var good;
      if inside {
        var crc := Get4(hdr[..], HEADER_CRC_OFFSET);
        PutFourBytes(hdr, HEADER_CRC_OFFSET, 0);
        good := v.crc(hdr[..][..size]) == crc;
      } else {
        good := v.passes(hdr[..]);
      }
      if !good {
        state := GptBadCrc;
      }
    }

    /** gpt_set_state: mark, re-seal and write back one header block. */
    method GptSetState(g: Instance, ok: bool) returns (done: bool)
      requires HasBlocks(v, |disk|) && InBlock(Header(v, disk, g))
      modifies this
      ensures |disk| == |old(disk)|
      ensures Perform(old(disk), [SetStateWrite(v, old(disk), g, ok)], old(fault)) == Outcome(disk, done, fault)
    {
      hide Mark, Seal, Perform;
      ghost var h := Header(v, disk, g);
      var hdr := BlkRead(HeaderOff(v, |disk|, g), v.blk);
      assert hdr[..] == h;
      MarkInPlace(hdr, ok);
      FrameFixesFields(Mark(h, ok), h);
      SealInPlace(hdr);
      PerformOne(disk, Write(HeaderOff(v, |disk|, g), hdr[..]), fault);
      done := BlkWrite(HeaderOff(v, |disk|, g), hdr);
    }

    method MarkInPlace(hdr: array<byte>, ok: bool)
      requires hdr.Length >= HEADER_MIN
      modifies hdr
      ensures hdr[..] == Mark(old(hdr[..]), ok)
    {
      if ok {
        var sig := new byte[|SIGNATURE|](i requires 0 <= i < |SIGNATURE| => SIGNATURE[i]);
        assert sig[0..|SIGNATURE|] == SIGNATURE;
        MemCpy(hdr, 0, sig, 0, |SIGNATURE|);
      } else {
        hdr[0] := 0;
      }
    }

    /** The checksum field is cleared, the checksum taken, and the field filled in. */
    method SealInPlace(hdr: array<byte>)
      requires InBlock(hdr[..])
      modifies hdr
      ensures hdr[..] == Seal(v.crc, old(hdr[..]))
    {
      ghost var h := hdr[..];
      var size := Get4(hdr[..], HEADER_SIZE_OFFSET);
      PutFourBytes(hdr, HEADER_CRC_OFFSET, 0);
      var crc := v.crc(hdr[..][..size]);
      PutFourBytes(hdr, HEADER_CRC_OFFSET, crc);
      SpliceOver(h, HEADER_CRC_OFFSET, Le(0, 4), Le(crc, 4));
    }

    /** gpt2_set_boot_chain: check, swap if asked to, then write the secondary tables. */
    method Gpt2SetBootChain(ghost l: Layout, chain: Chain) returns (r: int)
      requires Described(v, l, disk) && ListMatches()
      modifies this
      ensures |disk| == |old(disk)|
      ensures Follows(old(disk), old(fault), BootChainPlan(v, l, old(disk), chain), disk, fault, r)
    {
      hide Perform, SwapTable, Found, ChainWrites, ChainTables, Chunks, EntriesCrc;
      ghost var d := disk;
      var hdr := BlkRead(HeaderOff(v, |disk|, Primary), v.blk);
      assert hdr[..] == Header(v, d, Primary);
      var size := Get4(hdr[..], PENTRY_SIZE_OFFSET);
      var pentries := ReadEntries(l, hdr);
      if EntriesCrc(hdr[..]) != v.crc(pentries[..]) {
        PerformNothing(disk, fault);
        return -1;
      }
      if chain.BackupBoot? {
        var backupNotFound := BootChainSwap(pentries, size, swapList, v.ufs, l.count);
        if backupNotFound {
          PerformNothing(disk, fault);
          return 1;
        }
      }
      assert pentries[..] == ChainEntries(v, l, d[l.e1..l.e1 + l.len], chain);
      SwapTableShape(d[l.e1..l.e1 + l.len], l.entry, l.count, v.names);
      var ok := WriteSecondaryTables(l, pentries);
      r := if ok then 0 else -1;
    }

    /** The secondary header with its checksums updated, and then the secondary array. */
    method WriteSecondaryTables(ghost l: Layout, pentries: array<byte>) returns (ok: bool)
      requires Described(v, l, disk) && pentries.Length == l.len
      modifies this
      ensures |disk| == |old(disk)|
      ensures var y := ChainTables(v, Take(v, l, old(disk)), pentries[..]);
        Perform(old(disk), ChainWrites(v, l, |disk|, y), old(fault)) == Outcome(disk, ok, fault)
    {
      hide SetEntriesCrc, Perform, Describes;
      var hdr := SecondaryHeader(l, v.crc(pentries[..]));
      var start := SecondaryStart(l);
      ok := WriteCopy(HeaderOff(v, |disk|, Secondary), hdr, start, pentries);
    }

    method SecondaryHeader(ghost l: Layout, crc: u32) returns (hdr: array<byte>)
      requires Described(v, l, disk)
      ensures fresh(hdr) && hdr[..] == SetEntriesCrc(v.crc, Header(v, disk, Secondary), crc)
    {
      hdr := BlkRead(HeaderOff(v, |disk|, Secondary), v.blk);
      ghost var s := Header(v, disk, Secondary);
      assert hdr[..] == s;
      EditEntriesCrc(s, crc);
      PutFourBytes(hdr, PARTITION_CRC_OFFSET, crc);
      SealInPlace(hdr);
    }

    method SecondaryStart(ghost l: Layout) returns (start: nat)
      requires Described(v, l, disk)
      ensures start == l.e2
    {
      var hdr := BlkRead(HeaderOff(v, |disk|, Secondary), v.blk);
      assert hdr[..] == Header(v, disk, Secondary);
      TimesIsProduct(EntriesLba(hdr[..]), v.blk);
      start := Get8(hdr[..], PENTRIES_OFFSET) * v.blk;
    }

    /** The primary entry array, at the place and of the size that its header gives. */
    method ReadEntries(ghost l: Layout, hdr: array<byte>) returns (pentries: array<byte>)
      requires Fits(v, l, |disk|) && Describes(v, hdr[..], l, l.e1)
      ensures fresh(pentries) && pentries[..] == disk[l.e1..l.e1 + l.len]
    {
      var start := Get8(hdr[..], PENTRIES_OFFSET) * v.blk;
      var len := Get4(hdr[..], PARTITION_COUNT_OFFSET) * Get4(hdr[..], PENTRY_SIZE_OFFSET);
      TimesIsProduct(EntriesLba(hdr[..]), v.blk);
      TimesIsProduct(l.count, l.entry);
      pentries := BlkRead(start, len);
    }

    /** prepare_partitions. */
    method PreparePartitions(ghost l: Layout, stage: Stage, env: Env) returns (r: int)
      requires Sane(v, l, disk) && ListMatches()
      modifies this
      ensures |disk| == |old(disk)|
      ensures Follows(old(disk), old(fault), PreparePlan(v, l, old(disk), stage, env), disk, fault, r)
    {
      hide Perform, StagePlan, ReadState, ListMatches;
      PerformNothing(disk, fault);
      var prim, _ := GptGetState(Primary);
      var second, _ := GptGetState(Secondary);
      if prim == GptBadCrc || second == GptBadCrc {
        return -1;
      }
      if prim == GptBadSignature && second == GptBadSignature {
        return -1;
      }
      var internal;
      if prim == GptOk && second == GptOk {
        internal := UpdateMain;
      } else if prim == GptBadSignature {
        internal := UpdateBackup;
      } else {
        internal := UpdateFinalize;
      }
      if StageNumber(stage) == StageNumber(internal) - 1 {
        return 0;
      }
      if stage != internal {
        return -1;
      }
      if !stage.UpdateFinalize? && v.ufs && env.xblPresent && !env.lunSwitched {
        return -1;
      }
      DetectedIsDescribed(v, l, disk, stage);
      r := RunStage(l, stage);
    }

    /**
     Calls one after another, each meeting its own fault: the runs of GptSafety, up to and including
     the call at which one stops.
     */
    method RunCalls(ghost l: Layout, calls: seq<Call>)
      requires Start(v, l, disk) && Inv(v, l, disk, disk) && ListMatches()
      requires forall n :: 0 <= n < |calls| ==> Run(v, l, disk, disk, calls[..n]).Running?
      modifies this
      ensures disk == Run(v, l, old(disk), old(disk), calls).disk
      ensures Survives(v, l, old(disk), disk)
    {
      hide Inv, Start, ListMatches, Run, PreparePlan, Survives, Sane, Perform;
      ghost var d0 := disk;
      var i := 0;
      RunNothing(v, l, d0);
      while i < |calls|
        invariant i <= |calls|
        invariant Run(v, l, d0, d0, calls[..i]).disk == disk
      {
        assert Run(v, l, d0, d0, calls[..i]).Running?;
        InvIsSane(v, l, d0, disk);
        RunSnoc(v, l, d0, d0, calls, i);
        fault := calls[i].fault;
        var _ := PreparePartitions(l, calls[i].stage, calls[i].env);
        i := i + 1;
      }
      assert calls[..i] == calls;
    }

    method RunStage(ghost l: Layout, stage: Stage) returns (r: int)
      requires Described(v, l, disk) && ListMatches()
      modifies this
      ensures |disk| == |old(disk)|
      ensures Follows(old(disk), old(fault), StagePlan(v, l, old(disk), stage), disk, fault, r)
    {
      hide Follows, MainPlan, BackupPlan, FinalizePlan;
      match stage {
        case UpdateMain => r := RunMain(l);
        case UpdateBackup => r := RunBackup(l);
        case UpdateFinalize => r := RunFinalize(l);
      }
    }

    method RunMain(ghost l: Layout) returns (r: int)
      requires Described(v, l, disk) && ListMatches()
      modifies this
      ensures |disk| == |old(disk)|
      ensures Follows(old(disk), old(fault), MainPlan(v, l, old(disk)), disk, fault, r)
    {
      hide Follows, MainPlan, BootChainPlan, Perform;
      r := Gpt2SetBootChain(l, BackupBoot);
      ChainFollowed(v, l, old(disk), old(fault), BackupBoot, disk, fault, r);
      ghost var d, f, r1 := disk, fault, r;
      var ok := true;
      if r == 0 {
        ok := GptSetState(Primary, false);
        r := if ok then 0 else -1;
      } else if r > 0 {
        r := 0;
      }
      MainFollows(v, l, old(disk), old(fault), d, f, r1, disk, fault, ok);
    }

    method RunBackup(ghost l: Layout) returns (r: int)
      requires Described(v, l, disk)
      modifies this
      ensures |disk| == |old(disk)|
      ensures Follows(old(disk), old(fault), BackupPlan(v, l, old(disk)), disk, fault, r)
    {
      hide Follows, BackupPlan, Perform, SetState;
      ghost var w := SetStateWrite(v, disk, Primary, true);
      PrimaryWriteKeepsSecondary(v, l, disk, w.data);
      var ok := GptSetState(Primary, true);
      PerformOne(old(disk), w, old(fault));
      ghost var d, f, ok1 := disk, fault, ok;
      AttemptOk(old(disk), w, old(fault));
      if ok {
        ok := GptSetState(Secondary, false);
      }
      r := if ok then 0 else -1;
      BackupFollows(v, l, old(disk), old(fault), d, f, ok1, disk, fault, ok);
    }

    method RunFinalize(ghost l: Layout) returns (r: int)
      requires Described(v, l, disk) && ListMatches()
      modifies this
      ensures |disk| == |old(disk)|
      ensures Follows(old(disk), old(fault), FinalizePlan(v, l, old(disk)), disk, fault, r)
    {
      hide Follows, FinalizePlan, BootChainPlan, Perform;
      r := Gpt2SetBootChain(l, NormalBoot);
      ChainFollowed(v, l, old(disk), old(fault), NormalBoot, disk, fault, r);
      ghost var d, f, r1 := disk, fault, r;
      var ok := true;
      if r >= 0 {
        ok := GptSetState(Secondary, true);
        r := if ok then 0 else -1;
      }
      FinalizeFollows(v, l, old(disk), old(fault), d, f, r1, disk, fault, ok);
    }
  }

  lemma RunNothing(v: Device, l: Layout, d: Disk)
    requires Inv(v, l, d, d)
    ensures Run(v, l, d, d, []) == Running(d)
  {
  }

  /** One more call at the end of a run that goes on. */
  lemma {:induction false} RunSnoc(v: Device, l: Layout, d0: Disk, d: Disk, calls: seq<Call>, n: nat)
    requires Inv(v, l, d0, d) && n < |calls| && Run(v, l, d0, d, calls[..n]).Running?
    ensures var e := Run(v, l, d0, d, calls[..n]).disk;
      && Sane(v, l, e)
      && Run(v, l, d0, d, calls[..n + 1]).disk == Perform(e, CallWrites(v, l, e, calls[n]), calls[n].fault).disk
    decreases n
  {
    hide Inv, Safe, CallWrites, Sane, Survives, TearSeen, Perform;
    InvIsSane(v, l, d0, Run(v, l, d0, d, calls[..n]).disk);
    if n == 0 {
      assert calls[..1][1..] == [];
    } else {
      var c, goal := calls[0], UpdateGoal(v, l, d0);
      CallSafe(v, l, d0, d, c);
      var ws := CallWrites(v, l, d, c);
      SafeOutcome(goal, d, ws, c.fault);
      assert calls[..n][1..] == calls[1..][..n - 1] && calls[..n + 1][1..] == calls[1..][..n];
      RunSnoc(v, l, d0, Perform(d, ws, c.fault).disk, calls[1..], n - 1);
    }
  }

  //// How the runs of the parts make up the run of a stage

  lemma AttemptOk(d: Disk, w: Write, f: Fault)
    requires WriteFits(|d|, w)
    ensures Attempt(d, w, f).ok ==> Attempt(d, w, f).disk == Apply(d, w)
  {
  }

  lemma {:induction false} PerformComplete(d: Disk, ws: seq<Write>, f: Fault)
    requires WritesFit(|d|, ws) && Perform(d, ws, f).ok
    ensures Perform(d, ws, f).disk == ApplyAll(d, ws)
    decreases |ws|
  {
    if ws != [] {
      AttemptOk(d, ws[0], f);
      PerformComplete(Attempt(d, ws[0], f).disk, ws[1..], Attempt(d, ws[0], f).fault);
    }
  }

  /** After a chain that went through, the disk is the planned one and its headers can be read. */
  lemma ChainFollowed(v: Device, l: Layout, d: Disk, f: Fault, chain: Chain, d1: Disk, f1: Fault, r: int)
    requires Described(v, l, d) && Follows(d, f, BootChainPlan(v, l, d, chain), d1, f1, r)
    ensures r in {-1, 0, 1} && (chain.NormalBoot? ==> r != 1)
    ensures r == 0 ==> d1 == ApplyAll(d, BootChainPlan(v, l, d, chain).writes)
    ensures r == 0 ==> |d1| == |d| && InBlock(Header(v, d1, Primary)) && InBlock(Header(v, d1, Secondary))
  {
    hide ChainEntries, Found, ChainWrites, ChainTables, EntriesCrc, Chunks, ApplyAll, Perform, Header, InBlock;
    var b := BootChainPlan(v, l, d, chain);
    if Perform(d, b.writes, f).ok {
      PerformComplete(d, b.writes, f);
      BootChainKeepsHeaders(v, l, d, chain);
    }
  }

  lemma MainFollows(v: Device, l: Layout, d: Disk, f: Fault, d1: Disk, f1: Fault, r1: int, d2: Disk, f2: Fault, ok: bool)
    requires Described(v, l, d) && Follows(d, f, BootChainPlan(v, l, d, BackupBoot), d1, f1, r1)
    requires r1 == 0 ==> |d1| == |d| && InBlock(Header(v, d1, Primary))
    requires r1 == 0 ==> Perform(d1, [SetStateWrite(v, d1, Primary, false)], f1) == Outcome(d2, ok, f2)
    requires r1 != 0 ==> d2 == d1 && f2 == f1
    ensures Follows(d, f, MainPlan(v, l, d), d2, f2, if r1 == 0 then if ok then 0 else -1 else if r1 > 0 then 0 else -1)
  {
    hide SetStateWrite, Perform, ApplyAll, Header, InBlock, ChainWrites, ChainTables, ChainEntries, Found, EntriesCrc, Chunks;
    ChainFollowed(v, l, d, f, BackupBoot, d1, f1, r1);
    PerformNothing(d, f);
    var b := BootChainPlan(v, l, d, BackupBoot);
    if b.code == 0 {
      BootChainKeepsHeaders(v, l, d, BackupBoot);
      PerformAppend(d, b.writes, [SetStateWrite(v, ApplyAll(d, b.writes), Primary, false)], f);
    }
  }

  lemma FinalizeFollows(v: Device, l: Layout, d: Disk, f: Fault, d1: Disk, f1: Fault, r1: int, d2: Disk, f2: Fault, ok: bool)
    requires Described(v, l, d) && Follows(d, f, BootChainPlan(v, l, d, NormalBoot), d1, f1, r1)
    requires r1 == 0 ==> |d1| == |d| && InBlock(Header(v, d1, Secondary))
    requires r1 == 0 ==> Perform(d1, [SetStateWrite(v, d1, Secondary, true)], f1) == Outcome(d2, ok, f2)
    requires r1 != 0 ==> d2 == d1 && f2 == f1
    ensures Follows(d, f, FinalizePlan(v, l, d), d2, f2, if r1 == 0 && ok then 0 else -1)
  {
    hide SetStateWrite, Perform, ApplyAll, Header, InBlock, ChainWrites, ChainTables, ChainEntries, Found, EntriesCrc, Chunks;
    ChainFollowed(v, l, d, f, NormalBoot, d1, f1, r1);
    PerformNothing(d, f);
    var b := BootChainPlan(v, l, d, NormalBoot);
    if b.code == 0 {
      BootChainKeepsHeaders(v, l, d, NormalBoot);
      PerformAppend(d, b.writes, [SetStateWrite(v, ApplyAll(d, b.writes), Secondary, true)], f);
    }
  }

  lemma BackupFollows(v: Device, l: Layout, d: Disk, f: Fault, d1: Disk, f1: Fault, ok1: bool, d2: Disk, f2: Fault, ok2: bool)
    requires Described(v, l, d)
    requires Attempt(d, SetStateWrite(v, d, Primary, true), f) == Outcome(d1, ok1, f1)
    requires ok1 ==> |d1| == |d| && InBlock(Header(v, d1, Secondary))
    requires ok1 ==> Perform(d1, [SetStateWrite(v, d1, Secondary, false)], f1) == Outcome(d2, ok2, f2)
    requires !ok1 ==> d2 == d1 && f2 == f1 && !ok2
    ensures Follows(d, f, BackupPlan(v, l, d), d2, f2, if ok2 then 0 else -1)
  {
    hide SetState, Perform, Attempt;
    var w := SetStateWrite(v, d, Primary, true);
    PrimaryWriteKeepsSecondary(v, l, d, w.data);
    var w2 := SetStateWrite(v, Apply(d, w), Secondary, false);
    AttemptOk(d, w, f);
    PerformTwo(d, w, w2, f);
    if ok1 {
      PerformOne(d1, w2, f1);
    }
  }

  lemma DetectedIsDescribed(v: Device, l: Layout, d: Disk, stage: Stage)
    requires Sane(v, l, d) && DetectedStage(v, d) == Detected(stage)
    ensures Described(v, l, d)
  {
  }
}
