/**
 The fail-safe update of gpt-utils: prepare_partitions drives three stages (MAIN, BACKUP,
 FINALIZE) whose only memory is the state of the two GPT headers on the disk. Every block write
 is one step; power may fail, or a write may be refused, between any two of them or in the
 middle of one.

 This module gives each call as a plan of writes, computed from the disk as the source computes
 it; GptDevice runs the same calls imperatively.
 */
module GptProtocol {
  import opened Bytes
  import opened GptHeader
  import opened BootChain
  import opened EntryTable

  type Disk = ByteString

  datatype Stage = UpdateMain | UpdateBackup | UpdateFinalize
  datatype Instance = Primary | Secondary
  datatype Chain = NormalBoot | BackupBoot

  /**
   What does not change while the device is up; `names` is the swap list of its kind. A header whose
   size field exceeds its block is checksummed together with the memory behind the buffer: `passes`
   tells whether that checksum happens to match.
   */
  datatype Device = Device(blk: nat, crc: Checksum, ufs: bool, names: seq<string>, passes: ByteString -> bool)

  /** What a call meets outside the disk: the xbl partitions, and the boot-LUN switch. */
  datatype Env = Env(xblPresent: bool, lunSwitched: bool)

  datatype Write = Write(off: nat, data: ByteString)
  datatype Plan = Plan(code: int, writes: seq<Write>)

  //// Reading a disk

  predicate HasBlocks(v: Device, size: nat) {
    v.blk >= HEADER_MIN && 3 * v.blk <= size
  }

  function HeaderOff(v: Device, size: nat, g: Instance): (o: nat)
    requires HasBlocks(v, size)
    ensures o + v.blk <= size
  {
    if g.Primary? then v.blk else size - v.blk
  }

  function Header(v: Device, d: Disk, g: Instance): (h: ByteString)
    requires HasBlocks(v, |d|)
    ensures |h| == v.blk
  {
    d[HeaderOff(v, |d|, g)..HeaderOff(v, |d|, g) + v.blk]
  }

  function EntriesOff(v: Device, h: ByteString): (o: nat)
    requires |h| >= HEADER_MIN
  {
    Times(EntriesLba(h), v.blk)
  }

  function ArraySize(h: ByteString): (n: nat)
    requires |h| >= HEADER_MIN
  {
    Times(EntryCount(h), EntrySize(h))
  }

  /** A GPT copy a boot loader would accept: signature, header checksum and entries checksum. */
  predicate CopyValid(v: Device, d: Disk, g: Instance) {
    && HasBlocks(v, |d|)
    && var h := Header(v, d, g);
    && InBlock(h)
    && GetState(v.crc, h) == GptOk
    && EntriesOff(v, h) + ArraySize(h) <= |d|
    && EntriesCrc(h) == v.crc(d[EntriesOff(v, h)..EntriesOff(v, h) + ArraySize(h)])
  }

  /** Where the two entry arrays lie, and their shape. */
  datatype Layout = Layout(e1: nat, e2: nat, count: nat, entry: nat, len: nat)

  /** Four disjoint regions: the arrays lie apart, between the two header blocks. */
  predicate Fits(v: Device, l: Layout, size: nat) {
    && HasBlocks(v, size)
    && l.entry >= PTN_ENTRY_SIZE && l.len == Times(l.count, l.entry) < 0x1_0000_0000
    && 2 * v.blk <= l.e1 && l.e1 + l.len <= size - v.blk
    && 2 * v.blk <= l.e2 && l.e2 + l.len <= size - v.blk
    && (l.e1 + l.len <= l.e2 || l.e2 + l.len <= l.e1)
  }

  /** A header that describes an array of the layout's shape at offset `at`. */
  predicate Describes(v: Device, h: ByteString, l: Layout, at: nat) {
    && InBlock(h)
    && EntriesOff(v, h) == at
    && EntryCount(h) == l.count && EntrySize(h) == l.entry
  }

  predicate Described(v: Device, l: Layout, d: Disk) {
    && Fits(v, l, |d|)
    && Describes(v, Header(v, d, Primary), l, l.e1)
    && Describes(v, Header(v, d, Secondary), l, l.e2)
  }

  /** The reader's checksum test comes out well. */
  predicate Passes(v: Device, h: ByteString)
    requires |h| >= HEADER_MIN
  {
    if InBlock(h) then CrcOk(v.crc, h) else v.passes(h)
  }

  /** gpt_get_state on a block: the state, wherever the reader's checksum reaches. */
  function ReadState(v: Device, h: ByteString): (s: GptState)
    requires |h| >= HEADER_MIN
    ensures s == GptBadCrc <==> !Passes(v, h)
    ensures InBlock(h) ==> s == GetState(v.crc, h)
  {
    if !Passes(v, h) then GptBadCrc else if !SigOk(h) then GptBadSignature else GptOk
  }

  /** What the source may rely on: sane fields once both checksums hold. */
  predicate Sane(v: Device, l: Layout, d: Disk) {
    && Fits(v, l, |d|)
    && (Passes(v, Header(v, d, Primary)) && Passes(v, Header(v, d, Secondary)) ==> Described(v, l, d))
  }

  //// Writing a disk

  predicate WriteFits(size: nat, w: Write) {
    w.off + |w.data| <= size
  }

  predicate WritesFit(size: nat, ws: seq<Write>) {
    forall i :: 0 <= i < |ws| ==> WriteFits(size, ws[i])
  }

  function Apply(d: Disk, w: Write): (r: Disk)
    requires WriteFits(|d|, w)
    ensures |r| == |d|
  {
    Splice(d, w.off, w.data)
  }

  function ApplyAll(d: Disk, ws: seq<Write>): (r: Disk)
    requires WritesFit(|d|, ws)
    ensures |r| == |d|
    decreases |ws|
  {
    if ws == [] then d else ApplyAll(Apply(d, ws[0]), ws[1..])
  }

  /**
   A fault of one call: none; refused or powered off after some writes; or the next write is torn
   and leaves arbitrary bytes in its range.
   */
  datatype Fault = NoFault | Cut(after: nat) | Torn(after: nat, garbage: ByteString)

  datatype Outcome = Outcome(disk: Disk, ok: bool, fault: Fault)

  function Attempt(d: Disk, w: Write, f: Fault): (o: Outcome)
    requires WriteFits(|d|, w)
    ensures |o.disk| == |d|
  {
    match f
    case NoFault => Outcome(Apply(d, w), true, f)
    case Cut(k) => if k == 0 then Outcome(d, false, f) else Outcome(Apply(d, w), true, Cut(k - 1))
    case Torn(k, g) =>
      if k > 0 then Outcome(Apply(d, w), true, Torn(k - 1, g))
      else if |g| == |w.data| then Outcome(Apply(d, Write(w.off, g)), false, Cut(0))
      else Outcome(d, false, Cut(0))
  }

  /** The writes in order, up to the first that fails. */
  function Perform(d: Disk, ws: seq<Write>, f: Fault): (o: Outcome)
    requires WritesFit(|d|, ws)
    ensures |o.disk| == |d|
    decreases |ws|
  {
    if ws == [] then Outcome(d, true, f)
    else
      var o := Attempt(d, ws[0], f);
      if o.ok then Perform(o.disk, ws[1..], o.fault) else o
  }

  lemma {:induction false} PerformAppend(d: Disk, a: seq<Write>, b: seq<Write>, f: Fault)
    requires WritesFit(|d|, a) && WritesFit(|d|, b)
    ensures WritesFit(|d|, a + b)
    ensures var o := Perform(d, a, f);
      Perform(d, a + b, f) == if o.ok then Perform(o.disk, b, o.fault) else o
    decreases |a|
  {
    if a == [] {
      assert a + b == b;
    } else {
      assert (a + b)[0] == a[0] && (a + b)[1..] == a[1..] + b;
      var o := Attempt(d, a[0], f);
      if o.ok {
        PerformAppend(o.disk, a[1..], b, o.fault);
      }
    }
  }

  //// The three parts of the disk that an update may change

  datatype Tables = Tables(p: ByteString, s: ByteString, t: ByteString)

  predicate TablesFit(v: Device, l: Layout, x: Tables) {
    |x.p| == v.blk && |x.s| == v.blk && |x.t| == l.len
  }

  /** The disk `d0` with other headers and another secondary entry array. */
  function Put(v: Device, l: Layout, d0: Disk, x: Tables): (d: Disk)
    requires Fits(v, l, |d0|) && TablesFit(v, l, x)
    ensures |d| == |d0|
  {
    Splice(Splice(Splice(d0, v.blk, x.p), |d0| - v.blk, x.s), l.e2, x.t)
  }

  function Take(v: Device, l: Layout, d: Disk): (x: Tables)
    requires Fits(v, l, |d|)
    ensures TablesFit(v, l, x)
  {
    Tables(Header(v, d, Primary), Header(v, d, Secondary), d[l.e2..l.e2 + l.len])
  }

  //// The plans

  /** gpt_set_state: one write of a re-marked, re-sealed header block. */
  function SetStateWrite(v: Device, d: Disk, g: Instance, ok: bool): (w: Write)
    requires HasBlocks(v, |d|) && InBlock(Header(v, d, g))
    ensures WriteFits(|d|, w)
  {
    Write(HeaderOff(v, |d|, g), SetState(v.crc, Header(v, d, g), ok))
  }

  /** The entry array that a boot chain puts into the secondary table. */
  function ChainEntries(v: Device, l: Layout, e: ByteString, chain: Chain): (x: ByteString)
    requires l.entry >= PTN_ENTRY_SIZE
  {
    if chain.BackupBoot? then SwapTable(e, l.entry, v.names) else e
  }

  /** The secondary tables that gpt2_set_boot_chain writes. */
  function ChainTables(v: Device, x: Tables, e: ByteString): (y: Tables)
    requires InBlock(x.s)
  {
    x.(s := SetEntriesCrc(v.crc, x.s, v.crc(e)), t := e)
  }

  /** The header first, then the array. */
  function ChainWrites(v: Device, l: Layout, size: nat, y: Tables): (ws: seq<Write>)
    requires Fits(v, l, size) && TablesFit(v, l, y)
    ensures WritesFit(size, ws)
  {
    [Write(size - v.blk, y.s), Write(l.e2, y.t)]
  }

  /** gpt2_set_boot_chain: -1 on a bad primary array, 1 when nothing has a backup, else two writes. */
  ghost function BootChainPlan(v: Device, l: Layout, d: Disk, chain: Chain): (p: Plan)
    requires Described(v, l, d)
    ensures WritesFit(|d|, p.writes)
  {
    var e := d[l.e1..l.e1 + l.len];
    var x := ChainEntries(v, l, e, chain);
    SwapTableShape(e, l.entry, l.count, v.names);
    if EntriesCrc(Header(v, d, Primary)) != v.crc(e) then Plan(-1, [])
    else if chain.BackupBoot? && !Found(Chunks(e, l.entry), v.names) then Plan(1, [])
    else Plan(0, ChainWrites(v, l, |d|, ChainTables(v, Take(v, l, d), x)))
  }

  datatype Detection = Abort | Detected(stage: Stage)

  /** The stage that the two header states stand for. */
  function Detect(p: GptState, s: GptState): (r: Detection) {
    if p == GptBadCrc || s == GptBadCrc then Abort
    else if p == GptBadSignature && s == GptBadSignature then Abort
    else if p == GptOk && s == GptOk then Detected(UpdateMain)
    else if p == GptBadSignature then Detected(UpdateBackup)
    else Detected(UpdateFinalize)
  }

  function StageNumber(s: Stage): (n: int) {
    match s
    case UpdateMain => 1
    case UpdateBackup => 2
    case UpdateFinalize => 3
  }

  function DetectedStage(v: Device, d: Disk): (r: Detection)
    requires HasBlocks(v, |d|)
  {
    Detect(ReadState(v, Header(v, d, Primary)), ReadState(v, Header(v, d, Secondary)))
  }

  /** The boot LUN is switched first where there is one, and may fail. */
  predicate LunFails(v: Device, env: Env) {
    v.ufs && env.xblPresent && !env.lunSwitched
  }

  /** UPDATE_MAIN: point the secondary table at the backups, then break the primary header. */
  ghost function MainPlan(v: Device, l: Layout, d: Disk): (p: Plan)
    requires Described(v, l, d)
    ensures WritesFit(|d|, p.writes)
  {
    BootChainKeepsHeaders(v, l, d, BackupBoot);
    var b := BootChainPlan(v, l, d, BackupBoot);
    if b.code < 0 then b
    else if b.code > 0 then Plan(0, [])
    else Plan(0, b.writes + [SetStateWrite(v, ApplyAll(d, b.writes), Primary, false)])
  }

  /** UPDATE_BACKUP: mend the primary header, then break the secondary one. */
  ghost function BackupPlan(v: Device, l: Layout, d: Disk): (p: Plan)
    requires Described(v, l, d)
    ensures WritesFit(|d|, p.writes)
  {
    var w := SetStateWrite(v, d, Primary, true);
    PrimaryWriteKeepsSecondary(v, l, d, w.data);
    Plan(0, [w, SetStateWrite(v, Apply(d, w), Secondary, false)])
  }

  /** UPDATE_FINALIZE: copy the primary table to the secondary, then mend the secondary header. */
  ghost function FinalizePlan(v: Device, l: Layout, d: Disk): (p: Plan)
    requires Described(v, l, d)
    ensures WritesFit(|d|, p.writes)
  {
    BootChainKeepsHeaders(v, l, d, NormalBoot);
    var b := BootChainPlan(v, l, d, NormalBoot);
    if b.code < 0 then b
    else Plan(0, b.writes + [SetStateWrite(v, ApplyAll(d, b.writes), Secondary, true)])
  }

  /** The writes of a stage that runs. */
  ghost function StagePlan(v: Device, l: Layout, d: Disk, stage: Stage): (p: Plan)
    requires Described(v, l, d)
    ensures WritesFit(|d|, p.writes)
  {
    match stage
    case UpdateMain => MainPlan(v, l, d)
    case UpdateBackup => BackupPlan(v, l, d)
    case UpdateFinalize => FinalizePlan(v, l, d)
  }

  /** prepare_partitions: detect the stage, compare it with the one asked for, then run it. */
  ghost function PreparePlan(v: Device, l: Layout, d: Disk, stage: Stage, env: Env): (p: Plan)
    requires Sane(v, l, d)
    ensures WritesFit(|d|, p.writes)
  {
    match DetectedStage(v, d)
    case Abort => Plan(-1, [])
    case Detected(now) =>
      if StageNumber(stage) == StageNumber(now) - 1 then Plan(0, [])
      else if stage != now then Plan(-1, [])
      else if !stage.UpdateFinalize? && LunFails(v, env) then Plan(-1, [])
      else StagePlan(v, l, d, stage)
  }

  //// Reading and writing the three parts

  lemma HeadersOfPut(v: Device, l: Layout, d0: Disk, x: Tables)
    requires Fits(v, l, |d0|) && TablesFit(v, l, x)
    ensures Header(v, Put(v, l, d0, x), Primary) == x.p
    ensures Header(v, Put(v, l, d0, x), Secondary) == x.s
  {
    hide Splice;
    var a := Splice(d0, v.blk, x.p);
    var b := Splice(a, |d0| - v.blk, x.s);
    SpliceHit(d0, v.blk, x.p);
    SpliceMiss(a, |d0| - v.blk, x.s, v.blk, v.blk + v.blk);
    SpliceMiss(b, l.e2, x.t, v.blk, v.blk + v.blk);
    SpliceHit(a, |d0| - v.blk, x.s);
    SpliceMiss(b, l.e2, x.t, |d0| - v.blk, |d0| - v.blk + v.blk);
  }

  lemma EntriesOfPut(v: Device, l: Layout, d0: Disk, x: Tables)
    requires Fits(v, l, |d0|) && TablesFit(v, l, x)
    ensures Put(v, l, d0, x)[l.e1..l.e1 + l.len] == d0[l.e1..l.e1 + l.len]
    ensures Put(v, l, d0, x)[l.e2..l.e2 + l.len] == x.t
  {
    hide Splice;
    var a := Splice(d0, v.blk, x.p);
    var b := Splice(a, |d0| - v.blk, x.s);
    SpliceMiss(d0, v.blk, x.p, l.e1, l.e1 + l.len);
    SpliceMiss(a, |d0| - v.blk, x.s, l.e1, l.e1 + l.len);
    SpliceMiss(b, l.e2, x.t, l.e1, l.e1 + l.len);
    SpliceHit(b, l.e2, x.t);
  }

  lemma TakeOfPut(v: Device, l: Layout, d0: Disk, x: Tables)
    requires Fits(v, l, |d0|) && TablesFit(v, l, x)
    ensures Take(v, l, Put(v, l, d0, x)) == x
    ensures Put(v, l, d0, x)[l.e1..l.e1 + l.len] == d0[l.e1..l.e1 + l.len]
  {
    HeadersOfPut(v, l, d0, x);
    EntriesOfPut(v, l, d0, x);
  }

  lemma PutOfTake(v: Device, l: Layout, d: Disk)
    requires Fits(v, l, |d|)
    ensures Put(v, l, d, Take(v, l, d)) == d
  {
    hide Splice;
    SpliceBack(d, v.blk, v.blk);
    SpliceBack(d, |d| - v.blk, v.blk);
    SpliceBack(d, l.e2, l.len);
  }

  /** Writing a region changes its table and nothing else. */
  lemma WritePrimary(v: Device, l: Layout, d0: Disk, x: Tables, y: ByteString)
    requires Fits(v, l, |d0|) && TablesFit(v, l, x) && |y| == v.blk
    ensures Apply(Put(v, l, d0, x), Write(v.blk, y)) == Put(v, l, d0, x.(p := y))
  {
    hide Splice;
    var a := Splice(d0, v.blk, x.p);
    var b := Splice(a, |d0| - v.blk, x.s);
    SpliceCommutes(b, v.blk, y, l.e2, x.t);
    SpliceCommutes(a, v.blk, y, |d0| - v.blk, x.s);
    SpliceOver(d0, v.blk, x.p, y);
  }

  lemma WriteSecondary(v: Device, l: Layout, d0: Disk, x: Tables, y: ByteString)
    requires Fits(v, l, |d0|) && TablesFit(v, l, x) && |y| == v.blk
    ensures Apply(Put(v, l, d0, x), Write(|d0| - v.blk, y)) == Put(v, l, d0, x.(s := y))
  {
    hide Splice;
    var a := Splice(d0, v.blk, x.p);
    var b := Splice(a, |d0| - v.blk, x.s);
    SpliceCommutes(b, l.e2, x.t, |d0| - v.blk, y);
    SpliceOver(a, |d0| - v.blk, x.s, y);
  }

  lemma WriteEntries(v: Device, l: Layout, d0: Disk, x: Tables, y: ByteString)
    requires Fits(v, l, |d0|) && TablesFit(v, l, x) && |y| == l.len
    ensures Apply(Put(v, l, d0, x), Write(l.e2, y)) == Put(v, l, d0, x.(t := y))
  {
    hide Splice;
    SpliceOver(Splice(Splice(d0, v.blk, x.p), |d0| - v.blk, x.s), l.e2, x.t, y);
  }

  /** The two writes of gpt2_set_boot_chain change the secondary tables only. */
  lemma ChainWritesEffect(v: Device, l: Layout, d0: Disk, x: Tables, y: Tables)
    requires Fits(v, l, |d0|) && TablesFit(v, l, x) && TablesFit(v, l, y) && y.p == x.p
    ensures ApplyAll(Put(v, l, d0, x), ChainWrites(v, l, |d0|, y)) == Put(v, l, d0, y)
  {
    var w1, w2 := Write(|d0| - v.blk, y.s), Write(l.e2, y.t);
    assert x.(s := y.s).(t := y.t) == y;
    assert Apply(Put(v, l, d0, x), w1) == Put(v, l, d0, x.(s := y.s)) by {
      WriteSecondary(v, l, d0, x, y.s);
    }
    assert Apply(Put(v, l, d0, x.(s := y.s)), w2) == Put(v, l, d0, y) by {
      WriteEntries(v, l, d0, x.(s := y.s), y.t);
    }
    ApplyTwo(Put(v, l, d0, x), w1, w2);
  }

  lemma {:induction false} ApplyConcat(d: Disk, a: seq<Write>, b: seq<Write>)
    requires WritesFit(|d|, a) && WritesFit(|d|, b)
    ensures WritesFit(|d|, a + b)
    ensures ApplyAll(d, a + b) == ApplyAll(ApplyAll(d, a), b)
    ensures |b| == 1 ==> ApplyAll(ApplyAll(d, a), b) == Apply(ApplyAll(d, a), b[0])
    decreases |a|
  {
    if a == [] {
      assert a + b == b;
    } else {
      assert (a + b)[0] == a[0] && (a + b)[1..] == a[1..] + b;
      ApplyConcat(Apply(d, a[0]), a[1..], b);
    }
  }

  lemma ApplyTwo(d: Disk, a: Write, b: Write)
    requires WriteFits(|d|, a) && WriteFits(|d|, b)
    ensures ApplyAll(d, [a, b]) == Apply(Apply(d, a), b)
  {
    assert [a, b][1..] == [b];
    assert ApplyAll(Apply(d, a), [b]) == Apply(Apply(d, a), b);
  }

  lemma ChainKeepsHeaders(v: Device, l: Layout, d: Disk, e: ByteString)
    requires Described(v, l, d) && |e| == l.len
    ensures var y := ChainTables(v, Take(v, l, d), e);
      var d' := ApplyAll(d, ChainWrites(v, l, |d|, y));
      InBlock(Header(v, d', Primary)) && InBlock(Header(v, d', Secondary))
  {
    hide Splice, Put, SetEntriesCrc, ApplyAll;
    var y := ChainTables(v, Take(v, l, d), e);
    PutOfTake(v, l, d);
    ChainWritesEffect(v, l, d, Take(v, l, d), y);
    SetEntriesCrcIsSound(v.crc, Header(v, d, Secondary), v.crc(e));
    HeadersOfPut(v, l, d, y);
  }

  lemma BootChainKeepsHeaders(v: Device, l: Layout, d: Disk, chain: Chain)
    requires Described(v, l, d)
    ensures var d' := ApplyAll(d, BootChainPlan(v, l, d, chain).writes);
      InBlock(Header(v, d', Primary)) && InBlock(Header(v, d', Secondary))
  {
    hide Found, Chunks, EntriesCrc, Times, ChainTables, Take, Header, InBlock, ChainWrites, SwapTable, Splice, Apply, TablesFit;
    if BootChainPlan(v, l, d, chain).code == 0 {
      SwapTableShape(d[l.e1..l.e1 + l.len], l.entry, l.count, v.names);
      ChainKeepsHeaders(v, l, d, ChainEntries(v, l, d[l.e1..l.e1 + l.len], chain));
    }
  }

  lemma PrimaryWriteKeepsSecondary(v: Device, l: Layout, d: Disk, y: ByteString)
    requires Fits(v, l, |d|) && |y| == v.blk
    ensures Header(v, Apply(d, Write(v.blk, y)), Secondary) == Header(v, d, Secondary)
  {
    SpliceMiss(d, v.blk, y, |d| - v.blk, |d| - v.blk + v.blk);
  }
}
