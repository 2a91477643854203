/**
 What the fail-safe update guarantees over whole runs: whatever stages are asked for, in whatever
 order, and wherever power fails, one GPT copy stays valid, and the stages that remain always
 lead to one and the same disk.
 */
module GptSafety {
  import opened Bytes
  import opened GptHeader
  import opened BootChain
  import opened EntryTable
  import opened GptProtocol

  /** A disk an update may start on: valid primary copy, sound secondary header. */
  predicate Start(v: Device, l: Layout, d: Disk) {
    && Described(v, l, d)
    && GetState(v.crc, Header(v, d, Primary)) == GptOk
    && EntriesCrc(Header(v, d, Primary)) == v.crc(MainEntries(l, d))
    && GetState(v.crc, Header(v, d, Secondary)) == GptOk
  }

  /** In the layout's terms: a start disk is one with a valid primary copy and a sound secondary header. */
  lemma StartIsValidPrimary(v: Device, l: Layout, d: Disk)
    requires Described(v, l, d)
    ensures Start(v, l, d) <==>
      CopyValid(v, d, Primary) && GetState(v.crc, Header(v, d, Secondary)) == GptOk
  {
  }

  /** The primary entry array, and its boot-chain swap. */
  function MainEntries(l: Layout, d: Disk): (e: ByteString)
    requires l.e1 + l.len <= |d|
  {
    d[l.e1..l.e1 + l.len]
  }

  function SwappedEntries(v: Device, l: Layout, d: Disk): (x: ByteString)
    requires Fits(v, l, |d|)
    ensures |x| == l.len
  {
    SwapTableShape(MainEntries(l, d), l.entry, l.count, v.names);
    ChainEntries(v, l, MainEntries(l, d), BackupBoot)
  }

  predicate HasBackups(v: Device, l: Layout, d: Disk)
    requires Fits(v, l, |d|)
  {
    Found(Chunks(MainEntries(l, d), l.entry), v.names)
  }

  /** Nothing but the two header blocks and the secondary array differs from `d0`. */
  predicate OnlyTables(v: Device, l: Layout, d0: Disk, d: Disk)
    requires Fits(v, l, |d0|)
  {
    |d| == |d0| && d == Put(v, l, d0, Take(v, l, d))
  }

  /** One copy is valid, and the primary entry array and the rest of the disk are as they were. */
  predicate Survives(v: Device, l: Layout, d0: Disk, d: Disk)
    requires Fits(v, l, |d0|)
  {
    OnlyTables(v, l, d0, d) && (CopyValid(v, d, Primary) || CopyValid(v, d, Secondary))
  }

  lemma SurvivesKeepsEntries(v: Device, l: Layout, d0: Disk, d: Disk)
    requires Fits(v, l, |d0|) && Survives(v, l, d0, d)
    ensures MainEntries(l, d) == MainEntries(l, d0)
  {
    hide Put, CopyValid, Header;
    EntriesOfPut(v, l, d0, Take(v, l, d));
  }

  //// The invariant

  /** The primary header is as it was; the secondary may be anything that still has its frame. */
  predicate OnPrimary(v: Device, l: Layout, d0: Disk, x: Tables)
    requires Start(v, l, d0) && TablesFit(v, l, x)
  {
    && x.p == Header(v, d0, Primary)
    && (Passes(v, x.s) ==> InBlock(x.s) && SameFrame(x.s, Header(v, d0, Secondary)))
  }

  /** The primary header is marked bad or torn; the secondary copy is valid and swapped. */
  predicate OnSecondary(v: Device, l: Layout, d0: Disk, x: Tables)
    requires Start(v, l, d0) && TablesFit(v, l, x)
  {
    && (Passes(v, x.p) ==> x.p == SetState(v.crc, Header(v, d0, Primary), false))
    && SwappedSecondary(v, l, d0, x)
  }

  predicate SwappedSecondary(v: Device, l: Layout, d0: Disk, x: Tables)
    requires Start(v, l, d0) && TablesFit(v, l, x)
  {
    && HasBackups(v, l, d0)
    && InBlock(x.s) && SameFrame(x.s, Header(v, d0, Secondary))
    && GetState(v.crc, x.s) == GptOk
    && EntriesCrc(x.s) == v.crc(SwappedEntries(v, l, d0))
    && x.t == SwappedEntries(v, l, d0)
  }

  predicate Inv(v: Device, l: Layout, d0: Disk, d: Disk) {
    && Start(v, l, d0) && OnlyTables(v, l, d0, d)
    && var x := Take(v, l, d);
    && (OnPrimary(v, l, d0, x) || OnSecondary(v, l, d0, x))
  }

  lemma PrimaryStillValid(v: Device, l: Layout, d0: Disk, x: Tables)
    requires Start(v, l, d0) && TablesFit(v, l, x) && x.p == Header(v, d0, Primary)
    ensures CopyValid(v, Put(v, l, d0, x), Primary)
  {
    TakeOfPut(v, l, d0, x);
  }

  lemma SecondaryStillValid(v: Device, l: Layout, d0: Disk, x: Tables)
    requires Start(v, l, d0) && TablesFit(v, l, x)
    requires InBlock(x.s) && SameFrame(x.s, Header(v, d0, Secondary))
    requires GetState(v.crc, x.s) == GptOk && EntriesCrc(x.s) == v.crc(x.t)
    ensures CopyValid(v, Put(v, l, d0, x), Secondary)
  {
    hide Put, GetState, EntriesCrc;
    TakeOfPut(v, l, d0, x);
    FrameFixesFields(x.s, Header(v, d0, Secondary));
  }

  lemma TablesKeepInv(v: Device, l: Layout, d0: Disk, x: Tables)
    requires Start(v, l, d0) && TablesFit(v, l, x)
    requires OnPrimary(v, l, d0, x) || OnSecondary(v, l, d0, x)
    ensures Inv(v, l, d0, Put(v, l, d0, x)) && Survives(v, l, d0, Put(v, l, d0, x))
  {
    TakeOfPut(v, l, d0, x);
    if OnPrimary(v, l, d0, x) {
      PrimaryStillValid(v, l, d0, x);
    } else {
      SecondaryStillValid(v, l, d0, x);
    }
  }

  lemma StartIsInv(v: Device, l: Layout, d0: Disk)
    requires Start(v, l, d0)
    ensures Inv(v, l, d0, d0)
  {
    PutOfTake(v, l, d0);
  }

  /** Where both checksums pass, both header blocks are in range. */
  lemma PassingIsClean(v: Device, l: Layout, d0: Disk, x: Tables)
    requires Start(v, l, d0) && TablesFit(v, l, x) && (OnPrimary(v, l, d0, x) || OnSecondary(v, l, d0, x))
    requires Passes(v, x.p) && Passes(v, x.s)
    ensures Clean(v, l, d0, x)
  {
    hide SetState, SwappedEntries, SameFrame, CrcOk, SigOk;
    SetThenGet(v.crc, Header(v, d0, Primary), false);
  }

  lemma InvIsSane(v: Device, l: Layout, d0: Disk, d: Disk)
    requires Inv(v, l, d0, d)
    ensures Sane(v, l, d) && Survives(v, l, d0, d) && MainEntries(l, d) == MainEntries(l, d0)
  {
    hide Put, SetState, SwappedEntries, Survives, CopyValid, Splice, Passes, OnPrimary, OnSecondary;
    var x := Take(v, l, d);
    assert Survives(v, l, d0, d) by {
      TablesKeepInv(v, l, d0, x);
    }
    assert MainEntries(l, d) == MainEntries(l, d0) by {
      EntriesOfPut(v, l, d0, x);
    }
    if Passes(v, x.p) && Passes(v, x.s) {
      PassingIsClean(v, l, d0, x);
      CleanDescribes(v, l, d0, x);
    }
  }

  /** Both header blocks pass their checksums. */
  predicate Intact(v: Device, d: Disk) {
    && HasBlocks(v, |d|)
    && var p, s := Header(v, d, Primary), Header(v, d, Secondary);
    && InBlock(p) && InBlock(s) && CrcOk(v.crc, p) && CrcOk(v.crc, s)
  }

  lemma CleanIsIntact(v: Device, l: Layout, d0: Disk, x: Tables)
    requires Start(v, l, d0) && Clean(v, l, d0, x)
    ensures Intact(v, Put(v, l, d0, x))
  {
    hide Put, OnPrimary, OnSecondary, CrcOk, InBlock;
    HeadersOfPut(v, l, d0, x);
  }

  //// Torn writes

  /** A torn header block is one that the next call recognises by its checksum. */
  predicate Seen(v: Device, size: nat, w: Write, g: ByteString) {
    w.off == v.blk || w.off == size - v.blk ==> |g| >= HEADER_MIN && !Passes(v, g)
  }

  /**
   What a sequence of writes must keep: `clean` between writes, `inv` between writes and after a
   seen tear, `alive` whatever a tear leaves.
   */
  datatype Goal = Goal(clean: Disk -> bool, inv: Disk -> bool, alive: Disk -> bool,
                       seen: (Write, ByteString) -> bool)

  /** If the writes are torn, the tear is seen. */
  predicate TearSeen(goal: Goal, d: Disk, ws: seq<Write>, f: Fault)
    requires WritesFit(|d|, ws)
    decreases |ws|
  {
    ws == [] ||
    if f.Torn? && f.after == 0 then |f.garbage| == |ws[0].data| ==> goal.seen(ws[0], f.garbage)
    else var o := Attempt(d, ws[0], f); o.ok ==> TearSeen(goal, o.disk, ws[1..], o.fault)
  }

  ghost predicate TornSafe(goal: Goal, d: Disk, w: Write)
    requires WriteFits(|d|, w)
  {
    forall g: ByteString :: |g| == |w.data| ==> TornSafeWith(goal, d, w, g)
  }

  predicate TornSafeWith(goal: Goal, d: Disk, w: Write, g: ByteString)
    requires WriteFits(|d|, w) && |g| == |w.data|
  {
    && goal.alive(Apply(d, Write(w.off, g)))
    && (goal.seen(w, g) ==> goal.inv(Apply(d, Write(w.off, g))))
  }

  /** Safe before the writes, after each of them, and in the middle of each. */
  ghost predicate Safe(goal: Goal, d: Disk, ws: seq<Write>)
    requires WritesFit(|d|, ws)
    decreases |ws|
  {
    && goal.inv(d) && goal.alive(d)
    && (ws != [] ==>
        && goal.clean(Apply(d, ws[0]))
        && TornSafe(goal, d, ws[0])
        && Safe(goal, Apply(d, ws[0]), ws[1..]))
  }

  /** A safe sequence may be cut or torn anywhere. */
  lemma {:induction false} SafeOutcome(goal: Goal, d: Disk, ws: seq<Write>, f: Fault)
    requires WritesFit(|d|, ws) && Safe(goal, d, ws)
    ensures goal.alive(Perform(d, ws, f).disk)
    ensures TearSeen(goal, d, ws, f) ==> goal.inv(Perform(d, ws, f).disk)
    ensures goal.clean(d) && !f.Torn? ==> TearSeen(goal, d, ws, f) && goal.clean(Perform(d, ws, f).disk)
    decreases |ws|
  {
    if ws != [] {
      var o := Attempt(d, ws[0], f);
      if o.ok {
        SafeOutcome(goal, o.disk, ws[1..], o.fault);
      } else if f.Torn? && |f.garbage| == |ws[0].data| {
        assert TornSafeWith(goal, d, ws[0], f.garbage);
      }
    }
  }

  function UpdateGoal(v: Device, l: Layout, d0: Disk): (goal: Goal) {
    Goal(d => Intact(v, d),
         d => Inv(v, l, d0, d),
         d => Fits(v, l, |d0|) && Survives(v, l, d0, d),
         (w: Write, g: ByteString) => Seen(v, |d0|, w, g))
  }

  /** While the primary header stands, the secondary tables may be torn at will. */
  lemma SecondaryTearSafe(v: Device, l: Layout, d0: Disk, x: Tables, w: Write, g: ByteString)
    requires Start(v, l, d0) && TablesFit(v, l, x) && OnPrimary(v, l, d0, x)
    requires w.off == |d0| - v.blk && |g| == |w.data| == v.blk
    ensures TornSafeWith(UpdateGoal(v, l, d0), Put(v, l, d0, x), w, g)
  {
    hide Inv, CopyValid, Put, Splice, CrcOk, Header;
    WriteSecondary(v, l, d0, x, g);
    PrimaryStillValid(v, l, d0, x.(s := g));
    TakeOfPut(v, l, d0, x.(s := g));
    if Seen(v, |d0|, w, g) {
      TablesKeepInv(v, l, d0, x.(s := g));
    }
  }

  lemma EntriesTearSafe(v: Device, l: Layout, d0: Disk, x: Tables, w: Write, g: ByteString)
    requires Start(v, l, d0) && TablesFit(v, l, x) && OnPrimary(v, l, d0, x)
    requires w.off == l.e2 && |g| == |w.data| == l.len
    ensures TornSafeWith(UpdateGoal(v, l, d0), Put(v, l, d0, x), w, g)
  {
    hide Inv, CopyValid, Put, Splice, CrcOk, Header;
    WriteEntries(v, l, d0, x, g);
    TablesKeepInv(v, l, d0, x.(t := g));
  }

  /** While the swapped secondary copy stands, the primary header may be torn at will. */
  lemma PrimaryTearSafe(v: Device, l: Layout, d0: Disk, x: Tables, w: Write, g: ByteString)
    requires Start(v, l, d0) && TablesFit(v, l, x) && SwappedSecondary(v, l, d0, x)
    requires w.off == v.blk && |g| == |w.data| == v.blk
    ensures TornSafeWith(UpdateGoal(v, l, d0), Put(v, l, d0, x), w, g)
  {
    hide Inv, CopyValid, Put, Splice, CrcOk, Header;
    WritePrimary(v, l, d0, x, g);
    SecondaryStillValid(v, l, d0, x.(p := g));
    TakeOfPut(v, l, d0, x.(p := g));
    if Seen(v, |d0|, w, g) {
      TablesKeepInv(v, l, d0, x.(p := g));
    }
  }

  lemma SafeCons(goal: Goal, d: Disk, w: Write, ws: seq<Write>)
    requires WriteFits(|d|, w) && WritesFit(|d|, ws)
    requires goal.inv(d) && goal.alive(d) && TornSafe(goal, d, w)
    requires goal.clean(Apply(d, w)) && Safe(goal, Apply(d, w), ws)
    ensures WritesFit(|d|, [w] + ws) && Safe(goal, d, [w] + ws)
  {
    assert ([w] + ws)[1..] == ws;
  }

  ghost predicate SafeTables(v: Device, l: Layout, d0: Disk, x: Tables, ws: seq<Write>) {
    && Start(v, l, d0) && Clean(v, l, d0, x) && WritesFit(|d0|, ws)
    && Safe(UpdateGoal(v, l, d0), Put(v, l, d0, x), ws)
  }

  lemma SafeEnd(v: Device, l: Layout, d0: Disk, x: Tables)
    requires Start(v, l, d0) && Clean(v, l, d0, x)
    ensures SafeTables(v, l, d0, x, [])
  {
    TablesKeepInv(v, l, d0, x);
  }

  /** One more write in front: of the secondary header, the secondary array, or the primary header. */
  lemma SafeSecondary(v: Device, l: Layout, d0: Disk, x: Tables, y: ByteString, ws: seq<Write>)
    requires Start(v, l, d0) && Clean(v, l, d0, x) && OnPrimary(v, l, d0, x) && |y| == v.blk
    requires SafeTables(v, l, d0, x.(s := y), ws)
    ensures SafeTables(v, l, d0, x, [Write(|d0| - v.blk, y)] + ws)
  {
    hide Inv, Survives, Put, TornSafeWith, Splice, SwappedSecondary, Intact;
    TablesKeepInv(v, l, d0, x);
    WriteSecondary(v, l, d0, x, y);
    CleanIsIntact(v, l, d0, x.(s := y));
    var goal, w := UpdateGoal(v, l, d0), Write(|d0| - v.blk, y);
    forall g: ByteString | |g| == |y| ensures TornSafeWith(goal, Put(v, l, d0, x), w, g) {
      SecondaryTearSafe(v, l, d0, x, w, g);
    }
    SafeCons(UpdateGoal(v, l, d0), Put(v, l, d0, x), Write(|d0| - v.blk, y), ws);
  }

  lemma SafeEntries(v: Device, l: Layout, d0: Disk, x: Tables, y: ByteString, ws: seq<Write>)
    requires Start(v, l, d0) && Clean(v, l, d0, x) && OnPrimary(v, l, d0, x) && |y| == l.len
    requires SafeTables(v, l, d0, x.(t := y), ws)
    ensures SafeTables(v, l, d0, x, [Write(l.e2, y)] + ws)
  {
    hide Inv, Survives, Put, TornSafeWith, Splice, SwappedSecondary, Intact;
    TablesKeepInv(v, l, d0, x);
    WriteEntries(v, l, d0, x, y);
    CleanIsIntact(v, l, d0, x.(t := y));
    var goal, w := UpdateGoal(v, l, d0), Write(l.e2, y);
    forall g: ByteString | |g| == |y| ensures TornSafeWith(goal, Put(v, l, d0, x), w, g) {
      EntriesTearSafe(v, l, d0, x, w, g);
    }
    SafeCons(UpdateGoal(v, l, d0), Put(v, l, d0, x), Write(l.e2, y), ws);
  }

  lemma SafePrimary(v: Device, l: Layout, d0: Disk, x: Tables, y: ByteString, ws: seq<Write>)
    requires Start(v, l, d0) && Clean(v, l, d0, x) && SwappedSecondary(v, l, d0, x) && |y| == v.blk
    requires SafeTables(v, l, d0, x.(p := y), ws)
    ensures SafeTables(v, l, d0, x, [Write(v.blk, y)] + ws)
  {
    hide Inv, Survives, Put, TornSafeWith, Splice, SwappedSecondary, Intact;
    TablesKeepInv(v, l, d0, x);
    WritePrimary(v, l, d0, x, y);
    CleanIsIntact(v, l, d0, x.(p := y));
    var goal, w := UpdateGoal(v, l, d0), Write(v.blk, y);
    forall g: ByteString | |g| == |y| ensures TornSafeWith(goal, Put(v, l, d0, x), w, g) {
      PrimaryTearSafe(v, l, d0, x, w, g);
    }
    SafeCons(UpdateGoal(v, l, d0), Put(v, l, d0, x), Write(v.blk, y), ws);
  }

  //// The stages, on the tables

  function MainWrites(v: Device, l: Layout, d0: Disk, x: Tables): (ws: seq<Write>)
    requires Fits(v, l, |d0|) && TablesFit(v, l, x) && InBlock(x.p) && InBlock(x.s)
  {
    ChainWrites(v, l, |d0|, ChainTables(v, x, SwappedEntries(v, l, d0)))
    + [Write(v.blk, SetState(v.crc, x.p, false))]
  }

  function BackupWrites(v: Device, l: Layout, d0: Disk, x: Tables): (ws: seq<Write>)
    requires Fits(v, l, |d0|) && TablesFit(v, l, x) && InBlock(x.p) && InBlock(x.s)
  {
    [Write(v.blk, SetState(v.crc, x.p, true)), Write(|d0| - v.blk, SetState(v.crc, x.s, false))]
  }

  function FinalizeWrites(v: Device, l: Layout, d0: Disk, x: Tables): (ws: seq<Write>)
    requires Fits(v, l, |d0|) && TablesFit(v, l, x) && InBlock(x.p) && InBlock(x.s)
  {
    var y := ChainTables(v, x, MainEntries(l, d0));
    SetEntriesCrcIsSound(v.crc, x.s, v.crc(MainEntries(l, d0)));
    ChainWrites(v, l, |d0|, y) + [Write(|d0| - v.blk, SetState(v.crc, y.s, true))]
  }

  /** Both headers are intact and describe the layout. */
  predicate Clean(v: Device, l: Layout, d0: Disk, x: Tables)
    requires Start(v, l, d0)
  {
    && TablesFit(v, l, x)
    && (OnPrimary(v, l, d0, x) || OnSecondary(v, l, d0, x))
    && InBlock(x.p) && InBlock(x.s) && CrcOk(v.crc, x.p) && CrcOk(v.crc, x.s)
  }

  lemma DescribedByFrame(v: Device, l: Layout, h: ByteString, h0: ByteString, at: nat)
    requires SameFrame(h, h0) && Describes(v, h0, l, at)
    ensures Describes(v, h, l, at)
  {
    FrameFixesFields(h, h0);
  }

  lemma CleanFrames(v: Device, l: Layout, d0: Disk, x: Tables)
    requires Start(v, l, d0) && Clean(v, l, d0, x)
    ensures SameFrame(x.p, Header(v, d0, Primary)) && SameFrame(x.s, Header(v, d0, Secondary))
    ensures EntriesCrc(x.p) == v.crc(MainEntries(l, d0))
  {
    hide SetState, SwappedEntries, SameFrame, CrcOk, SigOk;
    SetThenGet(v.crc, Header(v, d0, Primary), false);
    if x.p == Header(v, d0, Primary) {
      FrameReflexive(x.p);
    }
  }

  lemma FrameReflexive(h: ByteString)
    requires |h| >= HEADER_MIN
    ensures SameFrame(h, h)
  {
  }

  lemma CleanDescribes(v: Device, l: Layout, d0: Disk, x: Tables)
    requires Start(v, l, d0) && Clean(v, l, d0, x)
    ensures Described(v, l, Put(v, l, d0, x)) && Take(v, l, Put(v, l, d0, x)) == x
    ensures MainEntries(l, Put(v, l, d0, x)) == MainEntries(l, d0)
    ensures EntriesCrc(x.p) == v.crc(MainEntries(l, d0))
  {
    hide Put, OnPrimary, OnSecondary, SameFrame, CrcOk, EntriesCrc, GetState;
    TakeOfPut(v, l, d0, x);
    CleanFrames(v, l, d0, x);
    DescribedByFrame(v, l, x.s, Header(v, d0, Secondary), l.e2);
    DescribedByFrame(v, l, x.p, Header(v, d0, Primary), l.e1);
  }

  /** A clean disk is in one of three phases, and the header states tell which. */
  lemma CleanPhase(v: Device, l: Layout, d0: Disk, x: Tables)
    requires Start(v, l, d0) && Clean(v, l, d0, x)
    ensures OnPrimary(v, l, d0, x) <==> GetState(v.crc, x.p) == GptOk
    ensures !OnPrimary(v, l, d0, x) ==> OnSecondary(v, l, d0, x) && GetState(v.crc, x.p) == GptBadSignature
    ensures SameFrame(x.s, Header(v, d0, Secondary))
  {
    SetThenGet(v.crc, Header(v, d0, Primary), false);
  }

  lemma MainPlanOnTables(v: Device, l: Layout, d0: Disk, x: Tables)
    requires Start(v, l, d0) && Clean(v, l, d0, x)
    ensures Described(v, l, Put(v, l, d0, x))
    ensures MainPlan(v, l, Put(v, l, d0, x))
      == Plan(0, if HasBackups(v, l, d0) then MainWrites(v, l, d0, x) else [])
  {
    hide Put, SetState, SetEntriesCrc, OnPrimary, OnSecondary, Found, CrcOk;
    var d := Put(v, l, d0, x);
    CleanDescribes(v, l, d0, x);
    var y := ChainTables(v, x, SwappedEntries(v, l, d0));
    ChainWritesEffect(v, l, d0, x, y);
    HeadersOfPut(v, l, d0, y);
  }

  lemma BackupPlanOnTables(v: Device, l: Layout, d0: Disk, x: Tables)
    requires Start(v, l, d0) && Clean(v, l, d0, x)
    ensures Described(v, l, Put(v, l, d0, x))
    ensures BackupPlan(v, l, Put(v, l, d0, x))
      == Plan(0, BackupWrites(v, l, d0, x))
  {
    hide Put, SetState, SetEntriesCrc, OnPrimary, OnSecondary, Found, CrcOk;
    var d := Put(v, l, d0, x);
    CleanDescribes(v, l, d0, x);
    PrimaryWriteKeepsSecondary(v, l, d, SetState(v.crc, x.p, true));
  }

  lemma FinalizePlanOnTables(v: Device, l: Layout, d0: Disk, x: Tables)
    requires Start(v, l, d0) && Clean(v, l, d0, x)
    ensures Described(v, l, Put(v, l, d0, x))
    ensures FinalizePlan(v, l, Put(v, l, d0, x))
      == Plan(0, FinalizeWrites(v, l, d0, x))
  {
    hide Put, SetState, SetEntriesCrc, OnPrimary, OnSecondary, Found, CrcOk;
    var d := Put(v, l, d0, x);
    CleanDescribes(v, l, d0, x);
    var y := ChainTables(v, x, MainEntries(l, d0));
    ChainWritesEffect(v, l, d0, x, y);
    HeadersOfPut(v, l, d0, y);
  }

  //// Every boundary and every tear of every stage is safe

  /** The tables after each write of MAIN. */
  lemma MainSteps(v: Device, l: Layout, d0: Disk, x: Tables)
    requires Start(v, l, d0) && Clean(v, l, d0, x)
    requires OnPrimary(v, l, d0, x) && GetState(v.crc, x.s) == GptOk && HasBackups(v, l, d0)
    ensures var y := ChainTables(v, x, SwappedEntries(v, l, d0));
      && Clean(v, l, d0, y) && OnPrimary(v, l, d0, y)
      && Clean(v, l, d0, x.(s := y.s)) && OnPrimary(v, l, d0, x.(s := y.s))
      && SwappedSecondary(v, l, d0, y)
      && var z := y.(p := SetState(v.crc, x.p, false));
      && Clean(v, l, d0, z) && OnSecondary(v, l, d0, z)
  {
    SetEntriesCrcIsSound(v.crc, x.s, v.crc(SwappedEntries(v, l, d0)));
    SetThenGet(v.crc, x.p, false);
  }

  lemma MainSafe(v: Device, l: Layout, d0: Disk, x: Tables)
    requires Start(v, l, d0) && Clean(v, l, d0, x)
    requires OnPrimary(v, l, d0, x) && GetState(v.crc, x.s) == GptOk && HasBackups(v, l, d0)
    ensures SafeTables(v, l, d0, x, MainWrites(v, l, d0, x))
  {
    hide SafeTables, Put, GetState, SetState, SetEntriesCrc, SwappedEntries, MainEntries;
    MainSteps(v, l, d0, x);
    var y := ChainTables(v, x, SwappedEntries(v, l, d0));
    var p := SetState(v.crc, x.p, false);
    SafeEnd(v, l, d0, y.(p := p));
    SafePrimary(v, l, d0, y, p, []);
    var w3 := [Write(v.blk, p)];
    assert w3 + [] == w3;
    assert x.(s := y.s).(t := y.t) == y;
    SafeEntries(v, l, d0, x.(s := y.s), y.t, w3);
    SafeSecondary(v, l, d0, x, y.s, [Write(l.e2, y.t)] + w3);
    assert [Write(|d0| - v.blk, y.s)] + ([Write(l.e2, y.t)] + w3) == MainWrites(v, l, d0, x);
  }

  function AfterBackup(v: Device, x: Tables): (y: Tables)
    requires InBlock(x.p) && InBlock(x.s)
  {
    x.(p := SetState(v.crc, x.p, true), s := SetState(v.crc, x.s, false))
  }

  /** The tables after each write of BACKUP: the primary header is mended byte for byte. */
  lemma BackupSteps(v: Device, l: Layout, d0: Disk, x: Tables)
    requires Start(v, l, d0) && Clean(v, l, d0, x) && !OnPrimary(v, l, d0, x)
    ensures var y := AfterBackup(v, x);
      && y.p == Header(v, d0, Primary)
      && Clean(v, l, d0, y) && OnPrimary(v, l, d0, y) && GetState(v.crc, y.s) == GptBadSignature
      && Clean(v, l, d0, x.(p := y.p)) && OnPrimary(v, l, d0, x.(p := y.p))
      && SwappedSecondary(v, l, d0, x)
  {
    hide SetState, SwappedEntries, SameFrame;
    BreakThenRestore(v.crc, Header(v, d0, Primary));
    SetThenGet(v.crc, x.s, false);
    FrameTransitive(SetState(v.crc, x.s, false), x.s, Header(v, d0, Secondary));
  }

  lemma BackupSafe(v: Device, l: Layout, d0: Disk, x: Tables)
    requires Start(v, l, d0) && Clean(v, l, d0, x) && !OnPrimary(v, l, d0, x)
    ensures SafeTables(v, l, d0, x, BackupWrites(v, l, d0, x))
  {
    hide SafeTables, Put, GetState, SetState, SwappedEntries, OnPrimary, OnSecondary, SwappedSecondary;
    BackupSteps(v, l, d0, x);
    var p, s := SetState(v.crc, x.p, true), SetState(v.crc, x.s, false);
    assert x.(p := p).(s := s) == AfterBackup(v, x);
    SafeEnd(v, l, d0, x.(p := p).(s := s));
    SafeSecondary(v, l, d0, x.(p := p), s, []);
    var w2 := [Write(|d0| - v.blk, s)];
    assert w2 + [] == w2;
    SafePrimary(v, l, d0, x, p, w2);
    assert [Write(v.blk, p)] + w2 == BackupWrites(v, l, d0, x);
  }

  /** The tables after each write of FINALIZE. */
  lemma FinalizeSteps(v: Device, l: Layout, d0: Disk, x: Tables)
    requires Start(v, l, d0) && Clean(v, l, d0, x) && OnPrimary(v, l, d0, x)
    ensures var y := ChainTables(v, x, MainEntries(l, d0));
      && Clean(v, l, d0, y) && OnPrimary(v, l, d0, y)
      && Clean(v, l, d0, x.(s := y.s)) && OnPrimary(v, l, d0, x.(s := y.s))
      && var z := y.(s := SetState(v.crc, y.s, true));
      && Clean(v, l, d0, z) && OnPrimary(v, l, d0, z)
  {
    hide SetState, SetEntriesCrc;
    var y := ChainTables(v, x, MainEntries(l, d0));
    SetEntriesCrcIsSound(v.crc, x.s, v.crc(MainEntries(l, d0)));
    SetThenGet(v.crc, y.s, true);
  }

  lemma FinalizeSafe(v: Device, l: Layout, d0: Disk, x: Tables)
    requires Start(v, l, d0) && Clean(v, l, d0, x) && OnPrimary(v, l, d0, x)
    ensures SafeTables(v, l, d0, x, FinalizeWrites(v, l, d0, x))
  {
    hide SafeTables, Put, GetState, SetState, SetEntriesCrc, SwappedEntries, MainEntries;
    FinalizeSteps(v, l, d0, x);
    var y := ChainTables(v, x, MainEntries(l, d0));
    var s := SetState(v.crc, y.s, true);
    SafeEnd(v, l, d0, y.(s := s));
    SafeSecondary(v, l, d0, y, s, []);
    var w3 := [Write(|d0| - v.blk, s)];
    assert w3 + [] == w3;
    assert x.(s := y.s).(t := y.t) == y;
    SafeEntries(v, l, d0, x.(s := y.s), y.t, w3);
    SafeSecondary(v, l, d0, x, y.s, [Write(l.e2, y.t)] + w3);
    assert [Write(|d0| - v.blk, y.s)] + ([Write(l.e2, y.t)] + w3) == FinalizeWrites(v, l, d0, x);
  }

  //// Runs

  datatype Call = Call(stage: Stage, env: Env, fault: Fault)

  ghost function CallWrites(v: Device, l: Layout, d: Disk, c: Call): (ws: seq<Write>)
    requires Sane(v, l, d)
    ensures WritesFit(|d|, ws)
  {
    PreparePlan(v, l, d, c.stage, c.env).writes
  }

  lemma StageSafe(v: Device, l: Layout, d0: Disk, x: Tables, stage: Stage)
    requires Start(v, l, d0) && Clean(v, l, d0, x)
    requires Detect(GetState(v.crc, x.p), GetState(v.crc, x.s)) == Detected(stage)
    ensures Described(v, l, Put(v, l, d0, x))
    ensures SafeTables(v, l, d0, x, StagePlan(v, l, Put(v, l, d0, x), stage).writes)
  {
    hide SafeTables, Put, GetState, SwappedEntries, MainPlan, BackupPlan, FinalizePlan, MainWrites, BackupWrites, FinalizeWrites;
    CleanPhase(v, l, d0, x);
    match stage {
      case UpdateMain =>
        MainPlanOnTables(v, l, d0, x);
        if HasBackups(v, l, d0) {
          MainSafe(v, l, d0, x);
        } else {
          SafeEnd(v, l, d0, x);
        }
      case UpdateBackup =>
        BackupPlanOnTables(v, l, d0, x);
        BackupSafe(v, l, d0, x);
      case UpdateFinalize =>
        FinalizePlanOnTables(v, l, d0, x);
        FinalizeSafe(v, l, d0, x);
    }
  }

  /** Whatever is asked for in a reachable state, every boundary and every tear of it is safe. */
  lemma CallSafe(v: Device, l: Layout, d0: Disk, d: Disk, c: Call)
    requires Inv(v, l, d0, d)
    ensures Sane(v, l, d)
    ensures Safe(UpdateGoal(v, l, d0), d, CallWrites(v, l, d, c))
  {
    hide Put, CrcOk, SigOk, StagePlan, OnPrimary, OnSecondary;
    InvIsSane(v, l, d0, d);
    var x := Take(v, l, d);
    if CallWrites(v, l, d, c) != [] {
      StageSafe(v, l, d0, x, c.stage);
    }
  }

  datatype RunEnd = Running(disk: Disk) | TornUnseen(disk: Disk)

  /**
   Any number of calls, each with its own fault. A run goes on after every cut and every tear that
   the next call can see, the tears that make the reader's checksum leave the block included; it
   stops only where a torn header block happens to pass that checksum.
   */
  ghost function Run(v: Device, l: Layout, d0: Disk, d: Disk, calls: seq<Call>): (r: RunEnd)
    requires Inv(v, l, d0, d)
    ensures Survives(v, l, d0, r.disk)
    ensures r.Running? ==> Inv(v, l, d0, r.disk)
    decreases |calls|
  {
    InvIsSane(v, l, d0, d);
    if calls == [] then Running(d)
    else
      var c, goal := calls[0], UpdateGoal(v, l, d0);
      CallSafe(v, l, d0, d, c);
      var ws := CallWrites(v, l, d, c);
      SafeOutcome(goal, d, ws, c.fault);
      var next := Perform(d, ws, c.fault).disk;
      if TearSeen(goal, d, ws, c.fault) then Run(v, l, d0, next, calls[1..]) else TornUnseen(next)
  }

  /**
   Crash safety. Start on a disk with a valid primary copy and a sound secondary header, and run any
   calls, each cut or torn anywhere: one copy is still valid, and neither the primary entry array
   nor anything outside the tables has changed.
   */
  lemma CrashSafety(v: Device, l: Layout, d0: Disk, calls: seq<Call>)
    requires Start(v, l, d0)
    ensures Inv(v, l, d0, d0)
    ensures var d := Run(v, l, d0, d0, calls).disk;
      && (CopyValid(v, d, Primary) || CopyValid(v, d, Secondary))
      && OnlyTables(v, l, d0, d)
      && MainEntries(l, d) == MainEntries(l, d0)
  {
    StartIsInv(v, l, d0);
    SurvivesKeepsEntries(v, l, d0, Run(v, l, d0, d0, calls).disk);
  }
}
