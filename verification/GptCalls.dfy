/**
 Single calls of the update: what makes one refuse, on whatever disk it finds, and in which order
 the writes of one that runs reach the disk.
 */
module GptCalls {
  import opened Bytes
  import opened GptHeader
  import opened BootChain
  import opened EntryTable
  import opened GptProtocol
  import opened GptSafety
  import opened GptRecovery

  //// Refusals

  /** A boot LUN that cannot be switched stops MAIN and BACKUP before any write. */
  lemma FailedSwitchStops(v: Device, l: Layout, d: Disk, stage: Stage, env: Env)
    requires Sane(v, l, d) && v.ufs && env.xblPresent && !env.lunSwitched && stage != UpdateFinalize
    ensures PreparePlan(v, l, d, stage, env).writes == []
    ensures DetectedStage(v, d) == Detected(stage) ==> PreparePlan(v, l, d, stage, env).code == -1
  {
  }

  /** The switch matters to nothing else: not to FINALIZE, not off UFS, not without an xbl pair. */
  lemma SwitchMattersOnlyThere(v: Device, l: Layout, d: Disk, stage: Stage, env: Env, env': Env)
    requires Sane(v, l, d)
    requires stage == UpdateFinalize || !v.ufs || (!env.xblPresent && !env'.xblPresent) || (env.lunSwitched && env'.lunSwitched)
    ensures PreparePlan(v, l, d, stage, env) == PreparePlan(v, l, d, stage, env')
  {
    hide StagePlan;
  }

  /** With either header's checksum bad, or both signatures, every call fails and writes nothing. */
  lemma BadHeadersStopUpdate(v: Device, l: Layout, d: Disk, stage: Stage, env: Env)
    requires Sane(v, l, d)
    requires var p, s := ReadState(v, Header(v, d, Primary)), ReadState(v, Header(v, d, Secondary));
      p == GptBadCrc || s == GptBadCrc || (p == GptBadSignature && s == GptBadSignature)
    ensures PreparePlan(v, l, d, stage, env) == Plan(-1, [])
  {
    hide ReadState, StagePlan;
  }

  /** Two good headers over a primary array that its checksum disowns: every call fails and writes nothing. */
  lemma BadArrayStopsUpdate(v: Device, l: Layout, d: Disk, stage: Stage, env: Env)
    requires Described(v, l, d)
    requires GetState(v.crc, Header(v, d, Primary)) == GptOk == GetState(v.crc, Header(v, d, Secondary))
    requires !CopyValid(v, d, Primary)
    ensures PreparePlan(v, l, d, stage, env) == Plan(-1, [])
  {
    hide GetState, EntriesCrc, Found, Chunks, ChainEntries, ChainTables;
  }

  /** Only over a valid primary copy does MAIN or FINALIZE write. */
  lemma WritesNeedPrimary(v: Device, l: Layout, d: Disk, stage: Stage, env: Env)
    requires Sane(v, l, d) && stage != UpdateBackup && PreparePlan(v, l, d, stage, env).writes != []
    ensures CopyValid(v, d, Primary)
  {
    hide GetState, EntriesCrc, Found, Chunks, ChainEntries, ChainTables, Passes, Header, InBlock;
    assert DetectedStage(v, d) == Detected(stage);
    PrimaryIsOk(v, l, d, stage);
    var e := d[l.e1..l.e1 + l.len];
    if EntriesCrc(Header(v, d, Primary)) != v.crc(e) {
      BadArrayNoPlan(v, l, d, stage);
    }
  }

  lemma PrimaryIsOk(v: Device, l: Layout, d: Disk, stage: Stage)
    requires Sane(v, l, d) && stage != UpdateBackup && DetectedStage(v, d) == Detected(stage)
    ensures Described(v, l, d) && GetState(v.crc, Header(v, d, Primary)) == GptOk
  {
  }

  lemma BadArrayNoPlan(v: Device, l: Layout, d: Disk, stage: Stage)
    requires Described(v, l, d) && stage != UpdateBackup
    requires EntriesCrc(Header(v, d, Primary)) != v.crc(d[l.e1..l.e1 + l.len])
    ensures StagePlan(v, l, d, stage) == Plan(-1, [])
  {
    hide EntriesCrc, Found, Chunks, ChainEntries, ChainTables;
  }

  /**
   On a disk that no update has touched, however its copies are: either it is one that an update may
   start on, or no call writes anything.
   */
  lemma StartOrNothing(v: Device, l: Layout, d: Disk, stage: Stage, env: Env)
    requires Described(v, l, d) && DetectedStage(v, d) in {Abort, Detected(UpdateMain)}
    ensures Start(v, l, d) || PreparePlan(v, l, d, stage, env) == Plan(-1, [])
  {
    hide StagePlan, CopyValid, EntriesCrc, CrcOk, SigOk;
    if DetectedStage(v, d) == Detected(UpdateMain) && !CopyValid(v, d, Primary) {
      BadArrayStopsUpdate(v, l, d, stage, env);
    } else if DetectedStage(v, d) == Detected(UpdateMain) {
      StartIsValidPrimary(v, l, d);
    }
  }

  /** So a disk with a valid copy keeps one through any call and any fault, whatever its primary array holds. */
  lemma CallKeepsACopy(v: Device, l: Layout, d: Disk, c: Call)
    requires Described(v, l, d) && DetectedStage(v, d) in {Abort, Detected(UpdateMain)}
    requires CopyValid(v, d, Primary) || CopyValid(v, d, Secondary)
    ensures Sane(v, l, d)
    ensures var d' := Perform(d, CallWrites(v, l, d, c), c.fault).disk;
      CopyValid(v, d', Primary) || CopyValid(v, d', Secondary)
  {
    hide CopyValid, PreparePlan, Start, Inv, Safe, Described;
    assert Sane(v, l, d) by { DescribedIsSane(v, l, d); }
    StartOrNothing(v, l, d, c.stage, c.env);
    if Start(v, l, d) {
      StartIsInv(v, l, d);
      CallSafe(v, l, d, d, c);
      SafeOutcome(UpdateGoal(v, l, d), d, CallWrites(v, l, d, c), c.fault);
    }
  }

  lemma DescribedIsSane(v: Device, l: Layout, d: Disk)
    requires Described(v, l, d)
    ensures Sane(v, l, d)
  {
  }

  /** Without a backup pair MAIN succeeds, and there is nothing to write. */
  lemma NoBackupsSucceeds(v: Device, l: Layout, d0: Disk, env: Env)
    requires Start(v, l, d0) && !HasBackups(v, l, d0) && !LunFails(v, env)
    ensures Sane(v, l, d0) && PreparePlan(v, l, d0, UpdateMain, env) == Plan(0, [])
  {
    hide Put, StagePlan, HasBackups, Found, CrcOk, SigOk;
    StartIsInv(v, l, d0);
    InvIsSane(v, l, d0, d0);
    PutOfTake(v, l, d0);
    DetectedStageRuns(v, l, d0, Take(v, l, d0), UpdateMain, env);
  }

  //// The order of the writes

  lemma CutAfter(d: Disk, ws: seq<Write>)
    requires WritesFit(|d|, ws)
    ensures Perform(d, ws, Cut(0)).disk == d
    ensures |ws| > 0 ==> Perform(d, ws, Cut(1)).disk == Apply(d, ws[0])
    ensures |ws| > 1 ==> Perform(d, ws, Cut(2)).disk == Apply(Apply(d, ws[0]), ws[1])
  {
    hide Apply;
    if |ws| > 1 {
      assert ws[1..][0] == ws[1];
      var d1 := Apply(d, ws[0]);
      assert Perform(d1, ws[1..], Cut(1)).disk == Apply(d1, ws[1]);
    }
  }

  /** The tables on the disk after k writes of a stage. */
  ghost function After(v: Device, l: Layout, d: Disk, stage: Stage, env: Env, k: nat): (x: Tables)
    requires Sane(v, l, d)
  {
    Take(v, l, Perform(d, PreparePlan(v, l, d, stage, env).writes, Cut(k)).disk)
  }

  /** MAIN cut after one write: the secondary header announces the swapped array, which is not there yet. */
  lemma MainInOrder(v: Device, l: Layout, d0: Disk, d: Disk, env: Env)
    requires Inv(v, l, d0, d) && Intact(v, d) && HasBackups(v, l, d0) && !LunFails(v, env)
    requires DetectedStage(v, d) == Detected(UpdateMain)
    ensures Sane(v, l, d)
    ensures var x, one, two := Take(v, l, d), After(v, l, d, UpdateMain, env, 1), After(v, l, d, UpdateMain, env, 2);
      && one.p == two.p == x.p && one.t == x.t && one.s == two.s
      && EntriesCrc(one.s) == v.crc(SwappedEntries(v, l, d0)) && two.t == SwappedEntries(v, l, d0)
  {
    hide Put, Inv, Intact, GetState, SetState, SetEntriesCrc, SwappedEntries, HasBackups, PreparePlan, OnPrimary, OnSecondary, CrcOk, Splice, Apply, Perform, EntriesCrc;
    IntactIsClean(v, l, d0, d);
    var x, e := Take(v, l, d), SwappedEntries(v, l, d0);
    DetectedStageRuns(v, l, d0, x, UpdateMain, env);
    var y := ChainTables(v, x, e);
    SetEntriesCrcIsSound(v.crc, x.s, v.crc(e));
    CutAfter(d, MainWrites(v, l, d0, x));
    TwoSecondaryWrites(v, l, d0, x, y);
  }

  lemma TwoSecondaryWrites(v: Device, l: Layout, d0: Disk, x: Tables, y: Tables)
    requires Fits(v, l, |d0|) && TablesFit(v, l, x) && TablesFit(v, l, y) && y.p == x.p
    ensures var d1 := Apply(Put(v, l, d0, x), Write(|d0| - v.blk, y.s));
      && Take(v, l, d1) == x.(s := y.s)
      && Take(v, l, Apply(d1, Write(l.e2, y.t))) == y
  {
    hide Put, Splice, Apply, Header;
    WriteSecondary(v, l, d0, x, y.s);
    WriteEntries(v, l, d0, x.(s := y.s), y.t);
    TakeOfPut(v, l, d0, x.(s := y.s));
    TakeOfPut(v, l, d0, y);
  }

  /** BACKUP cut after one write: the primary header is mended, the secondary not yet broken. */
  lemma BackupInOrder(v: Device, l: Layout, d0: Disk, d: Disk, env: Env)
    requires Inv(v, l, d0, d) && Intact(v, d) && HasBackups(v, l, d0) && !LunFails(v, env)
    requires DetectedStage(v, d) == Detected(UpdateBackup)
    ensures Sane(v, l, d)
    ensures After(v, l, d, UpdateBackup, env, 1) == Take(v, l, d).(p := Header(v, d0, Primary))
  {
    hide Put, Inv, Intact, GetState, SetState, SwappedEntries, HasBackups, PreparePlan, OnPrimary, OnSecondary, CrcOk, Splice, Apply, Perform;
    IntactIsClean(v, l, d0, d);
    var x := Take(v, l, d);
    DetectedStageRuns(v, l, d0, x, UpdateBackup, env);
    CleanPhase(v, l, d0, x);
    BackupSteps(v, l, d0, x);
    CutAfter(d, BackupWrites(v, l, d0, x));
    WritePrimary(v, l, d0, x, Header(v, d0, Primary));
    TakeOfPut(v, l, d0, x.(p := Header(v, d0, Primary)));
  }

  lemma StillMarkedBad(v: Device, s: ByteString, c: u32)
    requires InBlock(s) && GetState(v.crc, s) == GptBadSignature
    ensures var r := SetEntriesCrc(v.crc, s, c);
      InBlock(r) && EntriesCrc(r) == c && GetState(v.crc, r) == GptBadSignature
  {
    hide SetEntriesCrc;
    SetEntriesCrcIsSound(v.crc, s, c);
  }

  /**
   FINALIZE cut after one write: the secondary header announces the primary's entries, still marked
   bad; after two, the entries are there, and the header is still marked bad.
   */
  lemma FinalizeInOrder(v: Device, l: Layout, d0: Disk, d: Disk, env: Env)
    requires Inv(v, l, d0, d) && Intact(v, d) && HasBackups(v, l, d0) && !LunFails(v, env)
    requires DetectedStage(v, d) == Detected(UpdateFinalize)
    ensures Sane(v, l, d)
    ensures var x, one, two := Take(v, l, d), After(v, l, d, UpdateFinalize, env, 1), After(v, l, d, UpdateFinalize, env, 2);
      && one.p == two.p == x.p && one.t == x.t && one.s == two.s && two.t == MainEntries(l, d0)
      && EntriesCrc(one.s) == v.crc(MainEntries(l, d0)) && ReadState(v, one.s) == GptBadSignature
  {
    hide Put, Inv, Intact, GetState, ReadState, SetState, SetEntriesCrc, HasBackups, PreparePlan, OnPrimary, OnSecondary, CrcOk, Splice, Apply, Perform, EntriesCrc;
    IntactIsClean(v, l, d0, d);
    var x, e := Take(v, l, d), MainEntries(l, d0);
    DetectedStageRuns(v, l, d0, x, UpdateFinalize, env);
    var y := ChainTables(v, x, e);
    StillMarkedBad(v, x.s, v.crc(e));
    CutAfter(d, FinalizeWrites(v, l, d0, x));
    TwoSecondaryWrites(v, l, d0, x, y);
  }
}
