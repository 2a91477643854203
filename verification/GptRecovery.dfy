/**
 What an interrupted update can still become: from every state that a run of calls reaches with its
 header blocks intact, the remaining stages succeed, and all of them meet in one final disk.
 */
module GptRecovery {
  import opened Bytes
  import opened GptHeader
  import opened BootChain
  import opened EntryTable
  import opened GptProtocol
  import opened GptSafety

  //// Recovery

  /** The one disk that every completed update ends on. */
  function FinalTables(v: Device, l: Layout, d0: Disk): (x: Tables)
    requires Start(v, l, d0)
    ensures TablesFit(v, l, x)
  {
    var e := MainEntries(l, d0);
    Tables(Header(v, d0, Primary), SetEntriesCrc(v.crc, Header(v, d0, Secondary), v.crc(e)), e)
  }

  function FinalDisk(v: Device, l: Layout, d0: Disk): (d: Disk)
    requires Start(v, l, d0)
  {
    Put(v, l, d0, FinalTables(v, l, d0))
  }

  /** Both copies of the final disk are valid and hold the primary's entries. */
  lemma FinalDiskValid(v: Device, l: Layout, d0: Disk)
    requires Start(v, l, d0)
    ensures var d := FinalDisk(v, l, d0);
      && CopyValid(v, d, Primary) && CopyValid(v, d, Secondary)
      && Header(v, d, Primary) == Header(v, d0, Primary)
      && MainEntries(l, d) == MainEntries(l, d0) == d[l.e2..l.e2 + l.len]
  {
    hide Put, SetEntriesCrc, CopyValid, CrcOk, EntriesCrc;
    var x, s0, e := FinalTables(v, l, d0), Header(v, d0, Secondary), MainEntries(l, d0);
    TakeOfPut(v, l, d0, x);
    PrimaryStillValid(v, l, d0, x);
    SetEntriesCrcIsSound(v.crc, s0, v.crc(e));
    SecondaryStillValid(v, l, d0, x);
  }

  /** When the copies agree to begin with, the update gives back the very same disk. */
  lemma FinalDiskIsStart(v: Device, l: Layout, d0: Disk)
    requires Start(v, l, d0) && CopyValid(v, d0, Secondary)
    requires MainEntries(l, d0) == d0[l.e2..l.e2 + l.len]
    ensures FinalDisk(v, l, d0) == d0
  {
    hide Put, SetEntriesCrc;
    var s0, e := Header(v, d0, Secondary), MainEntries(l, d0);
    SetEntriesCrcIsSound(v.crc, s0, v.crc(e));
    SoundHeaderDetermined(v.crc, SetEntriesCrc(v.crc, s0, v.crc(e)), s0);
    PutOfTake(v, l, d0);
    assert FinalTables(v, l, d0) == Take(v, l, d0);
  }

  /** The stages, run one after another without faults, all return 0 and end on `d'`. */
  ghost predicate Succeeds(v: Device, l: Layout, env: Env, d: Disk, stages: seq<Stage>, d': Disk)
    decreases |stages|
  {
    if stages == [] then d == d'
    else
      && Sane(v, l, d)
      && var p := PreparePlan(v, l, d, stages[0], env);
      && p.code == 0
      && Succeeds(v, l, env, ApplyAll(d, p.writes), stages[1..], d')
  }

  function StagesFrom(s: Stage): (r: seq<Stage>) {
    match s
    case UpdateMain => [UpdateMain, UpdateBackup, UpdateFinalize]
    case UpdateBackup => [UpdateBackup, UpdateFinalize]
    case UpdateFinalize => [UpdateFinalize]
  }

  /** The tables that a completed stage leaves. */
  function AfterMain(v: Device, l: Layout, d0: Disk, x: Tables): (y: Tables)
    requires Fits(v, l, |d0|) && InBlock(x.p) && InBlock(x.s)
  {
    ChainTables(v, x, SwappedEntries(v, l, d0)).(p := SetState(v.crc, x.p, false))
  }

  lemma MainLands(v: Device, l: Layout, d0: Disk, x: Tables)
    requires Start(v, l, d0) && Clean(v, l, d0, x)
    requires OnPrimary(v, l, d0, x) && GetState(v.crc, x.s) == GptOk && HasBackups(v, l, d0)
    ensures var y := AfterMain(v, l, d0, x);
      && Clean(v, l, d0, y) && !OnPrimary(v, l, d0, y)
      && WritesFit(|d0|, MainWrites(v, l, d0, x))
      && ApplyAll(Put(v, l, d0, x), MainWrites(v, l, d0, x)) == Put(v, l, d0, y)
  {
    hide Put, SetState, SetEntriesCrc, SwappedEntries, ApplyAll;
    var c := ChainTables(v, x, SwappedEntries(v, l, d0));
    MainSteps(v, l, d0, x);
    SetThenGet(v.crc, x.p, false);
    ChainWritesEffect(v, l, d0, x, c);
    ApplyConcat(Put(v, l, d0, x), ChainWrites(v, l, |d0|, c), [Write(v.blk, SetState(v.crc, x.p, false))]);
    WritePrimary(v, l, d0, c, SetState(v.crc, x.p, false));
  }

  lemma BackupLands(v: Device, l: Layout, d0: Disk, x: Tables)
    requires Fits(v, l, |d0|) && TablesFit(v, l, x) && InBlock(x.p) && InBlock(x.s)
    ensures WritesFit(|d0|, BackupWrites(v, l, d0, x))
    ensures ApplyAll(Put(v, l, d0, x), BackupWrites(v, l, d0, x)) == Put(v, l, d0, AfterBackup(v, x))
  {
    hide Put, SetState, ApplyAll, InBlock;
    var p, s := SetState(v.crc, x.p, true), SetState(v.crc, x.s, false);
    WritePrimary(v, l, d0, x, p);
    WriteSecondary(v, l, d0, x.(p := p), s);
    ApplyTwo(Put(v, l, d0, x), Write(v.blk, p), Write(|d0| - v.blk, s));
  }

  /** Whatever the secondary header held, FINALIZE leaves the one that fits the primary's entries. */
  lemma FinalizeHeader(v: Device, s: ByteString, s0: ByteString, crc: u32)
    requires InBlock(s) && InBlock(s0) && SameFrame(s, s0) && GetState(v.crc, s0) == GptOk
    ensures InBlock(SetEntriesCrc(v.crc, s, crc))
    ensures SetState(v.crc, SetEntriesCrc(v.crc, s, crc), true) == SetEntriesCrc(v.crc, s0, crc)
  {
    hide SetState, SetEntriesCrc, SameFrame, EntriesCrc;
    var c, c0 := SetEntriesCrc(v.crc, s, crc), SetEntriesCrc(v.crc, s0, crc);
    SetEntriesCrcIsSound(v.crc, s, crc);
    SetEntriesCrcIsSound(v.crc, s0, crc);
    SetThenGet(v.crc, c, true);
    FrameTransitive(SetState(v.crc, c, true), c, s);
    FrameTransitive(SetState(v.crc, c, true), s, s0);
    FrameSymmetric(c0, s0);
    FrameTransitive(SetState(v.crc, c, true), s0, c0);
    SoundHeaderDetermined(v.crc, SetState(v.crc, c, true), c0);
  }

  lemma FinalizeLands(v: Device, l: Layout, d0: Disk, x: Tables)
    requires Start(v, l, d0) && Clean(v, l, d0, x) && OnPrimary(v, l, d0, x)
    ensures WritesFit(|d0|, FinalizeWrites(v, l, d0, x))
    ensures ApplyAll(Put(v, l, d0, x), FinalizeWrites(v, l, d0, x)) == FinalDisk(v, l, d0)
  {
    hide Put, SetState, SetEntriesCrc, ApplyAll, GetState, SameFrame;
    var e := MainEntries(l, d0);
    var c := ChainTables(v, x, e);
    FinalizeHeader(v, x.s, Header(v, d0, Secondary), v.crc(e));
    var s := SetState(v.crc, c.s, true);
    ChainWritesEffect(v, l, d0, x, c);
    ApplyConcat(Put(v, l, d0, x), ChainWrites(v, l, |d0|, c), [Write(|d0| - v.blk, s)]);
    WriteSecondary(v, l, d0, c, s);
  }

  /** The stage that the headers call for runs, and returns 0, once the boot LUN is switched. */
  lemma DetectedStageRuns(v: Device, l: Layout, d0: Disk, x: Tables, stage: Stage, env: Env)
    requires Start(v, l, d0) && Clean(v, l, d0, x) && !LunFails(v, env)
    requires Detect(GetState(v.crc, x.p), GetState(v.crc, x.s)) == Detected(stage)
    ensures Sane(v, l, Put(v, l, d0, x))
    ensures PreparePlan(v, l, Put(v, l, d0, x), stage, env) == Plan(0,
      match stage
      case UpdateMain => if HasBackups(v, l, d0) then MainWrites(v, l, d0, x) else []
      case UpdateBackup => BackupWrites(v, l, d0, x)
      case UpdateFinalize => FinalizeWrites(v, l, d0, x))
  {
    hide Put, GetState, MainWrites, BackupWrites, FinalizeWrites, MainPlan, BackupPlan, FinalizePlan, OnPrimary, OnSecondary;
    CleanDescribes(v, l, d0, x);
    match stage {
      case UpdateMain => MainPlanOnTables(v, l, d0, x);
      case UpdateBackup => BackupPlanOnTables(v, l, d0, x);
      case UpdateFinalize => FinalizePlanOnTables(v, l, d0, x);
    }
  }

  lemma SucceedsCons(v: Device, l: Layout, env: Env, d: Disk, stage: Stage, stages: seq<Stage>, d': Disk)
    requires Sane(v, l, d) && PreparePlan(v, l, d, stage, env).code == 0
    requires Succeeds(v, l, env, ApplyAll(d, PreparePlan(v, l, d, stage, env).writes), stages, d')
    ensures Succeeds(v, l, env, d, [stage] + stages, d')
  {
    hide PreparePlan, Sane, ApplyAll;
    assert ([stage] + stages)[1..] == stages;
  }

  lemma RecoverFinalize(v: Device, l: Layout, d0: Disk, x: Tables, env: Env)
    requires Start(v, l, d0) && Clean(v, l, d0, x) && !LunFails(v, env)
    requires OnPrimary(v, l, d0, x) && GetState(v.crc, x.s) == GptBadSignature
    ensures Succeeds(v, l, env, Put(v, l, d0, x), StagesFrom(UpdateFinalize), FinalDisk(v, l, d0))
  {
    hide Put, PreparePlan, FinalizeWrites, FinalDisk, OnSecondary;
    DetectedStageRuns(v, l, d0, x, UpdateFinalize, env);
    FinalizeLands(v, l, d0, x);
    SucceedsCons(v, l, env, Put(v, l, d0, x), UpdateFinalize, [], FinalDisk(v, l, d0));
    assert [UpdateFinalize] + [] == StagesFrom(UpdateFinalize);
  }

  lemma RecoverBackup(v: Device, l: Layout, d0: Disk, x: Tables, env: Env)
    requires Start(v, l, d0) && Clean(v, l, d0, x) && !LunFails(v, env) && !OnPrimary(v, l, d0, x)
    ensures Succeeds(v, l, env, Put(v, l, d0, x), StagesFrom(UpdateBackup), FinalDisk(v, l, d0))
  {
    hide Put, PreparePlan, BackupWrites, FinalDisk, AfterBackup, Succeeds, OnSecondary, CrcOk;
    CleanPhase(v, l, d0, x);
    SwappedIsOk(v, l, d0, x);
    DetectedStageRuns(v, l, d0, x, UpdateBackup, env);
    BackupSteps(v, l, d0, x);
    BackupLands(v, l, d0, x);
    RecoverFinalize(v, l, d0, AfterBackup(v, x), env);
    SucceedsCons(v, l, env, Put(v, l, d0, x), UpdateBackup, StagesFrom(UpdateFinalize), FinalDisk(v, l, d0));
    assert [UpdateBackup] + StagesFrom(UpdateFinalize) == StagesFrom(UpdateBackup);
  }

  lemma RecoverMain(v: Device, l: Layout, d0: Disk, x: Tables, env: Env)
    requires Start(v, l, d0) && Clean(v, l, d0, x) && !LunFails(v, env) && HasBackups(v, l, d0)
    requires OnPrimary(v, l, d0, x) && GetState(v.crc, x.s) == GptOk
    ensures Succeeds(v, l, env, Put(v, l, d0, x), StagesFrom(UpdateMain), FinalDisk(v, l, d0))
  {
    hide Put, PreparePlan, MainWrites, FinalDisk, AfterMain, Succeeds, SwappedEntries;
    DetectedStageRuns(v, l, d0, x, UpdateMain, env);
    MainLands(v, l, d0, x);
    RecoverBackup(v, l, d0, AfterMain(v, l, d0, x), env);
    SucceedsCons(v, l, env, Put(v, l, d0, x), UpdateMain, StagesFrom(UpdateBackup), FinalDisk(v, l, d0));
    assert [UpdateMain] + StagesFrom(UpdateBackup) == StagesFrom(UpdateMain);
  }

  /**
   Recovery. In every state that a run can reach with both header blocks intact, the stages from the
   detected one through FINALIZE succeed and end on one disk, which depends only on the start.
   */
  lemma Recovery(v: Device, l: Layout, d0: Disk, d: Disk, env: Env)
    requires Inv(v, l, d0, d) && Intact(v, d) && HasBackups(v, l, d0) && !LunFails(v, env)
    ensures Sane(v, l, d) && DetectedStage(v, d).Detected?
    ensures Succeeds(v, l, env, d, StagesFrom(DetectedStage(v, d).stage), FinalDisk(v, l, d0))
  {
    hide Put, FinalDisk, Succeeds, StagesFrom;
    var x := Take(v, l, d);
    InvIsSane(v, l, d0, d);
    CleanPhase(v, l, d0, x);
    if !OnPrimary(v, l, d0, x) {
      RecoverBackup(v, l, d0, x, env);
    } else if GetState(v.crc, x.s) == GptOk {
      RecoverMain(v, l, d0, x, env);
    } else {
      RecoverFinalize(v, l, d0, x, env);
    }
  }

  /** Calls that are only cut, never torn, leave both header blocks intact. */
  lemma {:induction false} CutsLeaveIntact(v: Device, l: Layout, d0: Disk, d: Disk, calls: seq<Call>)
    requires Inv(v, l, d0, d) && Intact(v, d)
    requires forall i :: 0 <= i < |calls| ==> !calls[i].fault.Torn?
    ensures Run(v, l, d0, d, calls).Running? && Intact(v, Run(v, l, d0, d, calls).disk)
    decreases |calls|
  {
    hide Inv, Intact, Safe, PreparePlan;
    if calls != [] {
      var c, goal := calls[0], UpdateGoal(v, l, d0);
      CallSafe(v, l, d0, d, c);
      var ws := CallWrites(v, l, d, c);
      SafeOutcome(goal, d, ws, c.fault);
      CutsLeaveIntact(v, l, d0, Perform(d, ws, c.fault).disk, calls[1..]);
    }
  }

  /**
   Start on a good disk, run any calls cut anywhere, and then the stages from the detected one:
   at most three calls, all succeeding, lead to the final disk.
   */
  lemma RecoveryAfterCuts(v: Device, l: Layout, d0: Disk, calls: seq<Call>, env: Env)
    requires Start(v, l, d0) && HasBackups(v, l, d0) && !LunFails(v, env)
    requires forall i :: 0 <= i < |calls| ==> !calls[i].fault.Torn?
    ensures Inv(v, l, d0, d0)
    ensures var d := Run(v, l, d0, d0, calls).disk;
      && Sane(v, l, d) && DetectedStage(v, d).Detected?
      && |StagesFrom(DetectedStage(v, d).stage)| <= 3
      && Succeeds(v, l, env, d, StagesFrom(DetectedStage(v, d).stage), FinalDisk(v, l, d0))
  {
    hide FinalDisk, Succeeds, Put;
    StartIsInv(v, l, d0);
    CutsLeaveIntact(v, l, d0, d0, calls);
    Recovery(v, l, d0, Run(v, l, d0, d0, calls).disk, env);
  }

  /** A whole update, on a disk whose copies agree, gives back every byte. */
  lemma UpdateRoundTrip(v: Device, l: Layout, d0: Disk, env: Env)
    requires Start(v, l, d0) && HasBackups(v, l, d0) && !LunFails(v, env)
    requires CopyValid(v, d0, Secondary) && MainEntries(l, d0) == d0[l.e2..l.e2 + l.len]
    ensures Succeeds(v, l, env, d0, [UpdateMain, UpdateBackup, UpdateFinalize], d0)
  {
    hide FinalDisk, Succeeds, Put, CopyValid;
    StartIsInv(v, l, d0);
    Recovery(v, l, d0, d0, env);
    FinalDiskIsStart(v, l, d0);
  }

  /** A header block torn where its checksum shows it: every later call fails and writes nothing. */
  lemma TornHeaderStopsUpdate(v: Device, l: Layout, d0: Disk, d: Disk, stage: Stage, env: Env)
    requires Inv(v, l, d0, d) && !Intact(v, d)
    ensures Sane(v, l, d) && PreparePlan(v, l, d, stage, env) == Plan(-1, [])
    ensures CopyValid(v, d, Primary) || CopyValid(v, d, Secondary)
  {
    hide StagePlan, CrcOk, Put, CopyValid;
    InvIsSane(v, l, d0, d);
  }

  lemma NoBackupsNoPlan(v: Device, l: Layout, d0: Disk, c: Call)
    requires Start(v, l, d0) && !HasBackups(v, l, d0)
    ensures Sane(v, l, d0) && CallWrites(v, l, d0, c) == []
  {
    hide Put, StagePlan, HasBackups, Found, CrcOk, SigOk;
    StartIsInv(v, l, d0);
    InvIsSane(v, l, d0, d0);
    PutOfTake(v, l, d0);
    if c.stage.UpdateMain? && !LunFails(v, c.env) {
      DetectedStageRuns(v, l, d0, Take(v, l, d0), UpdateMain, c.env);
    }
  }

  /** Without a single backup pair, no call of any run writes anything. */
  lemma {:induction false} NoBackupsNoWrites(v: Device, l: Layout, d0: Disk, calls: seq<Call>)
    requires Start(v, l, d0) && !HasBackups(v, l, d0)
    ensures Inv(v, l, d0, d0) && Run(v, l, d0, d0, calls) == Running(d0)
    decreases |calls|
  {
    hide Inv, HasBackups, CallWrites, Start;
    StartIsInv(v, l, d0);
    if calls != [] {
      NoBackupsNoPlan(v, l, d0, calls[0]);
      NoBackupsNoWrites(v, l, d0, calls[1..]);
    }
  }

  function NextStage(s: Stage): (r: Stage) {
    match s
    case UpdateMain => UpdateBackup
    case UpdateBackup => UpdateFinalize
    case UpdateFinalize => UpdateMain
  }

  /** The tables that a stage which ran has left. */
  function AfterStage(v: Device, l: Layout, d0: Disk, x: Tables, stage: Stage): (y: Tables)
    requires Start(v, l, d0) && Clean(v, l, d0, x)
  {
    match stage
    case UpdateMain => AfterMain(v, l, d0, x)
    case UpdateBackup => AfterBackup(v, x)
    case UpdateFinalize => FinalTables(v, l, d0)
  }

  lemma AfterStageLands(v: Device, l: Layout, d0: Disk, x: Tables, stage: Stage, env: Env)
    requires Start(v, l, d0) && Clean(v, l, d0, x) && !LunFails(v, env) && HasBackups(v, l, d0)
    requires Detect(GetState(v.crc, x.p), GetState(v.crc, x.s)) == Detected(stage)
    ensures Sane(v, l, Put(v, l, d0, x))
    ensures var p := PreparePlan(v, l, Put(v, l, d0, x), stage, env);
      && TablesFit(v, l, AfterStage(v, l, d0, x, stage))
      && p.code == 0 && ApplyAll(Put(v, l, d0, x), p.writes) == Put(v, l, d0, AfterStage(v, l, d0, x, stage))
  {
    hide Put, GetState, PreparePlan, MainWrites, BackupWrites, FinalizeWrites, AfterMain, AfterBackup, FinalTables, HasBackups;
    DetectedStageRuns(v, l, d0, x, stage, env);
    CleanPhase(v, l, d0, x);
    match stage {
      case UpdateMain => MainLands(v, l, d0, x);
      case UpdateBackup =>
        BackupSteps(v, l, d0, x);
        BackupLands(v, l, d0, x);
      case UpdateFinalize => FinalizeLands(v, l, d0, x);
    }
  }

  lemma FinalTablesClean(v: Device, l: Layout, d0: Disk)
    requires Start(v, l, d0)
    ensures var x := FinalTables(v, l, d0);
      Clean(v, l, d0, x) && OnPrimary(v, l, d0, x) && GetState(v.crc, x.s) == GptOk
  {
    hide SetEntriesCrc;
    SetEntriesCrcIsSound(v.crc, Header(v, d0, Secondary), v.crc(MainEntries(l, d0)));
  }

  lemma AfterStageDetects(v: Device, l: Layout, d0: Disk, x: Tables, stage: Stage)
    requires Start(v, l, d0) && Clean(v, l, d0, x) && HasBackups(v, l, d0)
    requires Detect(GetState(v.crc, x.p), GetState(v.crc, x.s)) == Detected(stage)
    ensures var y := AfterStage(v, l, d0, x, stage);
      && Clean(v, l, d0, y)
      && Detect(GetState(v.crc, y.p), GetState(v.crc, y.s)) == Detected(NextStage(stage))
  {
    hide GetState, AfterMain, AfterBackup, FinalTables, HasBackups, OnSecondary, SwappedEntries, MainWrites, Put;
    CleanPhase(v, l, d0, x);
    match stage {
      case UpdateMain =>
        MainLands(v, l, d0, x);
        CleanPhase(v, l, d0, AfterMain(v, l, d0, x));
        SwappedIsOk(v, l, d0, AfterMain(v, l, d0, x));
      case UpdateBackup =>
        BackupSteps(v, l, d0, x);
        CleanPhase(v, l, d0, AfterBackup(v, x));
      case UpdateFinalize =>
        FinalTablesClean(v, l, d0);
        CleanPhase(v, l, d0, FinalTables(v, l, d0));
    }
  }

  lemma SwappedIsOk(v: Device, l: Layout, d0: Disk, x: Tables)
    requires Start(v, l, d0) && TablesFit(v, l, x) && OnSecondary(v, l, d0, x)
    ensures GetState(v.crc, x.s) == GptOk
  {
  }

  /** A reachable disk with intact headers is its tables. */
  lemma IntactIsClean(v: Device, l: Layout, d0: Disk, d: Disk)
    requires Inv(v, l, d0, d) && Intact(v, d)
    ensures Start(v, l, d0) && Fits(v, l, |d|)
    ensures var x := Take(v, l, d);
      && Clean(v, l, d0, x) && Put(v, l, d0, x) == d
      && DetectedStage(v, d) == Detect(GetState(v.crc, x.p), GetState(v.crc, x.s))
  {
    hide Put, CrcOk, GetState, SwappedEntries, SetState;
  }

  /**
   A completed stage is remembered. On the disk that running it leaves, asking for MAIN or BACKUP
   again succeeds and writes nothing, and every stage but the next one fails and writes nothing. A
   second FINALIZE fails.
   */
  lemma StageRemembered(v: Device, l: Layout, d0: Disk, d: Disk, stage: Stage, env: Env, asked: Stage, env': Env)
    requires Inv(v, l, d0, d) && Intact(v, d) && HasBackups(v, l, d0) && !LunFails(v, env)
    requires DetectedStage(v, d) == Detected(stage) && asked != NextStage(stage)
    ensures Sane(v, l, d) && PreparePlan(v, l, d, stage, env).code == 0
    ensures var d' := ApplyAll(d, PreparePlan(v, l, d, stage, env).writes);
      && Sane(v, l, d')
      && PreparePlan(v, l, d', asked, env') == Plan(if asked == stage && !stage.UpdateFinalize? then 0 else -1, [])
  {
    hide Inv, Put, GetState, AfterStage, StagePlan, HasBackups, OnPrimary, OnSecondary, Intact, ApplyAll;
    IntactIsClean(v, l, d0, d);
    var x := Take(v, l, d);
    AfterStageLands(v, l, d0, x, stage, env);
    AfterStageDetects(v, l, d0, x, stage);
    CleanDescribes(v, l, d0, AfterStage(v, l, d0, x, stage));
  }

  /**
   After MAIN has run the machine boots from the secondary copy alone, and there every paired
   partition name leads to what the primary table lists as its backup.
   */
  lemma MainPointsAtBackups(v: Device, l: Layout, d0: Disk, d: Disk, env: Env, n: nat)
    requires Inv(v, l, d0, d) && Intact(v, d) && !LunFails(v, env) && DetectedStage(v, d) == Detected(UpdateMain)
    requires Separate(v.names) && n < |v.names| && HasPair(Chunks(MainEntries(l, d0), l.entry), v.names[n])
    ensures Sane(v, l, d)
    ensures var d' := ApplyAll(d, PreparePlan(v, l, d, UpdateMain, env).writes);
      var main, boot := Chunks(MainEntries(l, d0), l.entry), Chunks(d'[l.e2..l.e2 + l.len], l.entry);
      && !CopyValid(v, d', Primary) && CopyValid(v, d', Secondary)
      && First(boot, v.names[n]) < |boot|
      && Head(boot[First(boot, v.names[n])]) == Head(main[Second(main, v.names[n])])
  {
    hide Inv, Put, AfterMain, Chunks, HasPair, CopyValid, Found, GetState, Intact, ApplyAll, PreparePlan, OnPrimary, OnSecondary;
    IntactIsClean(v, l, d0, d);
    var x := Take(v, l, d);
    FoundIffPair(Chunks(MainEntries(l, d0), l.entry), v.names);
    CleanPhase(v, l, d0, x);
    AfterStageLands(v, l, d0, x, UpdateMain, env);
    BackupsComeFirst(v, l, d0, x, n);
  }

  lemma BackupsComeFirst(v: Device, l: Layout, d0: Disk, x: Tables, n: nat)
    requires Start(v, l, d0) && Clean(v, l, d0, x) && HasBackups(v, l, d0)
    requires OnPrimary(v, l, d0, x) && GetState(v.crc, x.s) == GptOk
    requires Separate(v.names) && n < |v.names| && HasPair(Chunks(MainEntries(l, d0), l.entry), v.names[n])
    ensures TablesFit(v, l, AfterMain(v, l, d0, x))
    ensures var d := Put(v, l, d0, AfterMain(v, l, d0, x));
      var main, boot := Chunks(MainEntries(l, d0), l.entry), Chunks(d[l.e2..l.e2 + l.len], l.entry);
      && !CopyValid(v, d, Primary) && CopyValid(v, d, Secondary)
      && First(boot, v.names[n]) < |boot|
      && Head(boot[First(boot, v.names[n])]) == Head(main[Second(main, v.names[n])])
  {
    hide Put, AfterMain, SwappedEntries, Chunks, SwapAll, HasPair, CopyValid, Start, Clean, OnPrimary;
    MainCopies(v, l, d0, x);
    SwappedChunks(v, l, d0);
    LookupFlips(Chunks(MainEntries(l, d0), l.entry), v.names, n);
    SeekBound(SwapAll(Chunks(MainEntries(l, d0), l.entry), v.names), v.names[n]);
  }

  lemma SeekBound(es: seq<Entry>, name: string)
    requires Table(es) && HasPair(es, name)
    ensures First(es, name) < |es|
  {
  }

  lemma MainCopies(v: Device, l: Layout, d0: Disk, x: Tables)
    requires Start(v, l, d0) && Clean(v, l, d0, x) && HasBackups(v, l, d0)
    requires OnPrimary(v, l, d0, x) && GetState(v.crc, x.s) == GptOk
    ensures Fits(v, l, |d0|) && TablesFit(v, l, AfterMain(v, l, d0, x))
    ensures var d := Put(v, l, d0, AfterMain(v, l, d0, x));
      && !CopyValid(v, d, Primary) && CopyValid(v, d, Secondary)
      && d[l.e2..l.e2 + l.len] == SwappedEntries(v, l, d0)
  {
    hide Put, GetState, AfterMain, SwappedEntries, HasBackups, MainWrites, SameFrame, EntriesCrc;
    var y := AfterMain(v, l, d0, x);
    MainLands(v, l, d0, x);
    CleanPhase(v, l, d0, y);
    TakeOfPut(v, l, d0, y);
    SecondaryStillValid(v, l, d0, y);
  }

  lemma SwappedChunks(v: Device, l: Layout, d0: Disk)
    requires Fits(v, l, |d0|)
    ensures Chunks(SwappedEntries(v, l, d0), l.entry) == SwapAll(Chunks(MainEntries(l, d0), l.entry), v.names)
  {
    SwapTableShape(MainEntries(l, d0), l.entry, l.count, v.names);
  }

  //// Where the guarantees end

  /** MAIN on a start disk, in the layout's terms. */
  lemma FirstMain(v: Device, l: Layout, d0: Disk, env: Env)
    requires Start(v, l, d0) && HasBackups(v, l, d0) && !LunFails(v, env)
    ensures var x := Take(v, l, d0);
      && Clean(v, l, d0, x) && OnPrimary(v, l, d0, x) && GetState(v.crc, x.s) == GptOk && Put(v, l, d0, x) == d0
      && Inv(v, l, d0, d0) && Sane(v, l, d0)
      && PreparePlan(v, l, d0, UpdateMain, env) == Plan(0, MainWrites(v, l, d0, x))
  {
    hide Put, CrcOk, SigOk, MainWrites, PreparePlan, HasBackups;
    StartIsInv(v, l, d0);
    PutOfTake(v, l, d0);
    assert OnPrimary(v, l, d0, Take(v, l, d0)) by {
      FrameReflexive(Header(v, d0, Secondary));
    }
    DetectedStageRuns(v, l, d0, Take(v, l, d0), UpdateMain, env);
  }

  /**
   A tear can send the reader's checksum out of its block: on every start disk, the first write of
   MAIN torn in the right place leaves a size field beyond the block. The run then goes on exactly
   when the memory behind the buffer does not make that checksum match.
   */
  lemma TearLeavesBlock(v: Device, l: Layout, d0: Disk, env: Env) returns (g: ByteString)
    requires Start(v, l, d0) && HasBackups(v, l, d0) && !LunFails(v, env) && v.blk < 0xFFFF_FFFF
    ensures Inv(v, l, d0, d0)
    ensures var r := Run(v, l, d0, d0, [Call(UpdateMain, env, Torn(0, g))]);
      && |r.disk| == |d0| && Header(v, r.disk, Secondary) == g && !InBlock(g)
      && (r.Running? <==> !v.passes(g))
  {
    hide Put, PreparePlan, Inv, Start, Clean, OnPrimary, HasBackups, SetState, GetState, SetEntriesCrc, SwappedEntries, Splice, Sane;
    FirstMain(v, l, d0, env);
    StartFits(v, l, d0);
    var x := Take(v, l, d0);
    g := Put4(x.s, HEADER_SIZE_OFFSET, v.blk + 1);
    Get4OfPut4(x.s, HEADER_SIZE_OFFSET, v.blk + 1);
    assert InBlock(x.p) && InBlock(x.s) by { CleanInBlock(v, l, d0, x); }
    var ws := MainWrites(v, l, d0, x);
    WriteSecondary(v, l, d0, x, g);
    HeadersOfPut(v, l, d0, x.(s := g));
    assert ws[0].off == |d0| - v.blk && |ws[0].data| == v.blk;
    OneTornCall(v, l, d0, Call(UpdateMain, env, Torn(0, g)), ws);
  }

  lemma StartFits(v: Device, l: Layout, d0: Disk)
    requires Start(v, l, d0)
    ensures Fits(v, l, |d0|)
  {
  }

  lemma CleanInBlock(v: Device, l: Layout, d0: Disk, x: Tables)
    requires Start(v, l, d0) && Clean(v, l, d0, x)
    ensures InBlock(x.p) && InBlock(x.s)
  {
  }

  /** A run of one call whose first write is torn. */
  lemma OneTornCall(v: Device, l: Layout, d0: Disk, c: Call, ws: seq<Write>)
    requires Inv(v, l, d0, d0) && Sane(v, l, d0) && ws != [] && CallWrites(v, l, d0, c) == ws
    requires c.fault.Torn? && c.fault.after == 0 && |c.fault.garbage| == |ws[0].data|
    ensures var r := Run(v, l, d0, d0, [c]);
      && WriteFits(|d0|, Write(ws[0].off, c.fault.garbage))
      && r.disk == Apply(d0, Write(ws[0].off, c.fault.garbage))
      && (r.Running? <==> Seen(v, |d0|, ws[0], c.fault.garbage))
  {
    hide Inv, Sane, CallWrites, Apply, Seen, Survives;
    assert [c][1..] == [];
    assert WriteFits(|d0|, ws[0]);
  }

  lemma ShortWrite(v: Device, l: Layout, d0: Disk, x: Tables, e: ByteString, k: nat)
    requires Fits(v, l, |d0|) && TablesFit(v, l, x) && |e| == l.len && k <= l.len
    ensures Apply(Put(v, l, d0, x), Write(l.e2, e[..k])) == Put(v, l, d0, x.(t := e[..k] + x.t[k..]))
  {
    hide Splice;
    var d, t := Put(v, l, d0, x), e[..k] + x.t[k..];
    WriteEntries(v, l, d0, x, t);
    EntriesOfPut(v, l, d0, x);
    SpliceWide(d, l.e2, e[..k], l.len);
  }

  /** A copy whose header is sound is valid exactly when the header's checksum is that of its array. */
  lemma SecondaryValidIff(v: Device, l: Layout, d0: Disk, x: Tables)
    requires Start(v, l, d0) && TablesFit(v, l, x)
    requires InBlock(x.s) && SameFrame(x.s, Header(v, d0, Secondary)) && GetState(v.crc, x.s) == GptOk
    ensures CopyValid(v, Put(v, l, d0, x), Secondary) <==> EntriesCrc(x.s) == v.crc(x.t)
  {
    hide Put, GetState, EntriesCrc;
    TakeOfPut(v, l, d0, x);
    FrameFixesFields(x.s, Header(v, d0, Secondary));
  }

  /**
   blk_rw reports a short write as success. If the array write of the first MAIN stops after k bytes
   that way, the primary header is broken all the same, and a valid copy is left exactly when the
   checksum does not notice the missing bytes.
   */
  lemma ShortWriteLosesBoth(v: Device, l: Layout, d0: Disk, env: Env, k: nat)
    requires Start(v, l, d0) && HasBackups(v, l, d0) && !LunFails(v, env) && k <= l.len
    ensures Sane(v, l, d0) && |PreparePlan(v, l, d0, UpdateMain, env).writes| == 3
    ensures var ws, e := PreparePlan(v, l, d0, UpdateMain, env).writes, SwappedEntries(v, l, d0);
      && ws[1] == Write(l.e2, e)
      && var d := Apply(Apply(Apply(d0, ws[0]), Write(l.e2, e[..k])), ws[2]);
      (CopyValid(v, d, Primary) || CopyValid(v, d, Secondary))
      <==> v.crc(e[..k] + d0[l.e2 + k..l.e2 + l.len]) == v.crc(e)
  {
    hide Put, PreparePlan, Inv, CopyValid, HasBackups, SetState, GetState, SetEntriesCrc, SwappedEntries, Splice, Sane;
    FirstMain(v, l, d0, env);
    var x, e := Take(v, l, d0), SwappedEntries(v, l, d0);
    var y, p := ChainTables(v, x, e), SetState(v.crc, x.p, false);
    var t := e[..k] + x.t[k..];
    assert d0[l.e2 + k..l.e2 + l.len] == x.t[k..];
    WriteSecondary(v, l, d0, x, y.s);
    ShortWrite(v, l, d0, x.(s := y.s), e, k);
    WritePrimary(v, l, d0, x.(s := y.s, t := t), p);
    BrokenMainValidIff(v, l, d0, x, Tables(p, y.s, t));
  }

  lemma BrokenMainValidIff(v: Device, l: Layout, d0: Disk, x: Tables, z: Tables)
    requires Start(v, l, d0) && Clean(v, l, d0, x) && OnPrimary(v, l, d0, x) && HasBackups(v, l, d0)
    requires GetState(v.crc, x.s) == GptOk && TablesFit(v, l, z)
    requires z.p == SetState(v.crc, x.p, false) && z.s == ChainTables(v, x, SwappedEntries(v, l, d0)).s
    ensures CopyValid(v, Put(v, l, d0, z), Primary) || CopyValid(v, Put(v, l, d0, z), Secondary)
      <==> v.crc(z.t) == v.crc(SwappedEntries(v, l, d0))
  {
    hide Put, HasBackups, SetState, SetEntriesCrc, SwappedEntries, Clean, CrcOk, SigOk, SameFrame, EntriesCrc, GetState;
    MainSteps(v, l, d0, x);
    CleanInBlock(v, l, d0, x);
    SetThenGet(v.crc, x.p, false);
    SecondaryValidIff(v, l, d0, z);
    HeadersOfPut(v, l, d0, z);
  }
}
