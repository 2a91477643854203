/**
 InteractionHandler: any number of Acquire callers against one Routine thread, which holds the
 INTERACTION hint, waits for the display to go idle, and releases it. A mutex makes the locked
 sections atomic; the wait itself runs unlocked and is cut short through an eventfd.

 The protocol is a state machine over those atomic steps, with a program counter for Routine; the
 class at the end runs the same locked sections on fields.
 */
module Interaction {
  import opened CArithmetic

  //// Time

  const MS_IN_SEC := 1000
  const NS_IN_MS := 1_000_000
  const NS_IN_SEC := 1_000_000_000
  const SIZE_T := 0x1_0000_0000_0000_0000
  const U32 := 0x1_0000_0000

  datatype Timespec = Timespec(sec: int, nsec: int)

  /** A reading of the monotonic clock; its milliseconds fit a size_t. */
  predicate ClockReading(t: Timespec) {
    0 <= t.sec < SIZE_T / MS_IN_SEC - 1 && 0 <= t.nsec < NS_IN_SEC
  }

  function Nanos(t: Timespec): (n: int) {
    t.sec * NS_IN_SEC + t.nsec
  }

  /** Two additions to a size_t, each wrapping. */
  function CalcTimespecDiffMs(start: Timespec, end: Timespec): (ms: nat) {
    var a := ((end.sec - start.sec) * MS_IN_SEC) % SIZE_T;
    (a + TruncDiv(end.nsec - start.nsec, NS_IN_MS)) % SIZE_T
  }

  /** On a monotonic clock the difference never wraps and is off by less than a millisecond. */
  lemma ElapsedIsClose(start: Timespec, end: Timespec)
    requires ClockReading(start) && ClockReading(end) && Nanos(start) <= Nanos(end)
    ensures var err := CalcTimespecDiffMs(start, end) * NS_IN_MS - (Nanos(end) - Nanos(start));
      -NS_IN_MS < err < NS_IN_MS
  {
    var s, n := end.sec - start.sec, end.nsec - start.nsec;
    assert s >= 0 && (s == 0 ==> n >= 0);
    var q := TruncDiv(n, NS_IN_MS);
    assert -NS_IN_MS < q * NS_IN_MS - n < NS_IN_MS;
    assert -1000 < q < 1000;
    assert 0 <= s * MS_IN_SEC + q < SIZE_T;
    assert CalcTimespecDiffMs(start, end) == s * MS_IN_SEC + q;
  }

  //// Requested durations

  type Ms = n: int | 0 <= n < 0x8000_0000

  datatype Config = Config(minMs: Ms, maxMs: Ms, offsetMs: Ms, idleSupport: bool)

  type Int32 = n: int | -0x8000_0000 <= n < 0x8000_0000

  /** The int and uint32_t mix of the source: the sum wraps and is compared as unsigned. */
  function FinalDuration(c: Config, duration: Int32): (ms: Ms) {
    var input := (duration + c.offsetMs) % U32;
    if input > c.maxMs then c.maxMs else if input > c.minMs then input else c.minMs
  }

  function Clamp(x: int, lo: int, hi: int): (r: int) {
    if x > hi then hi else if x < lo then lo else x
  }

  /**
   The duration is clamped as intended exactly when the request plus the offset is not negative;
   below that it becomes the longest duration instead of the shortest.
   */
  lemma FinalDurationClampsIff(c: Config, duration: Int32)
    requires c.minMs <= c.maxMs
    ensures FinalDuration(c, duration) == Clamp(duration + c.offsetMs, c.minMs, c.maxMs)
      <==> duration + c.offsetMs >= 0 || c.minMs == c.maxMs
  {
  }

  lemma NegativeRequestGetsMaximum()
    ensures var c := Config(1400, 5650, 650, true);
      FinalDuration(c, -651) == 5650 && Clamp(-651 + c.offsetMs, c.minMs, c.maxMs) == 1400
  {
  }

  //// The state machine

  datatype Mode = Uninitialized | Idle | Interacting | Waiting

  /** Where Routine is: at the condition variable, inside WaitForIdle, before Release, or gone. */
  datatype Pc = AtCond | Entered | FirstPoll | CheckIdle | SecondPoll | BeforeRelease | Returned

  /** What happened, in order. Requests carry the instant, in nanoseconds, that they ask for. */
  datatype Event =
    | PerfLock
    | PerfRel
    | Accepted(until: int)
    | Skipped(until: int)
    | DirectHint(ms: Ms)
    | WaitBegin(pending: nat)
    | Drained(found: bool)

  datatype State = State(
    mode: Mode, eventFd: nat, durationMs: Ms, last: Timespec, clock: Timespec, pc: Pc, log: seq<Event>)

  datatype PollResult = Aborted | DisplayIdle | TimedOut | Failed
  datatype IdleRead = EndOfFile | SaysIdle | SaysBusy

  datatype Step =
    | Acquire(duration: Int32, now: Timespec)
    | Enter
    | ReadTimeout(ms: int)
    | Poll1(r: PollResult)
    | ReadIdle(i: IdleRead)
    | Poll2(r: PollResult)
    | Release
    | Exit

  /** The state that Init leaves. */
  function Initial(clock: Timespec): (s: State) {
    State(Idle, 0, 0, clock, clock, AtCond, [])
  }

  predicate PollAllowed(s: State, r: PollResult) {
    (r.Aborted? ==> s.eventFd > 0) && (r.TimedOut? ==> s.eventFd == 0)
  }

  /** Which steps can happen; the timeout is read outside the lock and may be anything. */
  predicate Enabled(s: State, step: Step) {
    match step
    case Acquire(_, now) => ClockReading(now) && Nanos(s.clock) <= Nanos(now)
    case Enter => s.pc == AtCond && s.mode != Idle
    case ReadTimeout(_) => s.pc == Entered
    case Poll1(r) => s.pc == FirstPoll && !r.DisplayIdle? && PollAllowed(s, r)
    case ReadIdle(_) => s.pc == CheckIdle
    case Poll2(r) => s.pc == SecondPoll && PollAllowed(s, r)
    case Release => s.pc == BeforeRelease
    case Exit => true
  }

  /** The instant up to which the current hint has been asked for. */
  function Deadline(s: State): (n: int) {
    Nanos(s.last) + s.durationMs * NS_IN_MS
  }

  /** The previous request covers this one; the difference is compared as a size_t. */
  predicate Covered(s: State, now: Timespec, ms: Ms) {
    s.mode != Idle && ms <= s.durationMs && CalcTimespecDiffMs(s.last, now) <= (s.durationMs - ms) % SIZE_T
  }

  function NextAcquire(c: Config, s: State, duration: Int32, now: Timespec): (r: State) {
    var ms := FinalDuration(c, duration);
    var until := Nanos(now) + ms * NS_IN_MS;
    if !c.idleSupport || s.mode == Uninitialized then
      s.(clock := now, log := s.log + [DirectHint(ms)])
    else if Covered(s, now, ms) then
      s.(clock := now, log := s.log + [Skipped(until)])
    else
      s.(mode := Interacting, durationMs := ms, last := now, clock := now,
         eventFd := if s.mode == Waiting then s.eventFd + 1 else s.eventFd,
         log := s.log + (if s.mode == Idle then [PerfLock] else []) + [Accepted(until)])
  }

  function NextRelease(s: State): (r: State) {
    if s.mode == Waiting then s.(mode := Idle, pc := AtCond, log := s.log + [PerfRel])
    else s.(eventFd := 0, pc := AtCond, log := s.log + [Drained(s.eventFd > 0)])
  }

  function NextEnter(s: State): (r: State) {
    if s.mode == Uninitialized then s.(pc := Returned)
    else s.(mode := Waiting, pc := Entered, log := s.log + [WaitBegin(s.eventFd)])
  }

  function NextExit(s: State): (r: State) {
    if s.mode == Uninitialized then s else s.(mode := Uninitialized, eventFd := s.eventFd + 1)
  }

  function Next(c: Config, s: State, step: Step): (r: State)
    requires Enabled(s, step)
  {
    match step
    case Acquire(duration, now) => NextAcquire(c, s, duration, now)
    case Enter => NextEnter(s)
    case ReadTimeout(_) => s.(pc := FirstPoll)
    case Poll1(r) => s.(pc := if r.TimedOut? then CheckIdle else BeforeRelease)
    case ReadIdle(i) => s.(pc := if i.SaysBusy? then SecondPoll else BeforeRelease)
    case Poll2(_) => s.(pc := BeforeRelease)
    case Release => NextRelease(s)
    case Exit => NextExit(s)
  }

  //// What the log shows

  function DropLast(log: seq<Event>): (r: seq<Event>)
    requires log != []
  {
    log[..|log| - 1]
  }

  function Last(log: seq<Event>): (e: Event)
    requires log != []
  {
    log[|log| - 1]
  }

  /** The hint is held: the last lock or release was a lock. */
  predicate Held(log: seq<Event>)
    decreases |log|
  {
    log != [] && (Last(log).PerfLock? || (!Last(log).PerfRel? && Held(DropLast(log))))
  }

  /** A wait has begun since the last accepted request. */
  predicate WaitedSince(log: seq<Event>)
    decreases |log|
  {
    log != [] && (Last(log).WaitBegin? || (!Last(log).Accepted? && WaitedSince(DropLast(log))))
  }

  /** Every request of the current hint ends less than a millisecond after `deadline`. */
  predicate CoveredSince(log: seq<Event>, deadline: int)
    decreases |log|
  {
    log == [] || Last(log).PerfLock? || (EndsBy(Last(log), deadline) && CoveredSince(DropLast(log), deadline))
  }

  predicate EndsBy(e: Event, deadline: int) {
    && (e.Accepted? ==> e.until <= deadline)
    && (e.Skipped? ==> e.until < deadline + NS_IN_MS)
  }

  /** What each entry of the log needs of the entries before it. */
  predicate EntryOk(log: seq<Event>, i: nat)
    requires i < |log|
  {
    match log[i]
    case PerfLock => !Held(log[..i])
    case PerfRel => Held(log[..i]) && WaitedSince(log[..i])
    case WaitBegin(pending) => pending == 0
    case Drained(found) => found
    case _ => true
  }

  predicate LogOk(log: seq<Event>) {
    forall i :: 0 <= i < |log| ==> EntryOk(log, i)
  }

  //// The invariant

  predicate InWait(pc: Pc) {
    pc != AtCond && pc != Returned
  }

  predicate Inv(s: State) {
    && ClockReading(s.last) && ClockReading(s.clock) && Nanos(s.last) <= Nanos(s.clock)
    && s.mode != Uninitialized && s.pc != Returned
    && s.eventFd == (if s.mode == Interacting && InWait(s.pc) then 1 else 0)
    && (s.mode == Waiting ==> InWait(s.pc))
    && (s.mode == Idle ==> s.pc == AtCond)
    && (Held(s.log) <==> s.mode == Interacting || s.mode == Waiting)
    && (s.mode == Waiting ==> WaitedSince(s.log))
    && (s.mode != Idle ==> CoveredSince(s.log, Deadline(s)))
    && LogOk(s.log)
  }

  lemma LogSnoc(log: seq<Event>, e: Event)
    ensures Held(log + [e]) == (e.PerfLock? || (!e.PerfRel? && Held(log)))
    ensures WaitedSince(log + [e]) == (e.WaitBegin? || (!e.Accepted? && WaitedSince(log)))
    ensures forall n: int ::
      CoveredSince(log + [e], n) == (e.PerfLock? || (EndsBy(e, n) && CoveredSince(log, n)))
  {
    assert DropLast(log + [e]) == log;
  }

  lemma LogOkSnoc(log: seq<Event>, e: Event)
    requires LogOk(log)
    requires e.PerfLock? ==> !Held(log)
    requires e.PerfRel? ==> Held(log) && WaitedSince(log)
    requires e.WaitBegin? ==> e.pending == 0
    requires e.Drained? ==> e.found
    ensures LogOk(log + [e])
  {
    hide Held, WaitedSince;
    var l := log + [e];
    forall i | 0 <= i < |l| ensures EntryOk(l, i) {
      if i < |log| {
        assert l[..i] == log[..i];
        assert EntryOk(log, i);
      } else {
        assert l[..i] == log;
      }
    }
  }

  lemma {:induction false} CoveredMonotone(log: seq<Event>, a: int, b: int)
    requires a <= b && CoveredSince(log, a)
    ensures CoveredSince(log, b)
    decreases |log|
  {
    if log != [] && !Last(log).PerfLock? {
      CoveredMonotone(DropLast(log), a, b);
    }
  }

  /**
   While the hint is held, an accepted request strictly moves the deadline on, and a skipped one
   ends less than a millisecond after it.
   */
  lemma DeadlineAdvances(c: Config, s: State, duration: Int32, now: Timespec)
    requires ClockReading(s.last) && ClockReading(now) && Nanos(s.last) <= Nanos(now)
    requires s.mode != Idle && s.mode != Uninitialized && c.idleSupport
    ensures var ms := FinalDuration(c, duration);
      var r := NextAcquire(c, s, duration, now);
      if Covered(s, now, ms) then Deadline(r) == Deadline(s) && Nanos(now) + ms * NS_IN_MS < Deadline(s) + NS_IN_MS
      else Deadline(r) == Nanos(now) + ms * NS_IN_MS > Deadline(s)
  {
    hide CalcTimespecDiffMs;
    ElapsedIsClose(s.last, now);
  }

  lemma AcquireKeepsInv(c: Config, s: State, duration: Int32, now: Timespec)
    requires Inv(s) && ClockReading(now) && Nanos(s.clock) <= Nanos(now)
    ensures Inv(NextAcquire(c, s, duration, now))
  {
    hide Held, WaitedSince, CoveredSince, LogOk, FinalDuration, CalcTimespecDiffMs;
    var ms := FinalDuration(c, duration);
    var until := Nanos(now) + ms * NS_IN_MS;
    var r := NextAcquire(c, s, duration, now);
    if !c.idleSupport {
      LogSnoc(s.log, DirectHint(ms));
      LogOkSnoc(s.log, DirectHint(ms));
    } else if Covered(s, now, ms) {
      DeadlineAdvances(c, s, duration, now);
      LogSnoc(s.log, Skipped(until));
      LogOkSnoc(s.log, Skipped(until));
    } else if s.mode == Idle {
      LogSnoc(s.log, PerfLock);
      LogOkSnoc(s.log, PerfLock);
      LogSnoc(s.log + [PerfLock], Accepted(until));
      LogOkSnoc(s.log + [PerfLock], Accepted(until));
    } else {
      DeadlineAdvances(c, s, duration, now);
      CoveredMonotone(s.log, Deadline(s), Deadline(r));
      assert s.log + [] == s.log;
      LogSnoc(s.log, Accepted(until));
      LogOkSnoc(s.log, Accepted(until));
    }
  }

  /** Every step but Exit keeps the invariant. */
  lemma StepKeepsInv(c: Config, s: State, step: Step)
    requires Inv(s) && Enabled(s, step) && !step.Exit?
    ensures Inv(Next(c, s, step))
  {
    hide Held, WaitedSince, CoveredSince, LogOk, NextAcquire, ClockReading;
    match step {
      case Acquire(duration, now) => AcquireKeepsInv(c, s, duration, now);
      case Enter =>
        LogSnoc(s.log, WaitBegin(s.eventFd));
        LogOkSnoc(s.log, WaitBegin(s.eventFd));
      case Release =>
        var e := if s.mode == Waiting then PerfRel else Drained(s.eventFd > 0);
        LogSnoc(s.log, e);
        LogOkSnoc(s.log, e);
      case _ =>
    }
  }

  //// Runs

  /** An interleaving from Init on: one atomic step of one thread at a time. */
  predicate IsRun(c: Config, trace: seq<State>, steps: seq<Step>) {
    && |trace| == |steps| + 1
    && ClockReading(trace[0].clock) && trace[0] == Initial(trace[0].clock)
    && forall i :: 0 <= i < |steps| ==> Enabled(trace[i], steps[i]) && trace[i + 1] == Next(c, trace[i], steps[i])
  }

  /** No Exit among the first n steps. */
  predicate BeforeExit(steps: seq<Step>, n: nat)
    requires n <= |steps|
  {
    forall i :: 0 <= i < n ==> !steps[i].Exit?
  }

  lemma {:induction false} RunKeepsInv(c: Config, trace: seq<State>, steps: seq<Step>, n: nat)
    requires IsRun(c, trace, steps) && n <= |steps| && BeforeExit(steps, n)
    ensures Inv(trace[n])
  {
    if n > 0 {
      RunKeepsInv(c, trace, steps, n - 1);
      StepKeepsInv(c, trace[n - 1], steps[n - 1]);
    }
  }

  /**
   The abort signal, under every interleaving before Exit: the eventfd counts 1 exactly while Routine
   is in a wait that an Acquire has called off, and 0 otherwise; no wait began with a stale abort,
   and no drain found the eventfd empty.
   */
  lemma AbortSignalExact(c: Config, trace: seq<State>, steps: seq<Step>, n: nat)
    requires IsRun(c, trace, steps) && n <= |steps| && BeforeExit(steps, n)
    ensures var s := trace[n];
      && s.eventFd <= 1
      && (s.eventFd == 1 <==> InWait(s.pc) && s.mode == Interacting)
      && forall i :: 0 <= i < |s.log| ==>
          (s.log[i].WaitBegin? ==> s.log[i].pending == 0) && (s.log[i].Drained? ==> s.log[i].found)
  {
    hide Held, WaitedSince, CoveredSince;
    RunKeepsInv(c, trace, steps, n);
    var log := trace[n].log;
    forall i | 0 <= i < |log|
      ensures (log[i].WaitBegin? ==> log[i].pending == 0) && (log[i].Drained? ==> log[i].found)
    {
      assert EntryOk(log, i);
    }
  }

  /**
   The hint, under every interleaving before Exit: locks and releases alternate, it is held exactly in
   Interacting or Waiting, and each release follows a wait that began after the last accepted request.
   */
  lemma HintBalanced(c: Config, trace: seq<State>, steps: seq<Step>, n: nat)
    requires IsRun(c, trace, steps) && n <= |steps| && BeforeExit(steps, n)
    ensures var s := trace[n];
      && (Held(s.log) <==> s.mode == Interacting || s.mode == Waiting)
      && forall i :: 0 <= i < |s.log| ==>
          && (s.log[i].PerfLock? ==> !Held(s.log[..i]))
          && (s.log[i].PerfRel? ==> Held(s.log[..i]) && WaitedSince(s.log[..i]))
  {
    hide Held, WaitedSince, CoveredSince;
    RunKeepsInv(c, trace, steps, n);
    var log := trace[n].log;
    forall i | 0 <= i < |log|
      ensures log[i].PerfLock? ==> !Held(log[..i])
      ensures log[i].PerfRel? ==> Held(log[..i]) && WaitedSince(log[..i])
    {
      assert EntryOk(log, i);
    }
  }

  /** While the hint is held, its deadline covers every request made since it was taken. */
  lemma HeldHintCoversRequests(c: Config, trace: seq<State>, steps: seq<Step>, n: nat)
    requires IsRun(c, trace, steps) && n <= |steps| && BeforeExit(steps, n)
    ensures Held(trace[n].log) ==> CoveredSince(trace[n].log, Deadline(trace[n]))
  {
    hide Held, WaitedSince, CoveredSince, LogOk;
    RunKeepsInv(c, trace, steps, n);
  }

  //// What a wait goes through

  predicate RoutineStep(step: Step) {
    !step.Acquire? && !step.Exit?
  }

  /** The steps of Routine among the first n, since it last entered a wait. */
  function SinceEnter(steps: seq<Step>, n: nat): (path: seq<Step>)
    requires n <= |steps|
  {
    if n == 0 || steps[n - 1].Enter? then []
    else if RoutineStep(steps[n - 1]) then SinceEnter(steps, n - 1) + [steps[n - 1]]
    else SinceEnter(steps, n - 1)
  }

  /**
   What WaitForIdle does next. The first poll, which does not watch the display, comes first; only if
   it timed out is the display read, only a display that reads busy is polled, and nothing else comes
   before the release.
   */
  predicate ComesNext(path: seq<Step>, step: Step) {
    if path == [] then step.ReadTimeout?
    else match path[|path| - 1]
      case ReadTimeout(_) => step.Poll1? && step.r != DisplayIdle
      case Poll1(r) => if r == TimedOut then step.ReadIdle? else step == Release
      case ReadIdle(i) => if i == SaysBusy then step.Poll2? else step == Release
      case Poll2(_) => step == Release
      case _ => false
  }

  /** Every step of the path came next after the ones before it. */
  predicate WaitPath(path: seq<Step>) {
    forall i :: 0 <= i < |path| ==> ComesNext(path[..i], path[i])
  }

  /** Where Routine is, from what it has done. */
  predicate At(pc: Pc, path: seq<Step>) {
    match pc
    case AtCond => true
    case Returned => true
    case Entered => path == []
    case _ => path != [] && match path[|path| - 1]
      case ReadTimeout(_) => pc == FirstPoll
      case Poll1(r) => pc == if r == TimedOut then CheckIdle else BeforeRelease
      case ReadIdle(i) => pc == if i == SaysBusy then SecondPoll else BeforeRelease
      case Poll2(_) => pc == BeforeRelease
      case _ => false
  }

  predicate Agrees(s: State, path: seq<Step>) {
    InWait(s.pc) ==> WaitPath(path) && At(s.pc, path)
  }

  lemma AgreesNext(s: State, path: seq<Step>, step: Step)
    requires Agrees(s, path) && InWait(s.pc) && RoutineStep(step) && Enabled(s, step)
    ensures ComesNext(path, step)
  {
  }

  lemma WaitPathSnoc(path: seq<Step>, step: Step)
    requires WaitPath(path) && ComesNext(path, step)
    ensures WaitPath(path + [step])
  {
    var p := path + [step];
    forall i | 0 <= i < |p| ensures ComesNext(p[..i], p[i]) {
      assert p[..i] == path[..i];
    }
  }

  lemma StepAgrees(c: Config, s: State, step: Step, path: seq<Step>)
    requires Inv(s) && Enabled(s, step) && Agrees(s, path) && !step.Exit?
    ensures Agrees(Next(c, s, step),
      if step.Enter? then [] else if RoutineStep(step) then path + [step] else path)
  {
    hide Held, WaitedSince, CoveredSince, LogOk, FinalDuration, Covered, WaitPath;
    assert WaitPath([]) by { NoPath(); }
    if RoutineStep(step) && !step.Enter? {
      AgreesNext(s, path, step);
      WaitPathSnoc(path, step);
    }
  }

  lemma NoPath()
    ensures WaitPath([])
  {
  }

  lemma {:induction false} RunAgrees(c: Config, trace: seq<State>, steps: seq<Step>, n: nat)
    requires IsRun(c, trace, steps) && n <= |steps| && BeforeExit(steps, n)
    ensures Agrees(trace[n], SinceEnter(steps, n))
  {
    hide Inv, Agrees, Enabled, Next;
    if n == 0 {
      IdleAgrees(trace[0]);
    } else {
      RunAgrees(c, trace, steps, n - 1);
      RunKeepsInv(c, trace, steps, n - 1);
      StepAgrees(c, trace[n - 1], steps[n - 1], SinceEnter(steps, n - 1));
    }
  }

  lemma IdleAgrees(s: State)
    requires s.pc == AtCond
    ensures Agrees(s, [])
  {
  }

  /**
   Every release, under every interleaving before Exit, ends a whole wait: since Routine entered it,
   the first poll was aborted or failed; or it timed out and the display read idle or nothing; or it
   timed out, the display read busy, and a second poll came back.
   */
  lemma ReleaseEndsAWait(c: Config, trace: seq<State>, steps: seq<Step>, n: nat)
    requires IsRun(c, trace, steps) && n < |steps| && BeforeExit(steps, n + 1)
    requires Held(trace[n].log) && !Held(trace[n + 1].log)
    ensures steps[n] == Release
    ensures var path := SinceEnter(steps, n);
      && WaitPath(path) && |path| >= 2
      && match path[|path| - 1]
         case Poll1(r) => r == Aborted || r == Failed
         case ReadIdle(i) => i == SaysIdle || i == EndOfFile
         case Poll2(_) => true
         case _ => false
  {
    hide WaitedSince, CoveredSince, LogOk, WaitPath, FinalDuration, Covered, SinceEnter;
    RunKeepsInv(c, trace, steps, n);
    RunAgrees(c, trace, steps, n);
    ReleaseIsTheStep(c, trace[n], steps[n]);
    AgreesNext(trace[n], SinceEnter(steps, n), Release);
    PathToRelease(SinceEnter(steps, n));
  }

  lemma ReleaseIsTheStep(c: Config, s: State, step: Step)
    requires Inv(s) && Enabled(s, step) && Held(s.log) && !Held(Next(c, s, step).log) && !step.Exit?
    ensures step == Release && InWait(s.pc)
  {
    hide WaitedSince, CoveredSince, LogOk, FinalDuration, Covered;
    if step.Acquire? {
      AcquireKeepsHeld(c, s, step.duration, step.now);
    } else if step.Enter? {
      LogSnoc(s.log, WaitBegin(s.eventFd));
    }
  }

  lemma AcquireKeepsHeld(c: Config, s: State, duration: Int32, now: Timespec)
    requires Held(s.log) && s.mode != Idle
    ensures Held(NextAcquire(c, s, duration, now).log)
  {
    hide WaitedSince, CoveredSince, LogOk, FinalDuration, Covered;
    var ms := FinalDuration(c, duration);
    var until := Nanos(now) + ms * NS_IN_MS;
    LogSnoc(s.log, DirectHint(ms));
    LogSnoc(s.log, Skipped(until));
    LogSnoc(s.log, Accepted(until));
    assert s.log + [] == s.log;
  }

  lemma PathToRelease(path: seq<Step>)
    requires WaitPath(path) && ComesNext(path, Release)
    ensures |path| >= 2
    ensures match path[|path| - 1]
      case Poll1(r) => r == Aborted || r == Failed
      case ReadIdle(i) => i == SaysIdle || i == EndOfFile
      case Poll2(_) => true
      case _ => false
  {
    assert ComesNext(path[..0], path[0]);
    assert ComesNext(path[..|path| - 1], path[|path| - 1]);
  }

  /** Once the display reads idle, or nothing, the release is all that Routine can do. */
  lemma IdleReleasesAtOnce(c: Config, trace: seq<State>, steps: seq<Step>, n: nat, step: Step)
    requires IsRun(c, trace, steps) && 0 < n <= |steps| && BeforeExit(steps, n)
    requires steps[n - 1].ReadIdle? && RoutineStep(step) && Enabled(trace[n], step)
    ensures if steps[n - 1].i == SaysBusy then step.Poll2? else step == Release
  {
    hide Inv, WaitPath, NextAcquire;
    RunAgrees(c, trace, steps, n);
    assert SinceEnter(steps, n) == SinceEnter(steps, n - 1) + [steps[n - 1]];
    AgreesNext(trace[n], SinceEnter(steps, n), step);
  }

  //// What a request does

  /** With display-idle support, every request before Exit leaves the hint held, even one that is skipped. */
  lemma RequestHoldsHint(c: Config, trace: seq<State>, steps: seq<Step>, n: nat)
    requires c.idleSupport && IsRun(c, trace, steps) && n < |steps| && BeforeExit(steps, n) && steps[n].Acquire?
    ensures Held(trace[n + 1].log)
  {
    hide WaitedSince, CoveredSince, LogOk, FinalDuration;
    RunKeepsInv(c, trace, steps, n);
    var s := trace[n];
    if s.mode == Idle {
      var until := Deadline(trace[n + 1]);
      LogSnoc(s.log, PerfLock);
      LogSnoc(s.log + [PerfLock], Accepted(until));
      assert trace[n + 1].log == s.log + [PerfLock] + [Accepted(until)];
    } else {
      AcquireKeepsHeld(c, s, steps[n].duration, steps[n].now);
    }
  }

  /** Its end, by which the deadline is judged, is its own time plus its clamped duration. */
  lemma RequestIsRecorded(c: Config, trace: seq<State>, steps: seq<Step>, n: nat)
    requires c.idleSupport && IsRun(c, trace, steps) && n < |steps| && BeforeExit(steps, n) && steps[n].Acquire?
    requires steps[n].duration + c.offsetMs >= 0 && c.minMs <= c.maxMs
    ensures trace[n + 1].log != []
    ensures var e := Last(trace[n + 1].log);
      && (e.Accepted? || e.Skipped?)
      && e.until == Nanos(steps[n].now) + Clamp(steps[n].duration + c.offsetMs, c.minMs, c.maxMs) * NS_IN_MS
  {
    hide Held, WaitedSince, CoveredSince, LogOk, FinalDuration, Covered;
    RunKeepsInv(c, trace, steps, n);
    FinalDurationClampsIff(c, steps[n].duration);
  }

  /** Without it, or after Exit, a request is one direct hint of its own duration, and no state changes. */
  lemma DirectRequest(c: Config, trace: seq<State>, steps: seq<Step>, n: nat) returns (ms: Ms)
    requires IsRun(c, trace, steps) && n < |steps| && steps[n].Acquire?
    requires !c.idleSupport || trace[n].mode == Uninitialized
    ensures trace[n + 1] == trace[n].(clock := steps[n].now, log := trace[n].log + [DirectHint(ms)])
    ensures steps[n].duration + c.offsetMs >= 0 && c.minMs <= c.maxMs ==>
      ms == Clamp(steps[n].duration + c.offsetMs, c.minMs, c.maxMs)
  {
    hide FinalDuration;
    ms := FinalDuration(c, steps[n].duration);
    if c.minMs <= c.maxMs {
      FinalDurationClampsIff(c, steps[n].duration);
    }
  }

  //// Progress

  /** How many steps of Routine are left until the hint is released, if nothing else happens. */
  function StepsLeft(s: State): (n: nat)
    ensures n <= 11
  {
    var wait :=
      match s.pc
      case Entered => 5
      case FirstPoll => 4
      case CheckIdle => 3
      case SecondPoll => 2
      case BeforeRelease => 1
      case _ => 0;
    if s.mode == Idle then 0 else if s.mode == Waiting then wait else wait + 6
  }

  /** While the hint is held, Routine can always take a step. */
  lemma RoutineCanStep(s: State) returns (step: Step)
    requires Inv(s) && Held(s.log)
    ensures RoutineStep(step) && Enabled(s, step)
  {
    hide Held, WaitedSince, CoveredSince, LogOk;
    step := match s.pc
      case Entered => ReadTimeout(0)
      case FirstPoll => Poll1(if s.eventFd > 0 then Aborted else TimedOut)
      case CheckIdle => ReadIdle(SaysIdle)
      case SecondPoll => Poll2(if s.eventFd > 0 then Aborted else TimedOut)
      case BeforeRelease => Release
      case _ => Enter;
  }

  lemma RoutineStepCounts(c: Config, s: State, step: Step)
    requires Inv(s) && RoutineStep(step) && Enabled(s, step)
    ensures StepsLeft(Next(c, s, step)) < StepsLeft(s)
  {
    hide Held, WaitedSince, CoveredSince, LogOk;
  }

  /**
   From every reachable state before Exit, Routine by itself makes at most eleven steps. It stops
   only where the hint is released: while the hint is held there is always a next step.
   */
  lemma {:induction false} RoutineReleases(c: Config, trace: seq<State>, steps: seq<Step>, k: nat, n: nat)
    requires IsRun(c, trace, steps) && k <= n <= |steps| && BeforeExit(steps, n)
    requires forall i :: k <= i < n ==> RoutineStep(steps[i])
    ensures n - k <= StepsLeft(trace[k]) - StepsLeft(trace[n]) <= 11
    ensures (exists step: Step :: RoutineStep(step) && Enabled(trace[n], step)) <==> Held(trace[n].log)
    decreases n - k
  {
    hide Inv, Held, StepsLeft, Enabled;
    if k < n {
      RoutineReleases(c, trace, steps, k, n - 1);
      RunKeepsInv(c, trace, steps, n - 1);
      RoutineStepCounts(c, trace[n - 1], steps[n - 1]);
    }
    RunKeepsInv(c, trace, steps, n);
    RoutineRests(trace[n]);
  }

  lemma RoutineRests(s: State)
    requires Inv(s)
    ensures (exists step: Step :: RoutineStep(step) && Enabled(s, step)) <==> Held(s.log)
  {
    hide Held, WaitedSince, CoveredSince, LogOk;
    if Held(s.log) {
      var step := RoutineCanStep(s);
    }
  }

  /** Once Exit has run, nothing releases the hint any more. */
  lemma {:induction false} NothingReleasesAfterExit(c: Config, trace: seq<State>, steps: seq<Step>, k: nat, n: nat)
    requires IsRun(c, trace, steps) && k <= n <= |steps| && trace[k].mode == Uninitialized
    ensures trace[n].mode == Uninitialized && Held(trace[n].log) == Held(trace[k].log)
    decreases n - k
  {
    if k < n {
      hide Held, Next;
      NothingReleasesAfterExit(c, trace, steps, k, n - 1);
      NoReleaseWhenExited(c, trace[n - 1], steps[n - 1]);
    }
  }

  lemma NoReleaseWhenExited(c: Config, s: State, step: Step)
    requires s.mode == Uninitialized && Enabled(s, step)
    ensures Next(c, s, step).mode == Uninitialized && Held(Next(c, s, step).log) == Held(s.log)
  {
    hide Held;
    if step.Acquire? {
      LogSnoc(s.log, DirectHint(FinalDuration(c, step.duration)));
    } else if step.Release? {
      LogSnoc(s.log, Drained(s.eventFd > 0));
    }
  }

  /** Exit strands the hint: it is given back for good exactly when the handler was idle at Exit. */
  lemma ExitStrandsHint(c: Config, trace: seq<State>, steps: seq<Step>, k: nat, n: nat)
    requires IsRun(c, trace, steps) && k < n <= |steps| && BeforeExit(steps, k) && steps[k].Exit?
    ensures Held(trace[n].log) <==> trace[k].mode != Idle
  {
    RunKeepsInv(c, trace, steps, k);
    NothingReleasesAfterExit(c, trace, steps, k + 1, n);
  }

  /** After Exit a wait that is still on can only be aborted: its polls return at once. */
  predicate Woken(s: State) {
    s.mode == Uninitialized && (InWait(s.pc) ==> s.eventFd > 0)
  }

  lemma StepKeepsWoken(c: Config, s: State, step: Step)
    requires Woken(s) && Enabled(s, step)
    ensures Woken(Next(c, s, step))
  {
  }

  /** How many steps of Routine are left until its thread ends. */
  function StepsToEnd(s: State): (n: nat)
    ensures n <= 6
  {
    match s.pc
    case Returned => 0
    case AtCond => 1
    case BeforeRelease => 2
    case SecondPoll => 3
    case CheckIdle => 4
    case FirstPoll => 5
    case Entered => 6
  }

  lemma RoutineWindsDown(c: Config, s: State, step: Step)
    requires Woken(s) && RoutineStep(step) && Enabled(s, step)
    ensures StepsToEnd(Next(c, s, step)) < StepsToEnd(s)
    ensures step.Poll1? || step.Poll2? ==> step.r != TimedOut
  {
  }

  /**
   Exit ends the thread. From Exit on, in every run, no poll waits out its time, and Routine makes at
   most six more steps; it has none left exactly when it has returned.
   */
  lemma {:induction false} ExitEndsRoutine(c: Config, trace: seq<State>, steps: seq<Step>, k: nat, n: nat)
    requires IsRun(c, trace, steps) && k < n <= |steps| && BeforeExit(steps, k) && steps[k].Exit?
    ensures Woken(trace[n])
    ensures (exists step: Step :: RoutineStep(step) && Enabled(trace[n], step)) <==> trace[n].pc != Returned
    ensures RoutineCount(steps, k, n) + StepsToEnd(trace[n]) <= 6
    decreases n
  {
    hide Inv, Next, Enabled, StepsToEnd, Woken;
    if n == k + 1 {
      ExitWakes(c, trace, steps, k);
      assert RoutineCount(steps, k, k) == 0;
    } else {
      ExitEndsRoutine(c, trace, steps, k, n - 1);
      StepKeepsWoken(c, trace[n - 1], steps[n - 1]);
      if RoutineStep(steps[n - 1]) {
        RoutineWindsDown(c, trace[n - 1], steps[n - 1]);
      } else {
        OthersKeepPc(c, trace[n - 1], steps[n - 1]);
      }
    }
    RoutineEnds(trace[n]);
  }

  /** The steps of Routine from step k up to step n. */
  function RoutineCount(steps: seq<Step>, k: nat, n: nat): (r: nat)
    requires n <= |steps|
  {
    if n <= k then 0 else RoutineCount(steps, k, n - 1) + if RoutineStep(steps[n - 1]) then 1 else 0
  }

  lemma ExitWakes(c: Config, trace: seq<State>, steps: seq<Step>, k: nat)
    requires IsRun(c, trace, steps) && k < |steps| && BeforeExit(steps, k) && steps[k].Exit?
    ensures Woken(trace[k + 1]) && StepsToEnd(trace[k + 1]) <= 6
  {
    hide Held, WaitedSince, CoveredSince, LogOk;
    RunKeepsInv(c, trace, steps, k);
  }

  lemma OthersKeepPc(c: Config, s: State, step: Step)
    requires Woken(s) && !RoutineStep(step) && Enabled(s, step)
    ensures StepsToEnd(Next(c, s, step)) == StepsToEnd(s)
  {
    hide FinalDuration, Covered;
  }

  lemma RoutineEnds(s: State)
    requires Woken(s)
    ensures (exists step: Step :: RoutineStep(step) && Enabled(s, step)) <==> s.pc != Returned
  {
    if s.pc != Returned {
      var step := match s.pc
        case Entered => ReadTimeout(0)
        case FirstPoll => Poll1(Aborted)
        case CheckIdle => ReadIdle(SaysIdle)
        case SecondPoll => Poll2(Aborted)
        case BeforeRelease => Release
        case _ => Enter;
      assert RoutineStep(step) && Enabled(s, step);
    }
  }

  /** One request, then Exit: the hint is held for good. */
  lemma ExitAfterRequestStrands(c: Config, steps: seq<Step>, trace: seq<State>, n: nat)
    requires c.idleSupport && |steps| >= 2 && 2 <= n <= |steps|
    requires IsRun(c, trace, steps) && steps[0].Acquire? && steps[1].Exit?
    ensures Held(trace[n].log)
  {
    assert trace[1] == Next(c, trace[0], steps[0]);
    ExitStrandsHint(c, trace, steps, 1, n);
  }

  //// The handler

  class InteractionHandler {
    const config: Config
    var mState: Mode
    var mEventFd: nat
    var mDurationMs: Ms
    var mLastTimespec: Timespec
    var clock: Timespec
    var pc: Pc
    var log: seq<Event>

    /** The handler after a successful Init, with its thread started. */
    constructor (config: Config, now: Timespec)
      ensures this.config == config && View() == Initial(now)
    {
      this.config := config;
      mState, mEventFd, mDurationMs, mLastTimespec := Idle, 0, 0, now;
      clock, pc, log := now, AtCond, [];
    }

    function View(): (s: State)
      reads this
    {
      State(mState, mEventFd, mDurationMs, mLastTimespec, clock, pc, log)
    }

    method AbortWaitLocked()
      modifies this`mEventFd
      ensures mEventFd == old(mEventFd) + 1
    {
      mEventFd := mEventFd + 1;
    }

    method Acquire(duration: Int32, now: Timespec)
      modifies this
      ensures View() == NextAcquire(config, old(View()), duration, now)
    {
      clock := now;
      var input := (duration + config.offsetMs) % U32;
      var finalDuration: Ms;
      if input > config.maxMs {
        finalDuration := config.maxMs;
      } else if input > config.minMs {
        finalDuration := input;
      } else {
        finalDuration := config.minMs;
      }
      if !config.idleSupport || mState == Uninitialized {
        log := log + [DirectHint(finalDuration)];
        return;
      }
      if mState != Idle && finalDuration <= mDurationMs {
        var elapsed := CalcTimespecDiffMs(mLastTimespec, now);
        if elapsed <= (mDurationMs - finalDuration) % SIZE_T {
          log := log + [Skipped(Nanos(now) + finalDuration * NS_IN_MS)];
          return;
        }
      }
      mLastTimespec := now;
      mDurationMs := finalDuration;
      if mState == Waiting {
        AbortWaitLocked();
      } else if mState == Idle {
        log := log + [PerfLock];
      }
      mState := Interacting;
      log := log + [Accepted(Nanos(now) + finalDuration * NS_IN_MS)];
      assert old(log) + [] == old(log);
    }

    /** The locked section at the head of Routine's loop, once its condition holds. */
    method EnterWait()
      requires Enabled(View(), Enter)
      modifies this
      ensures View() == NextEnter(old(View()))
    {
      if mState == Uninitialized {
        pc := Returned;
        return;
      }
      mState := Waiting;
      log := log + [WaitBegin(mEventFd)];
      pc := Entered;
    }

    method Release()
      requires Enabled(View(), Step.Release)
      modifies this
      ensures View() == NextRelease(old(View()))
    {
      if mState == Waiting {
        log := log + [PerfRel];
        mState := Idle;
      } else {
        log := log + [Drained(mEventFd > 0)];
        mEventFd := 0;
      }
      pc := AtCond;
    }

    method Exit()
      modifies this
      ensures View() == NextExit(old(View()))
    {
      if mState == Uninitialized {
        return;
      }
      AbortWaitLocked();
      mState := Uninitialized;
    }
  }
}
