/**
 What each call leaves on the threads, and in the session's record, while the index is exact: every
 value is the 0 to 1024 clamp of what the session asks for and what the others still ask for.
 */
module AdpfValues {
  import opened CArithmetic
  import opened AdpfPid
  import opened AdpfSessions
  import opened AdpfRuns

  //// The clamp and the stale span

  /** The clamp lies within 0 and 1024, changes nothing there, and keeps the order. */
  lemma ClampIs(v: int, u: int)
    ensures 0 <= ClampUclamp(v) <= 1024
    ensures 0 <= v <= 1024 ==> ClampUclamp(v) == v
    ensures v <= 0 ==> ClampUclamp(v) == 0
    ensures v >= 1024 ==> ClampUclamp(v) == 1024
    ensures v <= u ==> ClampUclamp(v) <= ClampUclamp(u)
  {
  }

  /** An active session is live as long as less than its target times the stale factor has passed. */
  lemma LiveIs(p: Profile, d: Desc, now: int)
    requires p.staleFactor * d.durationNs as real >= 0.0
    ensures Live(p, d, now) <==> d.isActive && (now - d.lastUpdated + 1) as real <= p.staleFactor * d.durationNs as real
  {
    hide Trunc;
    TruncIs(Scaled(p.staleFactor, d.durationNs));
  }

  /** A new target is the requested one times its factor, cut to a whole number. */
  lemma TargetIs<S>(p: Profile, w: World<S>, s: S, targetNs: int)
    requires Inv(p, w) && s in w.descs
    ensures var d, d' := w.descs[s], Next(p, w, UpdateTarget(s, targetNs)).descs[s];
      && d' == d.(durationNs := d'.durationNs)
      && (d.closed || targetNs <= 0 ==> d' == d)
      && (!d.closed && targetNs > 0 ==> CutToZero(p.targetFactor * targetNs as real, d'.durationNs))
  {
    hide Trunc, Inv;
    TruncIs(Scaled(p.targetFactor, targetNs));
  }

  //// The other sessions

  /** The largest minimum that the live sessions on a thread ask for, one session apart. */
  ghost function Others<S>(p: Profile, w: World<S>, s: S, t: int, now: int): (m: int)
    requires w.registered <= w.descs.Keys
    ensures m >= 0
  {
    LiveMax(p, w.descs, Scan(w.descs, w.registered - {s}, t), now)
  }

  lemma LiveMaxSplit<S>(p: Profile, descs: map<S, Desc>, ss: set<S>, s: S, now: int)
    requires ss <= descs.Keys && s in ss
    ensures LiveMax(p, descs, ss, now)
      == if Live(p, descs[s], now) then Max(descs[s].currentMin, LiveMax(p, descs, ss - {s}, now)) else LiveMax(p, descs, ss - {s}, now)
  {
    hide LiveMax, Live;
    var m := LiveMax(p, descs, ss - {s}, now);
    var k := if Live(p, descs[s], now) then Max(descs[s].currentMin, m) else m;
    LiveMaxUnique(p, descs, ss, now, k);
  }

  /** The whole thread: the others, and the session itself if it is live and lists the thread. */
  lemma AllOnThread<S>(p: Profile, w: World<S>, s: S, t: int, now: int)
    requires w.registered <= w.descs.Keys && s in w.registered
    ensures LiveMax(p, w.descs, Scan(w.descs, w.registered, t), now)
      == if t in w.descs[s].tids && Live(p, w.descs[s], now) then Max(w.descs[s].currentMin, Others(p, w, s, t, now)) else Others(p, w, s, t, now)
  {
    hide LiveMax, Live;
    var all := Scan(w.descs, w.registered, t);
    if t in w.descs[s].tids {
      assert all - {s} == Scan(w.descs, w.registered - {s}, t);
      LiveMaxSplit(p, w.descs, all, s, now);
    } else {
      assert all == Scan(w.descs, w.registered - {s}, t);
    }
  }

  /** The value on a thread after a session with record `d` asks for `val`. */
  lemma SetValue<S>(p: Profile, w: World<S>, s: S, d: Desc, val: int, now: int, t: int)
    requires Exact(w) && s in w.registered && s in w.descs && d.tids == w.descs[s].tids
    ensures w.registered <= w.descs.Keys && ListsKnown(Update(w, s, d))
    ensures LastOn(SetUclamp(p, Update(w, s, d), s, val, now).log, t)
      == if t in d.tids then Just(ClampUclamp(Max(if Live(p, d, now) then Max(d.currentMin, val) else val, Others(p, w, s, t, now))))
         else LastOn(w.log, t)
  {
    hide Indexed, LastOn, Live, LiveMax, ClampUclamp, ScanValue, Scan;
    ExactKnown(w);
    UpdateKeepsIndexed(w.index, w.descs, w.registered, s, d);
    var u := Update(w, s, d);
    SetUclampIsScan(p, u, s, val, now, t);
    if t in d.tids {
      ScanValueIs(p, w, s, d, val, now, t);
    }
  }

  lemma ExactKnown<S>(w: World<S>)
    requires Exact(w)
    ensures w.registered <= w.descs.Keys && ListsKnown(w)
  {
    IndexedListsKnown(w);
  }

  lemma ScanValueIs<S>(p: Profile, w: World<S>, s: S, d: Desc, val: int, now: int, t: int)
    requires w.registered <= w.descs.Keys && s in w.registered && t in d.tids
    ensures ScanValue(p, Update(w, s, d), t, val, now)
      == ClampUclamp(Max(if Live(p, d, now) then Max(d.currentMin, val) else val, Others(p, w, s, t, now)))
  {
    hide Live, LiveMax, ClampUclamp, Scan;
    AllOnThread(p, Update(w, s, d), s, t, now);
    ScanWithout(p, w.descs, w.registered, s, d, t, now);
  }

  /** After a session asks for a value that it records, it and the others decide. */
  lemma SetMinValue<S>(p: Profile, w: World<S>, s: S, d: Desc, min: int, now: int, t: int)
    requires Exact(w) && s in w.registered && s in w.descs && d.tids == w.descs[s].tids
    ensures w.registered <= w.descs.Keys && ListsKnown(Update(w, s, d))
    ensures LastOn(SetMin(p, Update(w, s, d), s, min, now).log, t)
      == if t in d.tids then Just(ClampUclamp(Max(min, Others(p, w, s, t, now)))) else LastOn(w.log, t)
  {
    hide Indexed, LastOn, Live, LiveMax, ClampUclamp, Scan, StaleSpan, SetUclamp;
    ExactKnown(w);
    var d' := d.(currentMin := min, staleTime := if min != 0 then now + StaleSpan(p, d.durationNs) else d.staleTime);
    SetValue(p, w, s, d', min, now, t);
    assert Update(Update(w, s, d), s, d') == Update(w, s, d') by {
      assert w.descs[s := d][s := d'] == w.descs[s := d'];
    }
  }

  //// Call by call

  /** Pause takes the session's request off its threads: what the others ask for remains. */
  lemma PauseValues<S>(p: Profile, w: World<S>, s: S, now: int, t: int)
    requires Inv(p, w) && Exact(w) && s in w.descs && !w.descs[s].closed && w.descs[s].isActive
    ensures w.registered <= w.descs.Keys
    ensures LastOn(Next(p, w, Pause(s, now)).log, t)
      == if t in w.descs[s].tids then Just(ClampUclamp(Others(p, w, s, t, now))) else LastOn(w.log, t)
  {
    hide Indexed, Known, LogOk, LastOn, LiveMax, ClampUclamp, SetUclamp, StaleSpan;
    ListsKnownOf(p, w);
    SetValue(p, w, s, w.descs[s].(isActive := false), 0, now, t);
  }

  /** Resume puts the recorded minimum back. */
  lemma ResumeValues<S>(p: Profile, w: World<S>, s: S, now: int, t: int)
    requires Inv(p, w) && Exact(w) && s in w.descs && !w.descs[s].closed && !w.descs[s].isActive
    ensures w.registered <= w.descs.Keys
    ensures LastOn(Next(p, w, Resume(s, now)).log, t)
      == if t in w.descs[s].tids then Just(ClampUclamp(Max(w.descs[s].currentMin, Others(p, w, s, t, now)))) else LastOn(w.log, t)
  {
    hide Indexed, Known, LogOk, LastOn, LiveMax, ClampUclamp, SetMin, StaleSpan;
    ListsKnownOf(p, w);
    SetMinValue(p, w, s, w.descs[s].(isActive := true), w.descs[s].currentMin, now, t);
  }

  /** A pause and a resume leave the record as it was, with the stale timer rearmed unless nothing is asked for. */
  lemma PauseThenResume<S>(p: Profile, w: World<S>, s: S, now: int, later: int)
    requires Inv(p, w) && s in w.descs && !w.descs[s].closed && w.descs[s].isActive
    ensures var w1 := Next(p, w, Pause(s, now));
      && s in w1.descs && !w1.descs[s].isActive
      && var d := Next(p, w1, Resume(s, later)).descs[s];
      && d == w.descs[s].(staleTime := d.staleTime)
      && d.staleTime == if d.currentMin != 0 then later + StaleSpan(p, d.durationNs) else w.descs[s].staleTime
  {
    hide Known, LogOk, SetUclamp, StaleSpan, Applications;
    ListsKnownOf(p, w);
    SetUclampTouches(p, w, s, w.descs[s].(isActive := false), 0, now);
    var w1 := Next(p, w, Pause(s, now));
    ListsKnownOf(p, w1);
    SetMinTouches(p, w1, s, w1.descs[s].(isActive := true), w1.descs[s].currentMin, later);
  }

  /** A new session asks for the initial boost, and starts from nothing else. */
  lemma CreateValues<S>(p: Profile, w: World<S>, step: Step<S>, t: int)
    requires Inv(p, w) && Exact(w) && step.Create? && step.s !in w.descs && ProfilesSet(w, step)
    ensures w.registered <= w.descs.Keys
    ensures var r := Next(p, w, step);
      && LastOn(r.log, t)
        == (if t in step.tids then Just(ClampUclamp(Max(p.uclampInit, LiveMax(p, w.descs, Scan(w.descs, w.registered, t), step.now)))) else LastOn(w.log, t))
      && step.s in r.descs && r.descs[step.s].currentMin == p.uclampInit
      && r.descs[step.s].tids == step.tids && r.descs[step.s].isApp == step.isApp && r.descs[step.s].durationNs == step.durationNs
      && r.descs[step.s].integral == 0 && r.descs[step.s].previous == 0
      && r.descs[step.s].isActive && r.descs[step.s].lastUpdated == step.now
      && !r.descs[step.s].closed && !r.descs[step.s].staleDead && !r.descs[step.s].boostDead
  {
    hide Indexed, Known, LogOk, LastOn, LiveMax, ClampUclamp, SetMin, StaleSpan, AddTids, SessionsOk;
    ListsKnownOf(p, w);
    var w1, s := Registered(w, step), step.s;
    RegisteredInv(p, w, step);
    ListsKnownOf(p, w1);
    var d := w1.descs[s];
    assert w1.descs[s := d] == w1.descs;
    AddKeepsIndexed(w.index, w.descs, w.registered, s, d, step.failing);
    SetMinTouches(p, w1, s, d, p.uclampInit, step.now);
    SetMinValue(p, w1, s, d, p.uclampInit, step.now, t);
    assert w1.registered - {s} == w.registered;
    ScanWithout(p, w.descs[s := d], w.registered + {s}, s, d, t, step.now);
    SameScan(p, w.descs, s, d, w.registered, t, step.now);
  }

  lemma SameScan<S>(p: Profile, descs: map<S, Desc>, s: S, d: Desc, ss: set<S>, t: int, now: int)
    requires ss <= descs.Keys && s !in ss
    ensures LiveMax(p, descs[s := d], Scan(descs[s := d], ss, t), now) == LiveMax(p, descs, Scan(descs, ss, t), now)
  {
    hide LiveMax, Live;
    assert Scan(descs[s := d], ss, t) == Scan(descs, ss, t);
    LiveMaxUnique(p, descs, Scan(descs, ss, t), now, LiveMax(p, descs[s := d], Scan(descs[s := d], ss, t), now));
  }

  /** A report applies the minimum that it records. */
  lemma ReportValues<S>(p: Profile, w: World<S>, step: Step<S>, t: int)
    requires Inv(p, w) && Exact(w) && step.Report? && step.s in w.descs && ReportStatus(w.descs[step.s], step.durations) == StatusOk
    ensures w.registered <= w.descs.Keys
    ensures var r := Next(p, w, step);
      && step.s in r.descs
      && LastOn(r.log, t)
        == if t in w.descs[step.s].tids then Just(ClampUclamp(Max(r.descs[step.s].currentMin, Others(p, w, step.s, t, step.now)))) else LastOn(w.log, t)
  {
    hide Indexed, Known, LogOk, LastOn, LiveMax, ClampUclamp, SetMin, StaleSpan, BatchTerms, PidMin, DescOk;
    ListsKnownOf(p, w);
    var s, now, d := step.s, step.now, w.descs[step.s];
    if p.pidOn {
      var d1 := Measured(p, d, step.durations, now);
      SetMinValue(p, w, s, d1, PidMin(p, d, step.durations), now, t);
      SetMinTouches(p, w, s, d1, PidMin(p, d, step.durations), now);
    } else {
      SetMinValue(p, w, s, d.(lastUpdated := now), p.uclampHigh, now, t);
      SetMinTouches(p, w, s, d.(lastUpdated := now), p.uclampHigh, now);
    }
  }

  /**
   The minimum that a report records: without the PID it is High; with it, the old one plus the
   output, cut to Low and High. The controller's state is that of the batch, and the session has
   reported now.
   */
  lemma ReportRecords<S>(p: Profile, w: World<S>, step: Step<S>)
    requires Inv(p, w) && step.Report? && step.s in w.descs && ReportStatus(w.descs[step.s], step.durations) == StatusOk
    ensures var d, d' := w.descs[step.s], Next(p, w, step).descs[step.s];
      var t := BatchTerms(p.pid, d.durationNs, step.durations, d.integral, d.previous);
      var sum := d.currentMin + Output(p.pid, d.durationNs, |step.durations|, t);
      && d'.lastUpdated == step.now && d'.isActive && !d'.closed && d'.durationNs == d.durationNs
      && (!p.pidOn ==> d'.currentMin == p.uclampHigh && d'.integral == d.integral && d'.previous == d.previous)
      && (p.pidOn ==>
          && d'.integral == t.integral && d'.previous == t.previous
          && (p.uclampLow <= sum <= p.uclampHigh ==> d'.currentMin == sum)
          && (sum < p.uclampLow ==> d'.currentMin == p.uclampLow)
          && (sum > p.uclampHigh ==> d'.currentMin == p.uclampHigh))
  {
    hide Known, LogOk, SetMin, StaleSpan, BatchTerms, Output;
    ListsKnownOf(p, w);
    var s, now, d := step.s, step.now, w.descs[step.s];
    if p.pidOn {
      SetMinTouches(p, w, s, Measured(p, d, step.durations, now), PidMin(p, d, step.durations), now);
    } else {
      SetMinTouches(p, w, s, d.(lastUpdated := now), p.uclampHigh, now);
    }
  }

  /** A report is accepted from an open, active session with a target and at least one sample. */
  lemma ReportAccepted(d: Desc, durations: seq<int>)
    ensures ReportStatus(d, durations) == StatusOk <==> !d.closed && d.isActive && d.durationNs != 0 && durations != []
    ensures ReportStatus(d, durations) == IllegalArgument <==> !d.closed && d.durationNs != 0 && durations == []
  {
  }

  lemma ReportRefused<S>(p: Profile, w: World<S>, step: Step<S>)
    requires Inv(p, w) && step.Report? && step.s in w.descs && ReportStatus(w.descs[step.s], step.durations) != StatusOk
    ensures Next(p, w, step) == w
  {
    hide Inv;
  }

  /** Waking raises an open, active, stale session to the initial boost, and does not make it live. */
  lemma WakeRaises<S>(p: Profile, w: World<S>, s: S, now: int)
    requires Inv(p, w) && s in w.descs && p.staleFactor * w.descs[s].durationNs as real >= 0.0
    ensures ListsKnown(w)
    ensures var d, d' := w.descs[s], WakeOne(p, w, s, now).descs[s];
      if !d.closed && d.isActive && (now - d.lastUpdated + 1) as real > p.staleFactor * d.durationNs as real then
        && d' == d.(currentMin := Max(d.currentMin, p.uclampInit), staleTime := now + StaleSpan(p, d.durationNs))
        && !Live(p, d', now)
      else d' == d
  {
    hide Known, LogOk, Trunc;
    ListsKnownOf(p, w);
    TruncIs(Scaled(p.staleFactor, w.descs[s].durationNs));
  }

  //// Timers

  /** A due stale timer of an open session leaves what the live sessions ask for, its own included. */
  lemma StaleValues<S>(p: Profile, w: World<S>, s: S, now: int, t: int)
    requires Inv(p, w) && Exact(w) && s in w.descs && !w.descs[s].closed && !w.descs[s].staleDead && w.descs[s].staleTime <= now
    ensures w.registered <= w.descs.Keys
    ensures LastOn(Next(p, w, StaleMessage(s, now)).log, t)
      == if t in w.descs[s].tids then Just(ClampUclamp(LiveMax(p, w.descs, Scan(w.descs, w.registered, t), now))) else LastOn(w.log, t)
  {
    hide Known, LogOk, LastOn, LiveMax, ClampUclamp, SetUclamp, Indexed, Scan;
    ListsKnownOf(p, w);
    SetUclampIsScan(p, w, s, 0, now, t);
  }

  /** A due early-boost timer leaves at least High. */
  lemma BoostValues<S>(p: Profile, w: World<S>, s: S, now: int, t: int)
    requires Inv(p, w) && Exact(w) && s in w.descs && !w.descs[s].boostDead && w.descs[s].boostTime <= now
    ensures w.registered <= w.descs.Keys
    ensures LastOn(Next(p, w, BoostMessage(s, now)).log, t)
      == if t in w.descs[s].tids then Just(ClampUclamp(Max(p.uclampHigh, LiveMax(p, w.descs, Scan(w.descs, w.registered, t), now)))) else LastOn(w.log, t)
  {
    hide Known, LogOk, LastOn, LiveMax, ClampUclamp, SetUclamp, Indexed, Scan;
    ListsKnownOf(p, w);
    SetUclampIsScan(p, w, s, p.uclampHigh, now, t);
  }

  /** A timer that is not due, or whose session is dead, does nothing; no timer changes a record. */
  lemma TimersWait<S>(p: Profile, w: World<S>, s: S, now: int)
    requires Inv(p, w) && s in w.descs
    ensures now < w.descs[s].staleTime || w.descs[s].closed ==> Next(p, w, StaleMessage(s, now)) == w
    ensures now < w.descs[s].boostTime || w.descs[s].closed ==> Next(p, w, BoostMessage(s, now)) == w
    ensures Next(p, w, StaleMessage(s, now)).descs == w.descs == Next(p, w, BoostMessage(s, now)).descs
  {
    hide Known, LogOk;
    ListsKnownOf(p, w);
  }

  /** After an accepted PID report the stale timer is due exactly when the session is no longer live. */
  lemma TimerMatchesLiveness<S>(p: Profile, w: World<S>, step: Step<S>, later: int)
    requires Inv(p, w) && p.pidOn && step.Report? && step.s in w.descs && ReportStatus(w.descs[step.s], step.durations) == StatusOk
    ensures var d := Next(p, w, step).descs[step.s];
      && (d.staleTime <= later <==> !Live(p, d, later))
      && (p.earlyBoostOn ==> d.boostTime == step.boostAt)
  {
    hide Known, LogOk, SetMin, StaleSpan, BatchTerms, PidMin;
    ListsKnownOf(p, w);
    var d := w.descs[step.s];
    SetMinTouches(p, w, step.s, Measured(p, d, step.durations, step.now), PidMin(p, d, step.durations), step.now);
  }

  //// The top-app boost

  /** The manager's message: the boost is off for the system exactly while some app session is live. */
  lemma BoostFollowsApps<S>(p: Profile, w: World<S>, now: int)
    requires Inv(p, w)
    ensures w.registered <= w.descs.Keys
    ensures var r := Next(p, w, ManagerMessage(now));
      && (r.mActive <==> exists s :: s in w.registered && w.descs[s].isApp && Live(p, w.descs[s], now))
      && r.log == (if r.mActive == w.mActive then w.log else w.log + [TopAppBoost(r.mActive)])
      && r == w.(mActive := r.mActive, log := r.log)
  {
    hide Known, LogOk, Live;
    ListsKnownOf(p, w);
  }

  /** So where no app has a session, the boost is never touched. */
  lemma NoAppNoBoost<S>(p: Profile, w: World<S>, now: int)
    requires Inv(p, w) && !w.mActive && forall s :: s in w.descs ==> !w.descs[s].isApp
    ensures Next(p, w, ManagerMessage(now)) == w
  {
    hide Known, LogOk, Live;
    ListsKnownOf(p, w);
    BoostFollowsApps(p, w, now);
  }
}
