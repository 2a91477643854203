/**
 What holds over every run of the ADPF sessions: the minima and integrals stay in bounds, a closed
 session is out of it for good, and the index is exact for as long as no task profile is refused.
 */
module AdpfRuns {
  import opened AdpfPid
  import opened AdpfSessions

  //// The log

  /** How often each session was removed from the manager. */
  function Removals<S>(log: seq<Event<S>>): (r: multiset<S>) {
    if log == [] then multiset{}
    else Removals(log[..|log| - 1]) + match log[|log| - 1] { case Removed(s) => multiset{s} case _ => multiset{} }
  }

  /** What the top-app boost was last told. */
  predicate BoostState<S>(log: seq<Event<S>>) {
    log != [] && match log[|log| - 1] { case TopAppBoost(b) => b case _ => BoostState(log[..|log| - 1]) }
  }

  /** Every word to the top-app boost is a change. */
  predicate BoostAlternates<S>(log: seq<Event<S>>) {
    log == [] || (BoostAlternates(log[..|log| - 1]) &&
      (log[|log| - 1].TopAppBoost? ==> log[|log| - 1].disabled != BoostState(log[..|log| - 1])))
  }

  ghost predicate AllApplied<S>(es: seq<Event<S>>, s: S) {
    forall i :: 0 <= i < |es| ==> es[i].Applied? && es[i].session == s
  }

  lemma LogSnoc<S>(log: seq<Event<S>>, e: Event<S>)
    ensures Removals(log + [e]) == Removals(log) + if e.Removed? then multiset{e.who} else multiset{}
    ensures BoostState(log + [e]) == if e.TopAppBoost? then e.disabled else BoostState(log)
    ensures BoostAlternates(log + [e]) ==
      (BoostAlternates(log) && (e.TopAppBoost? ==> e.disabled != BoostState(log)))
  {
    assert (log + [e])[..|log|] == log;
  }

  lemma {:induction false} LogApplied<S>(log: seq<Event<S>>, es: seq<Event<S>>, s: S)
    requires AllApplied(es, s)
    ensures Removals(log + es) == Removals(log)
    ensures BoostState(log + es) == BoostState(log)
    ensures BoostAlternates(log + es) == BoostAlternates(log)
    decreases |es|
  {
    if es == [] {
      assert log + es == log;
    } else {
      var init, e := es[..|es| - 1], es[|es| - 1];
      LogApplied(log, init, s);
      assert log + es == (log + init) + [e];
      LogSnoc(log + init, e);
    }
  }

  //// The invariant

  predicate DescOk(p: Profile, d: Desc) {
    && 0 <= d.currentMin <= Max(p.uclampHigh, p.uclampInit)
    && p.pid.iLow <= d.integral <= p.pid.iHigh
    && (d.closed ==> !d.isActive && d.staleDead && d.boostDead)
  }

  predicate SessionsOk<S>(p: Profile, w: World<S>) {
    forall s :: s in w.descs ==> DescOk(p, w.descs[s]) && (s in w.registered <==> !w.descs[s].closed)
  }

  function ClosedOnes<S>(w: World<S>): (r: set<S>) {
    set s | s in w.descs && w.descs[s].closed
  }

  predicate LogOk<S>(w: World<S>) {
    && Removals(w.log) == multiset(ClosedOnes(w))
    && BoostAlternates(w.log) && BoostState(w.log) == w.mActive
  }

  /** A thread's list holds sessions that list it, and no others. */
  ghost predicate Known<S>(w: World<S>) {
    && w.registered <= w.descs.Keys && ListsKnown(w)
    && forall t: int :: Listing(w, t)
  }

  predicate Listing<S>(w: World<S>, t: int)
    requires ListOf(w.index, t) <= w.descs.Keys
  {
    forall s :: s in ListOf(w.index, t) ==> t in w.descs[s].tids
  }

  /** What every step keeps, whichever task profiles are refused. */
  ghost predicate Inv<S>(p: Profile, w: World<S>) {
    ProfileOk(p) && Known(w) && SessionsOk(p, w) && LogOk(w)
  }

  ghost predicate Exact<S>(w: World<S>) {
    Indexed(w.index, w.descs, w.registered)
  }

  /** A step that changes one session's record and applies values on its behalf, and no more. */
  function Touched<S>(w: World<S>, s: S, d: Desc, es: seq<Event<S>>): (r: World<S>)
    requires s in w.descs
  {
    w.(descs := w.descs[s := d], log := w.log + es)
  }

  lemma TouchKeepsInv<S>(p: Profile, w: World<S>, s: S, d: Desc, es: seq<Event<S>>)
    requires Inv(p, w) && s in w.descs && AllApplied(es, s)
    requires d.tids == w.descs[s].tids && d.closed == w.descs[s].closed && DescOk(p, d)
    ensures Inv(p, Touched(w, s, d, es))
  {
    hide Known, Removals, BoostState, BoostAlternates, DescOk;
    TouchKeepsKnown(w, s, d, es);
    LogApplied(w.log, es, s);
    assert ClosedOnes(Touched(w, s, d, es)) == ClosedOnes(w);
  }

  lemma TouchKeepsKnown<S>(w: World<S>, s: S, d: Desc, es: seq<Event<S>>)
    requires Known(w) && s in w.descs && d.tids == w.descs[s].tids
    ensures Known(Touched(w, s, d, es))
  {
    forall t: int ensures Listing(Touched(w, s, d, es), t) {
      assert Listing(w, t);
    }
  }

  //// Steps as touches

  lemma AppliedAre<S>(p: Profile, w: World<S>, s: S, tids: seq<int>, val: int, now: int)
    requires ListsKnown(w)
    ensures AllApplied(Applications(p, w, s, tids, val, now), s)
  {
  }

  /** setSessionUclampMin touches its session only. */
  lemma SetMinTouches<S>(p: Profile, w: World<S>, s: S, d1: Desc, min: int, now: int)
    requires ListsKnown(w) && s in w.descs
    ensures var r := SetMin(p, Update(w, s, d1), s, min, now);
      var d2 := d1.(currentMin := min, staleTime := if min != 0 then now + StaleSpan(p, d1.durationNs) else d1.staleTime);
      && r.descs[s] == d2
      && exists es :: AllApplied(es, s) && r == Touched(w, s, d2, es)
  {
    hide Applications, StaleSpan;
    var w1 := Update(w, s, d1);
    var d2 := d1.(currentMin := min, staleTime := if min != 0 then now + StaleSpan(p, d1.durationNs) else d1.staleTime);
    var w2 := Update(w1, s, d2);
    var es := Applications(p, w2, s, d2.tids, min, now);
    AppliedAre(p, w2, s, d2.tids, min, now);
    assert w.descs[s := d1][s := d2] == w.descs[s := d2];
    assert SetMin(p, w1, s, min, now) == Touched(w, s, d2, es);
  }

  lemma SetUclampTouches<S>(p: Profile, w: World<S>, s: S, d: Desc, val: int, now: int)
    requires ListsKnown(w) && s in w.descs
    ensures var r := SetUclamp(p, Update(w, s, d), s, val, now);
      exists es :: AllApplied(es, s) && r == Touched(w, s, d, es)
  {
    hide Applications;
    var es := Applications(p, Update(w, s, d), s, d.tids, val, now);
    AppliedAre(p, Update(w, s, d), s, d.tids, val, now);
    assert SetUclamp(p, Update(w, s, d), s, val, now) == Touched(w, s, d, es);
  }

  lemma PauseKeepsInv<S>(p: Profile, w: World<S>, s: S, now: int)
    requires Inv(p, w) && s in w.descs
    ensures ListsKnown(w) && Inv(p, NextPause(p, w, s, now))
  {
    hide Known, LogOk, SetUclamp;
    ListsKnownOf(p, w);
    var d := w.descs[s];
    if !d.closed && d.isActive {
      var d' := d.(isActive := false);
      SetUclampTouches(p, w, s, d', 0, now);
      var es :| AllApplied(es, s) && NextPause(p, w, s, now) == Touched(w, s, d', es);
      TouchKeepsInv(p, w, s, d', es);
    }
  }

  lemma ResumeKeepsInv<S>(p: Profile, w: World<S>, s: S, now: int)
    requires Inv(p, w) && s in w.descs
    ensures ListsKnown(w) && Inv(p, NextResume(p, w, s, now))
  {
    hide Known, LogOk, SetMin, StaleSpan;
    ListsKnownOf(p, w);
    var d := w.descs[s];
    if !d.closed && !d.isActive {
      var d1, r := d.(isActive := true), NextResume(p, w, s, now);
      SetMinTouches(p, w, s, d1, d.currentMin, now);
      var es :| AllApplied(es, s) && r == Touched(w, s, r.descs[s], es);
      TouchKeepsInv(p, w, s, r.descs[s], es);
    }
  }

  lemma TargetKeepsInv<S>(p: Profile, w: World<S>, s: S, targetNs: int)
    requires Inv(p, w) && s in w.descs
    ensures Inv(p, NextTarget(p, w, s, targetNs))
  {
    hide Known, LogOk, ScaledTarget;
    var d, r := w.descs[s], NextTarget(p, w, s, targetNs);
    if !d.closed && targetNs > 0 {
      assert w.log + [] == w.log;
      assert r == Touched(w, s, r.descs[s], []);
      TouchKeepsInv(p, w, s, r.descs[s], []);
    }
  }

  /** A PID report keeps the minimum between the profile's limits and the integral within its own. */
  lemma ReportBounds(p: Profile, d: Desc, durations: seq<int>)
    requires ProfileOk(p) && DescOk(p, d) && durations != []
    ensures p.pid.iLow <= BatchTerms(p.pid, d.durationNs, durations, d.integral, d.previous).integral <= p.pid.iHigh
    ensures p.uclampLow <= PidMin(p, d, durations) <= p.uclampHigh
  {
    hide Output, Integrate, Errors, Sum;
    var n := |durations|;
    IntegralBounded(p.pid, NsTo100us(d.durationNs), d.integral, Errors(d.durationNs, durations),
                    WindowStart(p.pid.windowI, n), n);
  }

  lemma ReportTouches<S>(p: Profile, w: World<S>, s: S, durations: seq<int>, boostAt: int, now: int)
    requires Inv(p, w) && s in w.descs && ReportStatus(w.descs[s], durations).StatusOk?
    ensures ListsKnown(w)
    ensures var r := NextReport(p, w, s, durations, boostAt, now);
      && s in r.descs && r.descs[s].tids == w.descs[s].tids && !r.descs[s].closed && DescOk(p, r.descs[s])
      && (if p.pidOn then p.uclampLow <= r.descs[s].currentMin <= p.uclampHigh else r.descs[s].currentMin == p.uclampHigh)
      && exists es :: AllApplied(es, s) && r == Touched(w, s, r.descs[s], es)
  {
    hide Known, LogOk, SetMin, StaleSpan, BatchTerms, PidMin;
    ListsKnownOf(p, w);
    var d, r := w.descs[s], NextReport(p, w, s, durations, boostAt, now);
    if p.pidOn {
      var d1, m := Measured(p, d, durations, now), PidMin(p, d, durations);
      ReportBounds(p, d, durations);
      SetMinTouches(p, w, s, d1, m, now);
      var w2 := SetMin(p, Update(w, s, d1), s, m, now);
      var es :| AllApplied(es, s) && w2 == Touched(w, s, w2.descs[s], es);
      assert w2.descs[s := r.descs[s]] == w.descs[s := r.descs[s]];
      assert r == Touched(w, s, r.descs[s], es);
    } else {
      SetMinTouches(p, w, s, d.(lastUpdated := now), p.uclampHigh, now);
    }
  }

  lemma ReportKeepsInv<S>(p: Profile, w: World<S>, s: S, durations: seq<int>, boostAt: int, now: int)
    requires Inv(p, w) && s in w.descs
    ensures ListsKnown(w) && Inv(p, NextReport(p, w, s, durations, boostAt, now))
  {
    hide Known, LogOk, SetMin, BatchTerms, Output, DescOk;
    ListsKnownOf(p, w);
    if ReportStatus(w.descs[s], durations).StatusOk? {
      var r := NextReport(p, w, s, durations, boostAt, now);
      ReportTouches(p, w, s, durations, boostAt, now);
      var es :| AllApplied(es, s) && r == Touched(w, s, r.descs[s], es);
      TouchKeepsInv(p, w, s, r.descs[s], es);
    }
  }

  /** A value applied for a session, with nothing else changed. */
  lemma ApplyKeepsInv<S>(p: Profile, w: World<S>, s: S, val: int, now: int)
    requires Inv(p, w) && s in w.descs
    ensures ListsKnown(w) && Inv(p, SetUclamp(p, w, s, val, now))
  {
    hide Known, LogOk, Applications;
    ListsKnownOf(p, w);
    var es := Applications(p, w, s, w.descs[s].tids, val, now);
    AppliedAre(p, w, s, w.descs[s].tids, val, now);
    assert w.descs[s := w.descs[s]] == w.descs;
    assert SetUclamp(p, w, s, val, now) == Touched(w, s, w.descs[s], es);
    TouchKeepsInv(p, w, s, w.descs[s], es);
  }

  lemma WakeOneTouches<S>(p: Profile, w: World<S>, s: S, now: int)
    requires ListsKnown(w) && s in w.descs
    ensures var r := WakeOne(p, w, s, now);
      && r.descs[s] == w.descs[s].(currentMin := r.descs[s].currentMin, staleTime := r.descs[s].staleTime)
      && r.descs[s].currentMin in {w.descs[s].currentMin, p.uclampInit}
      && exists es :: AllApplied(es, s) && r == Touched(w, s, r.descs[s], es)
  {
    hide SetUclamp, StaleSpan, Stale;
    var d := w.descs[s];
    if !d.closed && d.isActive && Stale(p, d, now) {
      var min := Max(d.currentMin, p.uclampInit);
      SetUclampTouches(p, w, s, d.(currentMin := min, staleTime := now + StaleSpan(p, d.durationNs)), min, now);
    } else {
      assert AllApplied<S>([], s) && w.log + [] == w.log && w.descs[s := d] == w.descs;
      assert w == Touched(w, s, d, []);
    }
  }

  lemma WakeOneKeepsInv<S>(p: Profile, w: World<S>, s: S, now: int)
    requires Inv(p, w) && s in w.descs
    ensures ListsKnown(w) && Inv(p, WakeOne(p, w, s, now))
  {
    hide Known, LogOk, WakeOne;
    ListsKnownOf(p, w);
    WakeOneTouches(p, w, s, now);
    var r := WakeOne(p, w, s, now);
    var es :| AllApplied(es, s) && r == Touched(w, s, r.descs[s], es);
    TouchKeepsInv(p, w, s, r.descs[s], es);
  }

  lemma {:induction false} WakeAllKeepsInv<S>(p: Profile, w: World<S>, order: seq<S>, now: int)
    requires Inv(p, w) && forall s :: s in order ==> s in w.descs
    ensures ListsKnown(w) && Inv(p, WakeAll(p, w, order, now))
    decreases |order|
  {
    hide Inv, WakeOne;
    assert ListsKnown(w) by { ListsKnownOf(p, w); }
    if order != [] {
      WakeAllKeepsInv(p, w, order[..|order| - 1], now);
      WakeOneKeepsInv(p, WakeAll(p, w, order[..|order| - 1], now), order[|order| - 1], now);
    }
  }

  lemma ListsKnownOf<S>(p: Profile, w: World<S>)
    requires Inv(p, w)
    ensures ListsKnown(w) && w.registered <= w.descs.Keys
  {
  }

  lemma ManagerKeepsInv<S>(p: Profile, w: World<S>, now: int)
    requires Inv(p, w)
    ensures w.registered <= w.descs.Keys && Inv(p, NextManager(p, w, now))
  {
    hide Known, Removals, BoostState, BoostAlternates, AnyAppActive;
    ListsKnownOf(p, w);
    var active := AnyAppActive(p, w, now);
    KnownOf(w, NextManager(p, w, now));
    LogSnoc(w.log, TopAppBoost(active));
    assert ClosedOnes(NextManager(p, w, now)) == ClosedOnes(w);
  }

  //// Creation and closing

  predicate ProfilesSet<S>(w: World<S>, step: Step<S>)
    requires step.Create?
  {
    forall x :: x in step.tids && x in step.failing ==> x in w.index.refCount
  }

  lemma {:induction false} AddTidsLists<S>(ix: Index<S>, s: S, tids: seq<int>, failing: set<int>, t: int)
    ensures ListOf(AddTids(ix, s, tids, failing), t) == ListOf(ix, t) + if t in tids then {s} else {}
    decreases |tids|
  {
    if tids != [] {
      var init := tids[..|tids| - 1];
      assert tids == init + [tids[|tids| - 1]];
      AddTidsLists(ix, s, init, failing, t);
    }
  }

  lemma RegisteredKnown<S>(w: World<S>, step: Step<S>)
    requires step.Create? && Known(w) && step.s !in w.descs
    ensures Known(Registered(w, step))
  {
    hide AddTids;
    var r := Registered(w, step);
    forall t: int ensures ListOf(r.index, t) <= r.descs.Keys && Listing(r, t) {
      AddTidsLists(w.index, step.s, step.tids, step.failing, t);
      assert ListOf(w.index, t) <= w.descs.Keys && Listing(w, t);
    }
  }

  lemma RegisteredInv<S>(p: Profile, w: World<S>, step: Step<S>)
    requires Inv(p, w) && step.Create? && step.s !in w.descs
    ensures Inv(p, Registered(w, step))
  {
    hide Known, Removals, BoostState, BoostAlternates, AddTids;
    var r := Registered(w, step);
    RegisteredKnown(w, step);
    assert w.registered <= w.descs.Keys by { ListsKnownOf(p, w); }
    assert ClosedOnes(r) == ClosedOnes(w);
  }

  lemma CreateKeepsInv<S>(p: Profile, w: World<S>, step: Step<S>)
    requires Inv(p, w) && step.Create? && step.s !in w.descs
    ensures ListsKnown(Registered(w, step)) && Inv(p, NextCreate(p, w, step))
  {
    hide Known, LogOk, SetMin, StaleSpan, AddTids;
    var w1, s := Registered(w, step), step.s;
    RegisteredInv(p, w, step);
    ListsKnownOf(p, w1);
    var d := w1.descs[s];
    assert Update(w1, s, d) == w1 by {
      assert w1.descs[s := d] == w1.descs;
    }
    SetMinTouches(p, w1, s, d, p.uclampInit, step.now);
    var r := NextCreate(p, w, step);
    var es :| AllApplied(es, s) && r == Touched(w1, s, r.descs[s], es);
    TouchKeepsInv(p, w1, s, r.descs[s], es);
  }

  /**
   What unregistering leaves of a session in a thread's list. The loop passes over a thread that is
   not counted, so there the session stays, and nothing else ever takes it out.
   */
  lemma {:induction false} RemoveTidsLists<S>(ix: Index<S>, s: S, tids: seq<int>, t: int)
    ensures var r := RemoveTids(ix, s, tids);
      && (t !in ix.refCount ==> t !in r.refCount)
      && (t !in tids && t in ix.refCount ==> t in r.refCount)
      && ListOf(r, t) == if t in tids && t in ix.refCount then ListOf(ix, t) - {s} else ListOf(ix, t)
    decreases |tids|
  {
    if tids != [] {
      var init := tids[..|tids| - 1];
      assert tids == init + [tids[|tids| - 1]];
      RemoveTidsLists(ix, s, init, t);
    }
  }

  lemma UnregisteredKnown<S>(w: World<S>, s: S, d: Desc)
    requires Known(w) && s in w.descs && d.tids == w.descs[s].tids
    ensures Known(Unregistered(w, s).(descs := w.descs[s := d]))
  {
    hide RemoveTids;
    var r := Unregistered(w, s).(descs := w.descs[s := d]);
    forall t: int ensures ListOf(r.index, t) <= r.descs.Keys && Listing(r, t) {
      RemoveTidsLists(w.index, s, w.descs[s].tids, t);
      assert ListOf(w.index, t) <= w.descs.Keys && Listing(w, t);
    }
  }

  function ClosedDesc(d: Desc): (r: Desc) {
    d.(closed := true, currentMin := 0, isActive := false, boostDead := true, staleDead := true)
  }

  /** The world after close, given the values it applies. */
  function ClosedWorld<S>(w: World<S>, s: S, es: seq<Event<S>>): (r: World<S>)
    requires s in w.descs
  {
    var d := w.descs[s];
    w.(registered := w.registered - {s},
       index := RemoveTids(w.index, s, d.tids),
       descs := w.descs[s := ClosedDesc(d)],
       log := w.log + [Removed(s)] + es)
  }

  /** The world in which close computes its values: the session gone, its minimum 0. */
  function Closing<S>(w: World<S>, s: S): (r: World<S>)
    requires s in w.descs
  {
    var u := Unregistered(w, s);
    u.(descs := w.descs[s := w.descs[s].(closed := true, currentMin := 0)])
  }

  lemma CloseIs<S>(p: Profile, w: World<S>, s: S, now: int)
    requires Known(w) && s in w.descs && !w.descs[s].closed
    ensures ListsKnown(Unregistered(w, s)) && ListsKnown(Closing(w, s))
    ensures NextClose(p, w, s, now)
      == ClosedWorld(w, s, Applications(p, Closing(w, s), s, w.descs[s].tids, 0, now))
  {
    hide RemoveTids, Applications, StaleSpan;
    var d, u := w.descs[s], Unregistered(w, s);
    var d1 := d.(closed := true, currentMin := 0);
    UnregisteredKnown(w, s, d.(closed := true));
    UnregisteredKnown(w, s, d1);
    assert u.descs[s := d1] == w.descs[s := d1];
    assert u.descs[s := d1][s := ClosedDesc(d)] == w.descs[s := ClosedDesc(d)];
  }

  lemma ClosingIndexed<S>(w: World<S>, s: S)
    requires Exact(w) && s in w.registered
    ensures s in w.descs && Exact(Closing(w, s))
  {
    hide RemoveTids, IndexedAt;
    RemoveKeepsIndexed(w.index, w.descs, w.registered, s);
    UpdateKeepsIndexed(RemoveTids(w.index, s, w.descs[s].tids), w.descs, w.registered - {s}, s,
                       w.descs[s].(closed := true, currentMin := 0));
  }

  /**
   Close leaves each thread of the session at the clamp of the largest minimum among the live
   sessions that remain, and no other thread changed.
   */
  lemma CloseValues<S>(p: Profile, w: World<S>, s: S, now: int, t: int)
    requires Inv(p, w) && Exact(w) && s in w.descs && !w.descs[s].closed
    ensures w.registered <= w.descs.Keys && ListsKnown(Unregistered(w, s))
    ensures LastOn(NextClose(p, w, s, now).log, t)
      == if t in w.descs[s].tids then Just(ClampUclamp(LiveMax(p, w.descs, Scan(w.descs, w.registered - {s}, t), now)))
         else LastOn(w.log, t)
  {
    hide Indexed, LiveMax, Scan, RemoveTids, NextClose, Applications, LastOn, Known, LogOk;
    ListsKnownOf(p, w);
    CloseIsInv(p, w, s, now);
    ClosingIndexed(w, s);
    ApplicationsLast(p, Closing(w, s), s, w.descs[s].tids, 0, now, w.log + [Removed(s)], t);
    RemovedIsNoValue(w.log, s, t);
    FastIsScan(p, Closing(w, s), t, 0, now);
    ScanWithout(p, w.descs, w.registered, s, w.descs[s].(closed := true, currentMin := 0), t, now);
  }

  lemma RemovedIsNoValue<S>(log: seq<Event<S>>, s: S, t: int)
    ensures LastOn(log + [Removed(s)], t) == LastOn(log, t)
  {
    assert (log + [Removed(s)])[..|log|] == log;
  }

  lemma CloseIsInv<S>(p: Profile, w: World<S>, s: S, now: int)
    requires Inv(p, w) && s in w.descs && !w.descs[s].closed
    ensures ListsKnown(Unregistered(w, s)) && ListsKnown(Closing(w, s))
    ensures NextClose(p, w, s, now)
      == ClosedWorld(w, s, Applications(p, Closing(w, s), s, w.descs[s].tids, 0, now))
  {
    CloseIs(p, w, s, now);
  }

  /** The record of a session outside the scanned set does not matter to the scan. */
  lemma ScanWithout<S>(p: Profile, descs: map<S, Desc>, ss: set<S>, s: S, d: Desc, t: int, now: int)
    requires ss <= descs.Keys && s in descs
    ensures var rest := ss - {s};
      && Scan(descs[s := d], rest, t) == Scan(descs, rest, t)
      && LiveMax(p, descs[s := d], Scan(descs[s := d], rest, t), now) == LiveMax(p, descs, Scan(descs, rest, t), now)
  {
    hide LiveMax, Live;
    var rest := ss - {s};
    assert Scan(descs[s := d], rest, t) == Scan(descs, rest, t);
    var m := LiveMax(p, descs[s := d], Scan(descs[s := d], rest, t), now);
    LiveMaxUnique(p, descs, Scan(descs, rest, t), now, m);
  }

  lemma CloseKeepsInv<S>(p: Profile, w: World<S>, s: S, now: int)
    requires Inv(p, w) && s in w.descs
    ensures !w.descs[s].closed ==> ListsKnown(Unregistered(w, s))
    ensures Inv(p, NextClose(p, w, s, now))
  {
    hide Known, RemoveTids, Removals, BoostState, BoostAlternates, Applications, NextClose;
    if w.descs[s].closed {
      ClosedTwice(p, w, s, now);
    } else {
      CloseIsInv(p, w, s, now);
      var d := w.descs[s];
      var es := Applications(p, Closing(w, s), s, d.tids, 0, now);
      AppliedAre(p, Closing(w, s), s, d.tids, 0, now);
      var r := ClosedWorld(w, s, es);
      UnregisteredKnown(w, s, ClosedDesc(d));
      KnownOf(Unregistered(w, s).(descs := r.descs), r);
      LogSnoc(w.log, Removed(s));
      LogApplied(w.log + [Removed(s)], es, s);
      assert ClosedOnes(r) == ClosedOnes(w) + {s} && s !in ClosedOnes(w);
    }
  }

  lemma KnownOf<S>(a: World<S>, b: World<S>)
    requires Known(a) && a.registered == b.registered && a.index == b.index && a.descs == b.descs
    ensures Known(b)
  {
    forall t: int ensures Listing(b, t) {
      assert Listing(a, t);
    }
  }

  /** A second close, such as the destructor's, does nothing. */
  lemma ClosedTwice<S>(p: Profile, w: World<S>, s: S, now: int)
    requires s in w.descs && w.descs[s].closed
    ensures NextClose(p, w, s, now) == w && CloseStatus(w, s) == IllegalState
  {
  }

  //// Runs

  /** An enumeration of a set. */
  ghost predicate Lists<S>(order: seq<S>, ss: set<S>) {
    (set s | s in order) == ss && Distinct(order)
  }

  ghost predicate Distinct<S>(order: seq<S>) {
    forall i, j :: 0 <= i < j < |order| ==> order[i] != order[j]
  }

  /** A step that can happen. */
  ghost predicate Enabled<S>(w: World<S>, step: Step<S>) {
    match step
    case Create(s, _, _, _, _, _) => s !in w.descs
    case Report(s, _, _, _) => s in w.descs
    case WakeUp(order, _) => Lists(order, w.registered)
    case ManagerMessage(_) => true
    case Close(s, _) => s in w.descs
    case Pause(s, _) => s in w.descs
    case Resume(s, _) => s in w.descs
    case UpdateTarget(s, _) => s in w.descs
    case StaleMessage(s, _) => s in w.descs
    case BoostMessage(s, _) => s in w.descs
  }

  ghost function Next<S>(p: Profile, w: World<S>, step: Step<S>): (r: World<S>)
    requires Inv(p, w) && Enabled(w, step)
    ensures Inv(p, r)
  {
    ListsKnownOf(p, w);
    match step
    case Create(s, _, _, _, _, _) =>
      CreateKeepsInv(p, w, step);
      NextCreate(p, w, step)
    case Close(s, now) =>
      CloseKeepsInv(p, w, s, now);
      NextClose(p, w, s, now)
    case Pause(s, now) =>
      PauseKeepsInv(p, w, s, now);
      NextPause(p, w, s, now)
    case Resume(s, now) =>
      ResumeKeepsInv(p, w, s, now);
      NextResume(p, w, s, now)
    case UpdateTarget(s, targetNs) =>
      TargetKeepsInv(p, w, s, targetNs);
      NextTarget(p, w, s, targetNs)
    case Report(s, durations, boostAt, now) =>
      ReportKeepsInv(p, w, s, durations, boostAt, now);
      NextReport(p, w, s, durations, boostAt, now)
    case StaleMessage(s, now) =>
      ApplyKeepsInv(p, w, s, 0, now);
      NextStale(p, w, s, now)
    case BoostMessage(s, now) =>
      ApplyKeepsInv(p, w, s, p.uclampHigh, now);
      NextBoost(p, w, s, now)
    case WakeUp(order, now) =>
      WakeAllKeepsInv(p, w, order, now);
      WakeAll(p, w, order, now)
    case ManagerMessage(now) =>
      ManagerKeepsInv(p, w, now);
      NextManager(p, w, now)
  }

  /** A run from the empty system. */
  ghost predicate IsRun<S>(p: Profile, trace: seq<World<S>>, steps: seq<Step<S>>) {
    && ProfileOk(p) && |trace| == |steps| + 1 && trace[0] == Initial()
    && forall i :: 0 <= i < |steps| ==> StepTaken(p, trace[i], steps[i], trace[i + 1])
  }

  /** The step was possible and led from w to r; off the invariant, nothing is claimed. */
  ghost predicate StepTaken<S>(p: Profile, w: World<S>, step: Step<S>, r: World<S>) {
    Enabled(w, step) && (Inv(p, w) ==> r == Next(p, w, step))
  }

  lemma InitialInv<S>(p: Profile)
    requires ProfileOk(p)
    ensures Inv(p, Initial<S>())
  {
    var w := Initial<S>();
    forall t: int ensures IndexedAt(w.index, w.descs, w.registered, t) {
    }
    assert ClosedOnes(w) == {};
  }

  /**
   Over every run of creations, closes, reports, pauses, wake-ups and timer messages, with shared and
   repeated thread ids and whichever task profiles are refused: every minimum and integral is in
   bounds, and each closed session was removed exactly once.
   */
  lemma {:induction false} RunKeepsInv<S>(p: Profile, trace: seq<World<S>>, steps: seq<Step<S>>, n: nat)
    requires IsRun(p, trace, steps) && n <= |steps|
    ensures Inv(p, trace[n])
  {
    hide Inv, Next;
    if n == 0 {
      InitialInv<S>(p);
    } else {
      RunKeepsInv(p, trace, steps, n - 1);
      assert StepTaken(p, trace[n - 1], steps[n - 1], trace[n]);
    }
  }

  /** The minimum never exceeds the larger of High and Init, and the integral never leaves its limits. */
  lemma ControllerBounds<S>(p: Profile, trace: seq<World<S>>, steps: seq<Step<S>>, n: nat, s: S)
    requires IsRun(p, trace, steps) && n <= |steps| && s in trace[n].descs
    ensures 0 <= trace[n].descs[s].currentMin <= Max(p.uclampHigh, p.uclampInit)
    ensures p.pid.iLow <= trace[n].descs[s].integral <= p.pid.iHigh
  {
    hide Known, LogOk, Next;
    RunKeepsInv(p, trace, steps, n);
  }

  /** A session that has been closed was removed exactly once, any other never. */
  lemma RemovedExactlyOnce<S>(p: Profile, trace: seq<World<S>>, steps: seq<Step<S>>, n: nat, s: S)
    requires IsRun(p, trace, steps) && n <= |steps| && s in trace[n].descs
    ensures Removals(trace[n].log)[s] == if trace[n].descs[s].closed then 1 else 0
    ensures s in trace[n].registered <==> !trace[n].descs[s].closed
  {
    hide Known, Next;
    RunKeepsInv(p, trace, steps, n);
  }

  //// When the index is exact

  lemma TouchIsExact<S>(w: World<S>, s: S, d: Desc, es: seq<Event<S>>)
    requires w.registered <= w.descs.Keys && s in w.descs && d.tids == w.descs[s].tids
    ensures Exact(Touched(w, s, d, es)) <==> Exact(w)
  {
    hide IndexedAt;
    if Exact(w) {
      UpdateKeepsIndexed(w.index, w.descs, w.registered, s, d);
    }
    var r := Touched(w, s, d, es);
    if Exact(r) {
      UpdateKeepsIndexed(r.index, r.descs, r.registered, s, w.descs[s]);
      assert r.descs[s := w.descs[s]] == w.descs;
    }
  }

  /** Creating a session keeps the index exact if and only if no new thread refuses its task profile. */
  lemma CreateIsExactIff<S>(p: Profile, w: World<S>, step: Step<S>)
    requires Inv(p, w) && Exact(w) && step.Create? && step.s !in w.descs
    ensures ListsKnown(Registered(w, step))
    ensures Exact(NextCreate(p, w, step)) <==> ProfilesSet(w, step)
  {
    hide Known, LogOk, SetMin, StaleSpan, AddTids, Indexed, SessionsOk;
    var w1, s := Registered(w, step), step.s;
    RegisteredInv(p, w, step);
    ListsKnownOf(p, w1);
    var d := w1.descs[s];
    assert w1.descs[s := d] == w1.descs;
    SetMinTouches(p, w1, s, d, p.uclampInit, step.now);
    var r := NextCreate(p, w, step);
    var es :| AllApplied(es, s) && r == Touched(w1, s, r.descs[s], es);
    TouchIsExact(w1, s, r.descs[s], es);
    AddIndexedIff(w.index, w.descs, w.registered, s, d, step.failing);
  }

  lemma CloseIsExact<S>(p: Profile, w: World<S>, s: S, now: int)
    requires Inv(p, w) && Exact(w) && s in w.descs
    ensures !w.descs[s].closed ==> ListsKnown(Unregistered(w, s))
    ensures Exact(NextClose(p, w, s, now))
  {
    hide Known, LogOk, IndexedAt, RemoveTids, Applications, NextClose;
    if w.descs[s].closed {
      ClosedTwice(p, w, s, now);
    } else {
      var d := w.descs[s];
      CloseIsInv(p, w, s, now);
      ClosingIndexed(w, s);
      var v := Closing(w, s);
      UpdateKeepsIndexed(v.index, v.descs, v.registered, s, ClosedDesc(d));
      assert v.descs[s := ClosedDesc(d)] == w.descs[s := ClosedDesc(d)];
    }
  }

  lemma {:induction false} WakeIsExact<S>(p: Profile, w: World<S>, order: seq<S>, now: int)
    requires Known(w) && Exact(w) && forall x :: x in order ==> x in w.descs
    ensures Known(WakeAll(p, w, order, now)) && Exact(WakeAll(p, w, order, now))
    decreases |order|
  {
    hide Exact, Listing, WakeOne;
    if order != [] {
      WakeIsExact(p, w, order[..|order| - 1], now);
      WakeOneIsExact(p, WakeAll(p, w, order[..|order| - 1], now), order[|order| - 1], now);
    }
  }

  lemma WakeOneIsExact<S>(p: Profile, w: World<S>, s: S, now: int)
    requires Known(w) && Exact(w) && s in w.descs
    ensures Known(WakeOne(p, w, s, now)) && Exact(WakeOne(p, w, s, now))
  {
    hide WakeOne, Exact, Listing;
    WakeOneTouches(p, w, s, now);
    var r := WakeOne(p, w, s, now);
    var es :| AllApplied(es, s) && r == Touched(w, s, r.descs[s], es);
    TouchIsExact(w, s, r.descs[s], es);
    TouchKeepsKnown(w, s, r.descs[s], es);
  }

  lemma CallIsExact<S>(p: Profile, w: World<S>, step: Step<S>)
    requires Inv(p, w) && Exact(w) && Enabled(w, step)
    requires step.Pause? || step.Resume? || step.UpdateTarget? || step.StaleMessage? || step.BoostMessage?
    ensures Exact(Next(p, w, step))
  {
    hide Inv, Exact, Next;
    ListsKnownOf(p, w);
    CallTouches(p, w, step);
    var r := Next(p, w, step);
    var es :| AllApplied(es, step.s) && r == Touched(w, step.s, r.descs[step.s], es);
    TouchIsExact(w, step.s, r.descs[step.s], es);
  }

  lemma ReportIsExact<S>(p: Profile, w: World<S>, step: Step<S>)
    requires Inv(p, w) && Exact(w) && Enabled(w, step) && step.Report?
    ensures Exact(Next(p, w, step))
  {
    hide Known, Exact, LogOk, SetMin, BatchTerms, Output, DescOk;
    var s := step.s;
    ListsKnownOf(p, w);
    if ReportStatus(w.descs[s], step.durations).StatusOk? {
      ReportTouches(p, w, s, step.durations, step.boostAt, step.now);
      var r := Next(p, w, step);
      var es :| AllApplied(es, s) && r == Touched(w, s, r.descs[s], es);
      TouchIsExact(w, s, r.descs[s], es);
    }
  }

  /** Every step keeps an exact index exact, but for a creation with a refused task profile. */
  lemma StepIsExactIff<S>(p: Profile, w: World<S>, step: Step<S>)
    requires Inv(p, w) && Exact(w) && Enabled(w, step)
    ensures Exact(Next(p, w, step)) <==> step.Create? ==> ProfilesSet(w, step)
  {
    hide Inv, Exact, SetMin, SetUclamp, NextReport, NextPause, NextResume, NextTarget, NextStale, NextBoost, NextClose, NextCreate, ProfilesSet;
    ListsKnownOf(p, w);
    match step {
      case Create(_, _, _, _, _, _) => CreateIsExactIff(p, w, step);
      case Close(s, now) => CloseIsExact(p, w, s, now);
      case Report(_, _, _, _) => ReportIsExact(p, w, step);
      case WakeUp(order, now) =>
        InvIsKnown(p, w);
        OrderIsKnown(w, order);
        WakeIsExact(p, w, order, now);
      case ManagerMessage(now) => ManagerIsExact(p, w, now);
      case _ => CallIsExact(p, w, step);
    }
  }

  lemma InvIsKnown<S>(p: Profile, w: World<S>)
    requires Inv(p, w)
    ensures Known(w)
  {
  }

  lemma OrderIsKnown<S>(w: World<S>, order: seq<S>)
    requires Lists(order, w.registered) && w.registered <= w.descs.Keys
    ensures forall x :: x in order ==> x in w.descs && x in w.registered
  {
    forall x | x in order ensures x in w.registered {
      assert x in (set y | y in order);
    }
  }

  lemma ManagerIsExact<S>(p: Profile, w: World<S>, now: int)
    requires w.registered <= w.descs.Keys && Exact(w)
    ensures Exact(NextManager(p, w, now))
  {
  }

  /** No creation among the first n steps had a new thread refuse its task profile. */
  predicate NoneRefused<S>(trace: seq<World<S>>, steps: seq<Step<S>>, n: nat)
    requires n <= |steps| <= |trace|
  {
    forall i :: 0 <= i < n && steps[i].Create? ==> ProfilesSet(trace[i], steps[i])
  }

  /**
   In every run the index is exact all along if and only if no creation had a new thread refuse its
   task profile.
   */
  lemma {:induction false} IndexExactIff<S>(p: Profile, trace: seq<World<S>>, steps: seq<Step<S>>, n: nat)
    requires IsRun(p, trace, steps) && n <= |steps|
    ensures (forall i :: 0 <= i <= n ==> Exact(trace[i])) <==> NoneRefused(trace, steps, n)
  {
    hide Inv, Exact, Next, ProfilesSet, Enabled;
    if n == 0 {
      InitialExact<S>();
    } else {
      IndexExactIff(p, trace, steps, n - 1);
      if NoneRefused(trace, steps, n - 1) {
        RunKeepsInv(p, trace, steps, n - 1);
        assert StepTaken(p, trace[n - 1], steps[n - 1], trace[n]);
        StepIsExactIff(p, trace[n - 1], steps[n - 1]);
      }
    }
  }

  lemma InitialExact<S>()
    ensures Exact(Initial<S>())
  {
    var w := Initial<S>();
    forall t: int ensures IndexedAt(w.index, w.descs, w.registered, t) {
    }
  }

  /**
   Then each thread's count is its occurrences over the registered sessions, its list is exactly
   those, and no error branch has been reached.
   */
  lemma SessionIndexExact<S>(p: Profile, trace: seq<World<S>>, steps: seq<Step<S>>, n: nat, t: int)
    requires IsRun(p, trace, steps) && n <= |steps| && NoneRefused(trace, steps, n)
    ensures var w := trace[n];
      && w.registered <= w.descs.Keys && w.index.errors == 0
      && (t in w.index.refCount <==> Total(w.descs, w.registered, t) > 0)
      && (t in w.index.refCount ==> w.index.refCount[t] == Total(w.descs, w.registered, t))
      && ListOf(w.index, t) == Scan(w.descs, w.registered, t)
  {
    hide Total, Scan, SessionsOk, LogOk, Next, NoneRefused;
    IndexExactIff(p, trace, steps, n);
    assert Exact(trace[n]);
    assert IndexedAt(trace[n].index, trace[n].descs, trace[n].registered, t);
  }

  //// A closed session stays closed, and nothing is applied for it

  ghost predicate Quiet<S>(w: World<S>, r: World<S>, s: S) {
    && s in r.descs && r.descs[s].closed
    && |w.log| <= |r.log| && r.log[..|w.log|] == w.log
    && forall i :: |w.log| <= i < |r.log| ==>
        (r.log[i].Applied? ==> r.log[i].session != s) && (r.log[i].Removed? ==> r.log[i].who != s)
  }

  lemma TouchIsQuiet<S>(w: World<S>, x: S, d: Desc, es: seq<Event<S>>, s: S)
    requires x in w.descs && s in w.descs && w.descs[s].closed && x != s && AllApplied(es, x)
    ensures Quiet(w, Touched(w, x, d, es), s)
  {
  }

  lemma {:induction false} WakeIsQuiet<S>(p: Profile, w: World<S>, order: seq<S>, now: int, s: S)
    requires ListsKnown(w) && (forall x :: x in order ==> x in w.descs && x != s)
    requires s in w.descs && w.descs[s].closed
    ensures Quiet(w, WakeAll(p, w, order, now), s)
    decreases |order|
  {
    if order != [] {
      hide WakeOne, ListsKnown, Quiet;
      var init, x := order[..|order| - 1], order[|order| - 1];
      WakeIsQuiet(p, w, init, now, s);
      var u := WakeAll(p, w, init, now);
      QuietIsClosed(w, u, s);
      WakeOneTouches(p, u, x, now);
      var r := WakeOne(p, u, x, now);
      var es :| AllApplied(es, x) && r == Touched(u, x, r.descs[x], es);
      TouchIsQuiet(u, x, r.descs[x], es, s);
      QuietTransitive(w, u, r, s);
    } else {
      QuietReflexive(w, s);
    }
  }

  lemma QuietTransitive<S>(a: World<S>, b: World<S>, c: World<S>, s: S)
    requires Quiet(a, b, s) && Quiet(b, c, s)
    ensures Quiet(a, c, s)
  {
    forall i | |a.log| <= i < |c.log|
      ensures (c.log[i].Applied? ==> c.log[i].session != s) && (c.log[i].Removed? ==> c.log[i].who != s)
    {
      if i < |b.log| {
        assert c.log[i] == c.log[..|b.log|][i] == b.log[i];
      }
    }
    assert c.log[..|a.log|] == c.log[..|b.log|][..|a.log|];
  }

  lemma QuietReflexive<S>(w: World<S>, s: S)
    requires s in w.descs && w.descs[s].closed
    ensures Quiet(w, w, s)
  {
  }

  /** Another session's creation or closing. */
  lemma OthersAreQuiet<S>(p: Profile, w: World<S>, step: Step<S>, s: S)
    requires Inv(p, w) && Enabled(w, step) && s in w.descs && w.descs[s].closed
    requires step.Create? || (step.Close? && step.s != s)
    ensures Quiet(w, Next(p, w, step), s)
  {
    hide Known, LogOk, SessionsOk, SetMin, RemoveTids, AddTids, StaleSpan, Applications;
    var x := step.s;
    if step.Create? {
      var w1 := Registered(w, step);
      CreateKeepsInv(p, w, step);
      assert w1.descs[x := w1.descs[x]] == w1.descs;
      SetMinTouches(p, w1, x, w1.descs[x], p.uclampInit, step.now);
      var r := NextCreate(p, w, step);
      var es :| AllApplied(es, x) && r == Touched(w1, x, r.descs[x], es);
      TouchIsQuiet(w1, x, r.descs[x], es, s);
    } else if !w.descs[x].closed {
      CloseIs(p, w, x, step.now);
      AppliedAre(p, Closing(w, x), x, w.descs[x].tids, 0, step.now);
    } else {
      ClosedTwice(p, w, x, step.now);
      QuietReflexive(w, s);
    }
  }

  /** A dead session's own calls and timer messages change nothing. */
  lemma DeadSessionDoesNothing<S>(p: Profile, w: World<S>, step: Step<S>)
    requires Inv(p, w) && Enabled(w, step) && !step.Create? && !step.WakeUp? && !step.ManagerMessage?
    requires w.descs[step.s].closed
    ensures Next(p, w, step) == w
  {
    hide Known, LogOk, SetMin, SetUclamp, BatchTerms, Output;
  }

  /** A live session's calls and messages touch only that session. */
  lemma CallTouches<S>(p: Profile, w: World<S>, step: Step<S>)
    requires Inv(p, w) && Enabled(w, step)
    requires step.Pause? || step.Resume? || step.UpdateTarget? || step.StaleMessage? || step.BoostMessage?
    ensures var r := Next(p, w, step);
      && step.s in r.descs && r.descs[step.s].tids == w.descs[step.s].tids
      && exists es :: AllApplied(es, step.s) && r == Touched(w, step.s, r.descs[step.s], es)
  {
    hide Known, LogOk, SessionsOk, SetMin, SetUclamp, StaleSpan, ScaledTarget;
    var s, d, r := step.s, w.descs[step.s], Next(p, w, step);
    ListsKnownOf(p, w);
    assert w.descs[s := d] == w.descs && w.log + [] == w.log;
    assert AllApplied<S>([], s);
    match step {
      case Pause(_, now) => SetUclampTouches(p, w, s, d.(isActive := false), 0, now);
      case Resume(_, now) => SetMinTouches(p, w, s, d.(isActive := true), d.currentMin, now);
      case UpdateTarget(_, _) => assert r == Touched(w, s, r.descs[s], []);
      case StaleMessage(_, now) => SetUclampTouches(p, w, s, d, 0, now);
      case BoostMessage(_, now) => SetUclampTouches(p, w, s, d, p.uclampHigh, now);
    }
    if r == w {
      assert r == Touched(w, s, r.descs[s], []);
    }
  }

  lemma StepIsQuiet<S>(p: Profile, w: World<S>, step: Step<S>, s: S)
    requires Inv(p, w) && Enabled(w, step) && s in w.descs && w.descs[s].closed
    ensures Quiet(w, Next(p, w, step), s)
  {
    hide Known, LogOk, SetMin, SetUclamp, Quiet, NextReport, NextPause, NextResume, NextTarget, NextStale, NextBoost, NextClose, NextCreate;
    ListsKnownOf(p, w);
    match step {
      case WakeUp(order, now) =>
        assert forall x :: x in order ==> x in w.registered by {
          forall x | x in order ensures x in w.registered {
            assert x in (set y | y in order);
          }
        }
        WakeIsQuiet(p, w, order, now, s);
      case ManagerMessage(now) => ManagerIsQuiet(p, w, now, s);
      case Create(_, _, _, _, _, _) => OthersAreQuiet(p, w, step, s);
      case _ =>
        if step.s == s {
          DeadSessionDoesNothing(p, w, step);
          QuietReflexive(w, s);
        } else if step.Close? {
          OthersAreQuiet(p, w, step, s);
        } else if step.Report? {
          ReportIsQuiet(p, w, step, s);
        } else {
          CallIsQuiet(p, w, step, s);
        }
    }
  }

  lemma CallIsQuiet<S>(p: Profile, w: World<S>, step: Step<S>, s: S)
    requires Inv(p, w) && Enabled(w, step) && s in w.descs && w.descs[s].closed
    requires step.Pause? || step.Resume? || step.UpdateTarget? || step.StaleMessage? || step.BoostMessage?
    requires step.s != s
    ensures Quiet(w, Next(p, w, step), s)
  {
    hide Inv, Quiet, Next;
    CallTouches(p, w, step);
    var r := Next(p, w, step);
    var es :| AllApplied(es, step.s) && r == Touched(w, step.s, r.descs[step.s], es);
    TouchIsQuiet(w, step.s, r.descs[step.s], es, s);
  }

  lemma ManagerIsQuiet<S>(p: Profile, w: World<S>, now: int, s: S)
    requires w.registered <= w.descs.Keys && s in w.descs && w.descs[s].closed
    ensures Quiet(w, NextManager(p, w, now), s)
  {
  }

  lemma ReportIsQuiet<S>(p: Profile, w: World<S>, step: Step<S>, s: S)
    requires Inv(p, w) && Enabled(w, step) && s in w.descs && w.descs[s].closed
    requires step.Report? && step.s != s
    ensures Quiet(w, Next(p, w, step), s)
  {
    hide Known, LogOk, SetMin, Quiet, BatchTerms, Output;
    var x := step.s;
    if ReportStatus(w.descs[x], step.durations).StatusOk? {
      ReportTouches(p, w, x, step.durations, step.boostAt, step.now);
      var r := Next(p, w, step);
      var es :| AllApplied(es, x) && r == Touched(w, x, r.descs[x], es);
      TouchIsQuiet(w, x, r.descs[x], es, s);
    } else {
      QuietReflexive(w, s);
    }
  }

  lemma {:induction false} WakeKeepsIndex<S>(p: Profile, w: World<S>, order: seq<S>, now: int)
    requires ListsKnown(w) && forall s :: s in order ==> s in w.descs
    ensures WakeAll(p, w, order, now).index == w.index
    decreases |order|
  {
    if order != [] {
      WakeKeepsIndex(p, w, order[..|order| - 1], now);
    }
  }

  /** No step of anyone takes a closed session out of a thread's list, or puts it in. */
  lemma StepKeepsListed<S>(p: Profile, w: World<S>, step: Step<S>, s: S, t: int)
    requires Inv(p, w) && Enabled(w, step) && s in w.descs && w.descs[s].closed
    ensures s in ListOf(Next(p, w, step).index, t) <==> s in ListOf(w.index, t)
  {
    hide Inv, NextReport, NextPause, NextResume, NextTarget, NextStale, NextBoost, NextClose, AddTids, Applications, StaleSpan;
    ListsKnownOf(p, w);
    match step {
      case Create(x, tids, _, _, failing, _) =>
        CreateKeepsInv(p, w, step);
        AddTidsLists(w.index, x, tids, failing, t);
      case Close(x, now) =>
        if w.descs[x].closed {
          ClosedTwice(p, w, x, now);
        } else {
          CloseListed(p, w, x, now, s, t);
        }
      case Report(_, _, _, _) => ReportKeepsIndex(p, w, step);
      case WakeUp(order, now) =>
        OrderIsKnown(w, order);
        WakeKeepsIndex(p, w, order, now);
      case ManagerMessage(now) =>
      case _ => CallKeepsIndex(p, w, step);
    }
  }

  lemma CallKeepsIndex<S>(p: Profile, w: World<S>, step: Step<S>)
    requires Inv(p, w) && Enabled(w, step)
    requires step.Pause? || step.Resume? || step.UpdateTarget? || step.StaleMessage? || step.BoostMessage?
    ensures Next(p, w, step).index == w.index
  {
    hide Inv, Next;
    CallTouches(p, w, step);
  }

  lemma ReportKeepsIndex<S>(p: Profile, w: World<S>, step: Step<S>)
    requires Inv(p, w) && Enabled(w, step) && step.Report?
    ensures Next(p, w, step).index == w.index
  {
    hide Inv, Applications, Measured, PidMin, StaleSpan;
  }

  /** Which lists a close leaves a session in: its own name stays where the thread is not counted. */
  lemma CloseListed<S>(p: Profile, w: World<S>, x: S, now: int, s: S, t: int)
    requires Inv(p, w) && x in w.descs && !w.descs[x].closed
    ensures ListsKnown(Unregistered(w, x))
    ensures s in ListOf(NextClose(p, w, x, now).index, t)
      <==> s in ListOf(w.index, t) && (s == x ==> t !in w.index.refCount)
  {
    hide RemoveTids, Applications, NextClose, LogOk, SessionsOk;
    CloseIs(p, w, x, now);
    RemoveTidsLists(w.index, x, w.descs[x].tids, t);
    assert Listing(w, t);
  }

  /**
   Close is terminal. From the moment a session is closed, in every run: it stays closed and out of
   the manager, it is never removed again, no call, wake-up or timer message applies a value on its
   behalf, and the threads' lists hold it exactly where its close has left it.
   */
  lemma {:induction false} CloseIsTerminal<S>(p: Profile, trace: seq<World<S>>, steps: seq<Step<S>>, k: nat, n: nat, s: S)
    requires IsRun(p, trace, steps) && k <= n <= |steps|
    requires s in trace[k].descs && trace[k].descs[s].closed
    ensures Quiet(trace[k], trace[n], s) && s !in trace[n].registered
    ensures forall t: int :: s in ListOf(trace[n].index, t) <==> s in ListOf(trace[k].index, t)
    decreases n - k
  {
    hide Next, Quiet, Inv, Removals, Enabled, ListOf;
    if k < n {
      CloseIsTerminal(p, trace, steps, k, n - 1, s);
      RunKeepsInv(p, trace, steps, n - 1);
      assert StepTaken(p, trace[n - 1], steps[n - 1], trace[n]);
      QuietIsClosed(trace[k], trace[n - 1], s);
      StepIsQuiet(p, trace[n - 1], steps[n - 1], s);
      QuietTransitive(trace[k], trace[n - 1], trace[n], s);
      forall t: int ensures s in ListOf(trace[n].index, t) <==> s in ListOf(trace[n - 1].index, t) {
        StepKeepsListed(p, trace[n - 1], steps[n - 1], s, t);
      }
    } else {
      QuietReflexive(trace[k], s);
    }
    QuietIsClosed(trace[k], trace[n], s);
    RemovedExactlyOnce(p, trace, steps, n, s);
  }

  /** Where no task profile was refused, a closed session is in no list at all. */
  lemma ClosedIsUnlisted<S>(p: Profile, trace: seq<World<S>>, steps: seq<Step<S>>, n: nat, s: S, t: int)
    requires IsRun(p, trace, steps) && n <= |steps| && NoneRefused(trace, steps, n)
    requires s in trace[n].descs && trace[n].descs[s].closed
    ensures s !in ListOf(trace[n].index, t)
  {
    hide Next, Removals, Enabled, NoneRefused, IsRun;
    SessionIndexExact(p, trace, steps, n, t);
    RemovedExactlyOnce(p, trace, steps, n, s);
  }

  /**
   One session with one thread whose task profile is refused: the thread is listed and not counted,
   and after its close the session stays in the list for good.
   */
  lemma RefusedProfileStrands(p: Profile, trace: seq<World<int>>, steps: seq<Step<int>>, n: nat)
    requires IsRun(p, trace, steps) && 2 <= n <= |steps|
    requires steps[0].Create? && steps[0].tids == [7] && steps[0].failing == {7}
    requires steps[1].Close? && steps[1].s == steps[0].s
    ensures steps[0].s in ListOf(trace[1].index, 7) && 7 !in trace[1].index.refCount && !Exact(trace[1])
    ensures steps[0].s in ListOf(trace[n].index, 7) && steps[0].s !in trace[n].registered
  {
    hide Inv, SetMin, NextClose, Exact;
    var s := steps[0].s;
    InitialInv<int>(p);
    InitialExact<int>();
    assert StepTaken(p, trace[0], steps[0], trace[1]) && StepTaken(p, trace[1], steps[1], trace[2]);
    RefusedCreate(p, trace[0], steps[0]);
    RunKeepsInv(p, trace, steps, 1);
    CloseListed(p, trace[1], s, steps[1].now, s, 7);
    CloseCloses(p, trace[1], s, steps[1].now);
    CloseIsTerminal(p, trace, steps, 2, n, s);
  }

  lemma RefusedCreate(p: Profile, w: World<int>, step: Step<int>)
    requires Inv(p, w) && Exact(w) && w == Initial() && step.Create? && step.tids == [7] && step.failing == {7}
    ensures ListsKnown(Registered(w, step))
    ensures var r := NextCreate(p, w, step);
      && step.s in r.descs && !r.descs[step.s].closed
      && step.s in ListOf(r.index, 7) && 7 !in r.index.refCount && !Exact(r)
  {
    hide Inv, Exact, Applications;
    CreateKeepsInv(p, w, step);
    CreateIsExactIff(p, w, step);
    assert step.tids[..0] == [];
    assert AddTids(w.index, step.s, step.tids, {7}) == AddTid(w.index, step.s, 7, {7});
    assert 7 in step.tids && 7 in step.failing;
  }

  lemma CloseCloses<S>(p: Profile, w: World<S>, s: S, now: int)
    requires Inv(p, w) && s in w.descs && !w.descs[s].closed
    ensures ListsKnown(Unregistered(w, s))
    ensures var r := NextClose(p, w, s, now); s in r.descs && r.descs[s].closed
  {
    hide RemoveTids, Applications, NextClose, LogOk, SessionsOk;
    CloseIs(p, w, s, now);
  }

  lemma QuietIsClosed<S>(w: World<S>, r: World<S>, s: S)
    requires Quiet(w, r, s)
    ensures s in r.descs && r.descs[s].closed
  {
  }
}
