/**
 PowerSessionManager and PowerHintSession as the objects they are: sessions and manager update
 their fields in place, with the source's loops, and each method takes the whole system one step
 of the state machine further.

 The profile and the clock reading are parameters; `log` records the calls into the kernel and to
 the top-app boost.
 */
module AdpfObjects {
  import opened AdpfPid
  import opened AdpfSessions
  import opened AdpfRuns

  lemma ApplicationsSnoc<S>(p: Profile, w: World<S>, s: S, tids: seq<int>, i: nat, val: int, now: int)
    requires ListsKnown(w) && i < |tids|
    ensures Applications(p, w, s, tids[..i + 1], val, now)
      == Applications(p, w, s, tids[..i], val, now) + [Applied(s, tids[i], ListValue(p, w, tids[i], val, now))]
  {
    hide ListValue;
  }

  lemma ListsEmpty<S>()
    ensures Lists<S>([], {})
  {
  }

  lemma ListsSnoc<S>(order: seq<S>, ss: set<S>, rest: set<S>, s: S)
    requires Lists(order, ss - rest) && s in rest && rest <= ss
    ensures Lists(order + [s], ss - (rest - {s}))
  {
    assert forall x :: x in order + [s] <==> x in order || x == s;
    assert forall x :: x in order <==> x in ss - rest;
  }

  class PowerSessionManager {
    var sessions: set<PowerHintSession>
    var refCount: map<int, int>
    var lists: map<int, set<PowerHintSession>>
    var active: bool
    var log: seq<Event<PowerHintSession>>

    // Passes through the error branches, and every session there ever was.
    ghost var errors: nat
    ghost var known: set<PowerHintSession>

    constructor ()
      ensures Snapshot() == Initial() && known == {}
    {
      sessions, refCount, lists, active, log := {}, map[], map[], false, [];
      errors, known := 0, {};
    }

    ghost function Ix(): (r: Index<PowerHintSession>)
      reads this
    {
      Index(refCount, lists, errors)
    }

    ghost function Descs(): (r: map<PowerHintSession, Desc>)
      reads this, known
    {
      map s | s in known :: s.Record()
    }

    ghost function Snapshot(): (w: World<PowerHintSession>)
      reads this, known
    {
      World(sessions, Ix(), Descs(), active, log)
    }

    /** When no record but one has changed, neither has the rest of the snapshot's map. */
    twostate lemma OneRecordChanged(s: PowerHintSession)
      requires known == old(known) && s in known
      requires forall x :: x in known && x != s ==> x.Record() == old(x.Record())
      ensures Descs() == old(Descs())[s := s.Record()]
    {
    }

    method AddPowerSession(s: PowerHintSession, failing: set<int>)
      modifies this
      ensures Ix() == AddTids(old(Ix()), s, s.threadIds, failing)
      ensures sessions == old(sessions) + {s} && known == old(known) + {s}
      ensures active == old(active) && log == old(log)
    {
      hide AddTid;
      var i := 0;
      while i < |s.threadIds|
        invariant i <= |s.threadIds|
        invariant Ix() == AddTids(old(Ix()), s, s.threadIds[..i], failing)
        invariant sessions == old(sessions) && known == old(known) && active == old(active) && log == old(log)
      {
        assert s.threadIds[..i + 1][..i] == s.threadIds[..i];
        AddThread(s, s.threadIds[i], failing);
        i := i + 1;
      }
      assert s.threadIds[..i] == s.threadIds;
      sessions := sessions + {s};
      known := known + {s};
    }

    method AddThread(s: PowerHintSession, t: int, failing: set<int>)
      modifies this`refCount, this`lists, this`errors
      ensures Ix() == AddTid(old(Ix()), s, t, failing)
    {
      lists := lists[t := (if t in lists then lists[t] else {}) + {s}];
      if t !in refCount {
        if t !in failing {
          refCount := refCount[t := 1];
        }
      } else if refCount[t] <= 0 {
        errors := errors + 1;
      } else {
        refCount := refCount[t := refCount[t] + 1];
      }
    }

    method RemovePowerSession(s: PowerHintSession)
      modifies this`sessions, this`refCount, this`lists, this`errors, this`log
      ensures Ix() == RemoveTids(old(Ix()), s, s.threadIds)
      ensures sessions == old(sessions) - {s} && log == old(log) + [Removed(s)]
    {
      var i := 0;
      while i < |s.threadIds|
        invariant i <= |s.threadIds|
        invariant Ix() == RemoveTids(old(Ix()), s, s.threadIds[..i])
        invariant sessions == old(sessions) && log == old(log)
      {
        var t := s.threadIds[i];
        assert s.threadIds[..i + 1][..i] == s.threadIds[..i];
        if t !in refCount {
          errors := errors + 1;
        } else {
          lists := lists[t := (if t in lists then lists[t] else {}) - {s}];
          refCount := refCount[t := refCount[t] - 1];
          if refCount[t] <= 0 {
            refCount := refCount - {t};
          }
        }
        i := i + 1;
      }
      assert s.threadIds[..i] == s.threadIds;
      sessions := sessions - {s};
      log := log + [Removed(s)];
    }

    /** The inner loop of setUclampMinLocked, over a set in whatever order. */
    method LargestLive(p: Profile, ss: set<PowerHintSession>, now: int) returns (tidMax: int)
      requires ss <= known
      ensures tidMax == LiveMax(p, Descs(), ss, now)
    {
      hide Stale;
      tidMax := 0;
      var rest := ss;
      while rest != {}
        invariant rest <= ss && tidMax >= 0
        invariant forall s :: s in ss - rest && Live(p, s.Record(), now) ==> s.currentMin <= tidMax
        invariant tidMax == 0 || exists s :: s in ss - rest && Live(p, s.Record(), now) && s.currentMin == tidMax
        decreases |rest|
      {
        var s :| s in rest;
        rest := rest - {s};
        if s.isActive && !s.IsTimeout(p, now) {
          tidMax := Max(tidMax, s.currentMin);
        }
      }
      LiveMaxUnique(p, Descs(), ss, now, tidMax);
    }

    method SetUclampMin(p: Profile, s: PowerHintSession, val: int, now: int)
      requires s in known && ListsKnown(Snapshot())
      modifies this`log
      ensures Snapshot() == SetUclamp(p, old(Snapshot()), s, val, now)
    {
      hide Applications, ListValue, ListsKnown;
      ghost var w := Snapshot();
      var i := 0;
      while i < |s.threadIds|
        invariant i <= |s.threadIds|
        invariant log == w.log + Applications(p, w, s, s.threadIds[..i], val, now)
      {
        SetOne(p, s, s.threadIds[i], val, now, w);
        ApplicationsSnoc(p, w, s, s.threadIds, i, val, now);
        i := i + 1;
      }
      assert s.threadIds[..i] == s.threadIds;
    }

    /** One turn of the outer loop. */
    method SetOne(p: Profile, s: PowerHintSession, t: int, val: int, now: int, ghost w: World<PowerHintSession>)
      requires ListsKnown(w) && w == Snapshot().(log := w.log)
      modifies this`log
      ensures log == old(log) + [Applied(s, t, ListValue(p, w, t, val, now))]
    {
      hide LiveMax, ClampUclamp;
      assert ListOf(w.index, t) <= w.descs.Keys;
      var tidMax := LargestLive(p, if t in lists then lists[t] else {}, now);
      log := log + [Applied(s, t, ClampUclamp(Max(val, tidMax)))];
    }

    /** The scan of isAnyAppSessionActive. */
    method AnyAppSessionLive(p: Profile, now: int) returns (any: bool)
      requires sessions <= known
      ensures any == AnyAppActive(p, Snapshot(), now)
    {
      hide Stale;
      any := false;
      var rest := sessions;
      while rest != {} && !any
        invariant rest <= sessions
        invariant any <==> exists s :: s in sessions - rest && Live(p, s.Record(), now) && s.isApp
        decreases |rest|
      {
        var s :| s in rest;
        rest := rest - {s};
        if s.isActive && !s.IsTimeout(p, now) && s.isApp {
          any := true;
        }
      }
    }

    /** isAnyAppSessionActive and handleMessage: the boost hears of changes only. */
    method HandleMessage(p: Profile, now: int)
      requires sessions <= known
      modifies this`active, this`log
      ensures Snapshot() == NextManager(p, old(Snapshot()), now)
    {
      hide AnyAppActive;
      var any := AnyAppSessionLive(p, now);
      if any != active {
        active := any;
        log := log + [TopAppBoost(any)];
      }
    }

    /** wakeSessions: every registered session once, in the order the set yields them. */
    method WakeSessions(p: Profile, now: int) returns (ghost order: seq<PowerHintSession>)
      requires sessions <= known && ListsKnown(Snapshot()) && forall s :: s in known ==> s.manager == this
      modifies this`log, sessions
      ensures Lists(order, sessions)
      ensures forall s :: s in order ==> s in old(Snapshot()).descs
      ensures Snapshot() == WakeAll(p, old(Snapshot()), order, now)
    {
      hide WakeOne, ListsKnown, Lists;
      order := [];
      assert Lists(order, {}) by { ListsEmpty<PowerHintSession>(); }
      var rest := sessions;
      assert sessions - rest == {};
      while rest != {}
        invariant rest <= sessions && Lists(order, sessions - rest)
        invariant ListsKnown(Snapshot())
        invariant forall s :: s in order ==> s in old(Snapshot()).descs
        invariant Snapshot() == WakeAll(p, old(Snapshot()), order, now)
        decreases |rest|
      {
        var s :| s in rest;
        s.WakeUp(p, now);
        ListsSnoc(order, sessions, rest, s);
        rest := rest - {s};
        assert (order + [s])[..|order|] == order;
        order := order + [s];
      }
      assert sessions - rest == sessions;
    }
  }

  class PowerHintSession {
    const manager: PowerSessionManager
    const threadIds: seq<int>
    const isApp: bool
    var durationNs: int
    var currentMin: int
    var isActive: bool
    var integral: int
    var previous: int
    var lastUpdated: int
    var closed: bool
    var staleTime: int
    var staleDead: bool
    var boostTime: int
    var boostDead: bool

    function Record(): (d: Desc)
      reads this
    {
      Desc(threadIds, isApp, durationNs, currentMin, isActive, integral, previous, lastUpdated, closed,
           staleTime, staleDead, boostTime, boostDead)
    }

    predicate IsTimeout(p: Profile, now: int)
      reads this
    {
      Stale(p, Record(), now)
    }

    /** Registers with the manager, then asks for the initial boost, whichever task profiles fail. */
    constructor (p: Profile, m: PowerSessionManager, tids: seq<int>, app: bool, targetNs: int, failing: set<int>, now: int)
      requires Inv(p, m.Snapshot())
      modifies m
      ensures manager == m && m.known == old(m.known) + {this}
      ensures var w, step := old(m.Snapshot()), Create(this, tids, app, targetNs, failing, now);
        Enabled(w, step) && m.Snapshot() == Next(p, w, step)
    {
      manager, threadIds, isApp, durationNs := m, tids, app, targetNs;
      currentMin, isActive, integral, previous, lastUpdated, closed := 0, true, 0, 0, now, false;
      staleTime, staleDead, boostTime, boostDead := 0, false, 0, false;
      new;
      hide SetMin, AddTids, Inv;
      ghost var w, step := old(m.Snapshot()), Create(this, tids, app, targetNs, failing, now);
      m.AddPowerSession(this, failing);
      assert m.Descs() == w.descs[this := Record()];
      assert m.Snapshot() == Registered(w, step);
      RegisteredInv(p, w, step);
      ListsKnownOf(p, m.Snapshot());
      SetSessionUclampMin(p, p.uclampInit, now);
    }

    /** setSessionUclampMin. */
    method SetSessionUclampMin(p: Profile, min: int, now: int)
      requires this in manager.known && ListsKnown(manager.Snapshot())
      modifies this`currentMin, this`staleTime, manager`log
      ensures manager.Snapshot() == SetMin(p, old(manager.Snapshot()), this, min, now)
    {
      hide StaleSpan, SetUclamp;
      currentMin := min;
      if min != 0 {
        staleTime := now + StaleSpan(p, durationNs);
      }
      manager.OneRecordChanged(this);
      manager.SetUclampMin(p, this, min, now);
    }

    method Pause(p: Profile, now: int) returns (r: Status)
      requires this in manager.known && Inv(p, manager.Snapshot())
      modifies this`isActive, manager`log
      ensures manager.Snapshot() == Next(p, old(manager.Snapshot()), Step.Pause(this, now))
      ensures r.StatusOk? <==> !old(closed) && old(isActive)
    {
      hide Inv, SetUclamp;
      ListsKnownOf(p, manager.Snapshot());
      if closed || !isActive {
        return IllegalState;
      }
      isActive := false;
      manager.OneRecordChanged(this);
      manager.SetUclampMin(p, this, 0, now);
      r := StatusOk;
    }

    method Resume(p: Profile, now: int) returns (r: Status)
      requires this in manager.known && Inv(p, manager.Snapshot())
      modifies this`isActive, this`currentMin, this`staleTime, manager`log
      ensures manager.Snapshot() == Next(p, old(manager.Snapshot()), Step.Resume(this, now))
      ensures r.StatusOk? <==> !old(closed) && !old(isActive)
    {
      hide Inv, SetMin;
      ListsKnownOf(p, manager.Snapshot());
      if closed || isActive {
        return IllegalState;
      }
      isActive := true;
      manager.OneRecordChanged(this);
      SetSessionUclampMin(p, currentMin, now);
      r := StatusOk;
    }

    method Close(p: Profile, now: int) returns (r: Status)
      requires this in manager.known && Inv(p, manager.Snapshot())
      modifies this, manager`sessions, manager`refCount, manager`lists, manager`errors, manager`log
      ensures manager.Snapshot() == Next(p, old(manager.Snapshot()), Step.Close(this, now))
      ensures r == CloseStatus(old(manager.Snapshot()), this)
    {
      hide Inv, SetMin, Unregistered;
      CloseKeepsInv(p, manager.Snapshot(), this, now);
      if closed {
        return IllegalState;
      }
      Unregister();
      SetSessionUclampMin(p, 0, now);
      Finish();
      r := StatusOk;
    }

    method Unregister()
      requires this in manager.known
      modifies this`closed, manager`sessions, manager`refCount, manager`lists, manager`errors, manager`log
      ensures manager.Snapshot() == Unregistered(old(manager.Snapshot()), this)
    {
      hide RemoveTids;
      closed := true;
      manager.RemovePowerSession(this);
      manager.OneRecordChanged(this);
    }

    method Finish()
      requires this in manager.known
      modifies this`isActive, this`boostDead, this`staleDead
      ensures var w := old(manager.Snapshot());
        manager.Snapshot() == Update(w, this, w.descs[this].(isActive := false, boostDead := true, staleDead := true))
    {
      isActive := false;
      boostDead := true;
      staleDead := true;
      manager.OneRecordChanged(this);
    }

    method UpdateTargetWorkDuration(p: Profile, targetNs: int) returns (r: Status)
      requires this in manager.known && Inv(p, manager.Snapshot())
      modifies this`durationNs
      ensures manager.Snapshot() == Next(p, old(manager.Snapshot()), UpdateTarget(this, targetNs))
      ensures r == if old(closed) then IllegalState else if targetNs <= 0 then IllegalArgument else StatusOk
    {
      hide Inv, ScaledTarget;
      if closed {
        return IllegalState;
      }
      if targetNs <= 0 {
        return IllegalArgument;
      }
      durationNs := ScaledTarget(p, targetNs);
      manager.OneRecordChanged(this);
      r := StatusOk;
    }

    /** reportActualWorkDuration; `boostAt` is the early-boost estimate. */
    method ReportActualWorkDuration(p: Profile, durations: seq<int>, boostAt: int, now: int) returns (r: Status)
      requires this in manager.known && Inv(p, manager.Snapshot())
      modifies this, manager`log
      ensures manager.Snapshot() == Next(p, old(manager.Snapshot()), Report(this, durations, boostAt, now))
      ensures r == ReportStatus(old(Record()), durations)
    {
      hide Inv, SetMin, Measured, PidMin, Rearmed;
      ListsKnownOf(p, manager.Snapshot());
      if closed {
        return IllegalState;
      }
      if durationNs == 0 {
        return IllegalState;
      }
      if durations == [] {
        return IllegalArgument;
      }
      if !isActive {
        return IllegalState;
      }
      Accept(p, durations, boostAt, now);
      r := StatusOk;
    }

    /** The part of a report behind its checks. */
    method Accept(p: Profile, durations: seq<int>, boostAt: int, now: int)
      requires this in manager.known && ListsKnown(manager.Snapshot())
      requires ReportStatus(Record(), durations).StatusOk?
      modifies this, manager`log
      ensures manager.Snapshot() == NextReport(p, old(manager.Snapshot()), this, durations, boostAt, now)
    {
      hide SetMin, Measured, PidMin, Rearmed;
      if !p.pidOn {
        lastUpdated := now;
        manager.OneRecordChanged(this);
        SetSessionUclampMin(p, p.uclampHigh, now);
      } else {
        var min := Measure(p, durations, now);
        SetSessionUclampMin(p, min, now);
        Rearm(p, boostAt, now);
      }
    }

    method Measure(p: Profile, durations: seq<int>, now: int) returns (min: int)
      requires this in manager.known && durations != []
      modifies this`lastUpdated, this`integral, this`previous
      ensures var w := old(manager.Snapshot());
        manager.Snapshot() == w.(descs := w.descs[this := Measured(p, old(Record()), durations, now)])
      ensures lastUpdated == now && min == PidMin(p, old(Record()), durations)
    {
      hide BatchTerms, Output;
      lastUpdated := now;
      var output, integral', previous' := ConvertWorkDurationToBoost(p.pid, durationNs, durations, integral, previous);
      integral, previous := integral', previous';
      manager.OneRecordChanged(this);
      min := Min(p.uclampHigh, currentMin + output);
      min := Max(p.uclampLow, min);
    }

    method Rearm(p: Profile, boostAt: int, now: int)
      requires this in manager.known && lastUpdated == now
      modifies this`staleTime, this`boostTime
      ensures var w := old(manager.Snapshot());
        manager.Snapshot() == w.(descs := w.descs[this := Rearmed(p, old(Record()), boostAt, now)])
    {
      hide StaleSpan;
      staleTime := lastUpdated + StaleSpan(p, durationNs);
      if p.earlyBoostOn {
        boostTime := boostAt;
      }
      manager.OneRecordChanged(this);
    }

    method HandleStaleMessage(p: Profile, now: int)
      requires this in manager.known && Inv(p, manager.Snapshot())
      modifies manager`log
      ensures manager.Snapshot() == Next(p, old(manager.Snapshot()), StaleMessage(this, now))
    {
      hide Inv, SetUclamp;
      ListsKnownOf(p, manager.Snapshot());
      if !staleDead && staleTime - now <= 0 {
        manager.SetUclampMin(p, this, 0, now);
      }
    }

    method HandleBoostMessage(p: Profile, now: int)
      requires this in manager.known && Inv(p, manager.Snapshot())
      modifies manager`log
      ensures manager.Snapshot() == Next(p, old(manager.Snapshot()), BoostMessage(this, now))
    {
      hide Inv, SetUclamp;
      ListsKnownOf(p, manager.Snapshot());
      if !boostDead && boostTime - now <= 0 {
        manager.SetUclampMin(p, this, p.uclampHigh, now);
      }
    }

    /** wakeup. */
    method WakeUp(p: Profile, now: int)
      requires this in manager.known && ListsKnown(manager.Snapshot())
      modifies this`currentMin, this`staleTime, manager`log
      ensures manager.Snapshot() == WakeOne(p, old(manager.Snapshot()), this, now)
    {
      hide StaleSpan, SetUclamp;
      if closed || !isActive || !IsTimeout(p, now) {
        return;
      }
      var min := Max(currentMin, p.uclampInit);
      currentMin := min;
      staleTime := now + StaleSpan(p, durationNs);
      manager.OneRecordChanged(this);
      manager.SetUclampMin(p, this, min, now);
    }
  }
}
