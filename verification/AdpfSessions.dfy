/**
 ADPF sessions and their manager. A session lists threads and asks for a uclamp minimum; the
 manager keeps, per thread, the sessions that list it and how often, and applies to each thread
 the largest minimum that a live session asks for.

 The system is a state machine whose steps are the API calls and the looper messages. `S` stands
 for the identity of a session, an address in the source.
 */
module AdpfSessions {
  import opened CArithmetic
  import opened AdpfPid

  //// State

  /** The ADPF profile, fixed here, as the sessions use it. */
  datatype Profile = Profile(
    uclampInit: nat, uclampHigh: nat, uclampLow: nat,
    pidOn: bool, earlyBoostOn: bool,
    staleFactor: real, targetFactor: real,
    pid: PidConfig)

  predicate ProfileOk(p: Profile) {
    p.uclampLow <= p.uclampHigh && p.pid.iLow <= 0 <= p.pid.iHigh
  }

  datatype Desc = Desc(
    tids: seq<int>, isApp: bool, durationNs: int,
    currentMin: int, isActive: bool,
    integral: int, previous: int,
    lastUpdated: int, closed: bool,
    staleTime: int, staleDead: bool,
    boostTime: int, boostDead: bool)

  datatype Event<S> =
    | Applied(session: S, tid: int, value: int)
    | Removed(who: S)
    | TopAppBoost(disabled: bool)

  /** The per-thread tables; `errors` counts the passes through the source's error branches. */
  datatype Index<S> = Index(refCount: map<int, int>, lists: map<int, set<S>>, errors: nat)

  datatype World<S> = World(
    registered: set<S>, index: Index<S>, descs: map<S, Desc>, mActive: bool, log: seq<Event<S>>)

  function Initial<S>(): (w: World<S>) {
    World({}, Index(map[], map[], 0), map[], false, [])
  }

  function StaleSpan(p: Profile, durationNs: int): (ns: int) {
    Trunc(Scaled(p.staleFactor, durationNs))
  }

  /** isTimeout. */
  predicate Stale(p: Profile, d: Desc, now: int) {
    now >= d.lastUpdated + StaleSpan(p, d.durationNs)
  }

  predicate Live(p: Profile, d: Desc, now: int) {
    d.isActive && !Stale(p, d, now)
  }

  //// The index

  function ListOf<S>(ix: Index<S>, t: int): (r: set<S>) {
    if t in ix.lists then ix.lists[t] else {}
  }

  /** One turn of addPowerSession; `failing` are the threads whose task profile cannot be set. */
  function AddTid<S>(ix: Index<S>, s: S, t: int, failing: set<int>): (r: Index<S>) {
    var lists := ix.lists[t := ListOf(ix, t) + {s}];
    if t !in ix.refCount then
      ix.(lists := lists, refCount := if t in failing then ix.refCount else ix.refCount[t := 1])
    else if ix.refCount[t] <= 0 then ix.(lists := lists, errors := ix.errors + 1)
    else ix.(lists := lists, refCount := ix.refCount[t := ix.refCount[t] + 1])
  }

  function AddTids<S>(ix: Index<S>, s: S, tids: seq<int>, failing: set<int>): (r: Index<S>) {
    if tids == [] then ix
    else AddTid(AddTids(ix, s, tids[..|tids| - 1], failing), s, tids[|tids| - 1], failing)
  }

  /** One turn of removePowerSession. */
  function RemoveTid<S>(ix: Index<S>, s: S, t: int): (r: Index<S>) {
    if t !in ix.refCount then ix.(errors := ix.errors + 1)
    else ix.(
      lists := ix.lists[t := ListOf(ix, t) - {s}],
      refCount := if ix.refCount[t] - 1 <= 0 then ix.refCount - {t} else ix.refCount[t := ix.refCount[t] - 1])
  }

  function RemoveTids<S>(ix: Index<S>, s: S, tids: seq<int>): (r: Index<S>) {
    if tids == [] then ix
    else RemoveTid(RemoveTids(ix, s, tids[..|tids| - 1]), s, tids[|tids| - 1])
  }

  /** How often a thread id occurs in a list. */
  function Count(tids: seq<int>, t: int): (n: nat) {
    if tids == [] then 0
    else Count(tids[..|tids| - 1], t) + if tids[|tids| - 1] == t then 1 else 0
  }

  lemma {:induction false} CountIsMembership(tids: seq<int>, t: int)
    ensures Count(tids, t) > 0 <==> t in tids
  {
    if tids != [] {
      var init := tids[..|tids| - 1];
      CountIsMembership(init, t);
      assert tids == init + [tids[|tids| - 1]];
    }
  }

  /** How often a thread id occurs over a set of sessions. */
  ghost function Total<S>(descs: map<S, Desc>, ss: set<S>, t: int): (n: nat)
    requires ss <= descs.Keys
  {
    if ss == {} then 0
    else
      var s :| s in ss;
      Count(descs[s].tids, t) + Total(descs, ss - {s}, t)
  }

  /** The total does not depend on the order of summation. */
  lemma {:induction false} TotalSplit<S>(descs: map<S, Desc>, ss: set<S>, s: S, t: int)
    requires ss <= descs.Keys && s in ss
    ensures Total(descs, ss, t) == Count(descs[s].tids, t) + Total(descs, ss - {s}, t)
    decreases |ss|
  {
    var x :| x in ss && Total(descs, ss, t) == Count(descs[x].tids, t) + Total(descs, ss - {x}, t);
    if x != s {
      TotalSplit(descs, ss - {x}, s, t);
      TotalSplit(descs, ss - {s}, x, t);
      assert ss - {x} - {s} == ss - {s} - {x};
    }
  }

  lemma {:induction false} TotalSame<S>(a: map<S, Desc>, b: map<S, Desc>, ss: set<S>, t: int)
    requires ss <= a.Keys && ss <= b.Keys && forall s :: s in ss ==> a[s].tids == b[s].tids
    ensures Total(a, ss, t) == Total(b, ss, t)
    decreases |ss|
  {
    if ss != {} {
      var s :| s in ss;
      TotalSplit(a, ss, s, t);
      TotalSplit(b, ss, s, t);
      TotalSame(a, b, ss - {s}, t);
    }
  }

  lemma {:induction false} TotalPositive<S>(descs: map<S, Desc>, ss: set<S>, t: int)
    requires ss <= descs.Keys
    ensures Total(descs, ss, t) > 0 <==> exists s :: s in ss && t in descs[s].tids
    decreases |ss|
  {
    if ss != {} {
      var s :| s in ss;
      TotalSplit(descs, ss, s, t);
      TotalPositive(descs, ss - {s}, t);
      CountIsMembership(descs[s].tids, t);
    }
  }

  /** The registered sessions that list a thread, found by looking at all of them. */
  function Scan<S>(descs: map<S, Desc>, ss: set<S>, t: int): (r: set<S>)
    requires ss <= descs.Keys
  {
    set s | s in ss && t in descs[s].tids
  }

  /** What the index must say about one thread. */
  ghost predicate IndexedAt<S>(ix: Index<S>, descs: map<S, Desc>, ss: set<S>, t: int)
    requires ss <= descs.Keys
  {
    && ListOf(ix, t) == Scan(descs, ss, t)
    && (t in ix.refCount <==> Total(descs, ss, t) > 0)
    && (t in ix.refCount ==> ix.refCount[t] == Total(descs, ss, t))
  }

  ghost predicate Indexed<S>(ix: Index<S>, descs: map<S, Desc>, ss: set<S>) {
    && ss <= descs.Keys && ix.errors == 0
    && forall t: int :: IndexedAt(ix, descs, ss, t)
  }

  function RefOf<S>(ix: Index<S>, t: int): (n: int) {
    if t in ix.refCount then ix.refCount[t] else 0
  }

  predicate Positive<S>(ix: Index<S>) {
    forall t :: t in ix.refCount ==> ix.refCount[t] > 0
  }

  /** Registering a thread list adds its occurrences, and the session to each of its threads. */
  lemma {:induction false} AddTidsAt<S>(ix: Index<S>, s: S, tids: seq<int>, failing: set<int>, t: int)
    requires Positive(ix) && ix.errors == 0
    requires forall x :: x in tids && x in failing ==> x in ix.refCount
    ensures var r := AddTids(ix, s, tids, failing);
      && Positive(r) && r.errors == 0
      && RefOf(r, t) == RefOf(ix, t) + Count(tids, t)
      && ListOf(r, t) == ListOf(ix, t) + (if t in tids then {s} else {})
      && (forall x :: x in ix.refCount ==> x in r.refCount)
    decreases |tids|
  {
    if tids != [] {
      var init, last := tids[..|tids| - 1], tids[|tids| - 1];
      assert tids == init + [last];
      AddTidsAt(ix, s, init, failing, t);
      AddTidsAt(ix, s, init, failing, last);
    }
  }

  /** Unregistering it takes them away again, and no error branch is taken. */
  lemma {:induction false} RemoveTidsAt<S>(ix: Index<S>, s: S, tids: seq<int>, t: int)
    requires Positive(ix) && ix.errors == 0
    requires forall x: int :: RefOf(ix, x) >= Count(tids, x)
    ensures var r := RemoveTids(ix, s, tids);
      && Positive(r) && r.errors == 0
      && RefOf(r, t) == RefOf(ix, t) - Count(tids, t)
      && ListOf(r, t) == ListOf(ix, t) - (if t in tids then {s} else {})
    decreases |tids|
  {
    if tids != [] {
      var init, last := tids[..|tids| - 1], tids[|tids| - 1];
      assert tids == init + [last];
      forall x: int ensures RefOf(ix, x) >= Count(init, x) {
        assert RefOf(ix, x) >= Count(tids, x);
      }
      RemoveTidsAt(ix, s, init, t);
      RemoveTidsAt(ix, s, init, last);
      assert RefOf(ix, last) >= Count(tids, last) == Count(init, last) + 1;
    }
  }

  lemma IndexedIsPositive<S>(ix: Index<S>, descs: map<S, Desc>, ss: set<S>)
    requires Indexed(ix, descs, ss)
    ensures Positive(ix)
    ensures forall t: int :: RefOf(ix, t) == Total(descs, ss, t)
  {
    forall t: int ensures RefOf(ix, t) == Total(descs, ss, t) && (t in ix.refCount ==> ix.refCount[t] > 0) {
      assert IndexedAt(ix, descs, ss, t);
    }
  }

  /** Creating a session, with every needed task profile set, keeps the index exact. */
  lemma AddKeepsIndexed<S>(ix: Index<S>, descs: map<S, Desc>, ss: set<S>, s: S, d: Desc, failing: set<int>)
    requires Indexed(ix, descs, ss) && s !in descs
    requires forall x :: x in d.tids && x in failing ==> x in ix.refCount
    ensures Indexed(AddTids(ix, s, d.tids, failing), descs[s := d], ss + {s})
  {
    hide Total, Count, AddTids;
    var r, descs', ss' := AddTids(ix, s, d.tids, failing), descs[s := d], ss + {s};
    IndexedIsPositive(ix, descs, ss);
    AddTidsAt(ix, s, d.tids, failing, 0);
    forall t: int ensures IndexedAt(r, descs', ss', t) {
      AddTidsAt(ix, s, d.tids, failing, t);
      assert IndexedAt(ix, descs, ss, t);
      assert ss' - {s} == ss;
      TotalSplit(descs', ss', s, t);
      TotalSame(descs, descs', ss, t);
      CountIsMembership(d.tids, t);
      assert Scan(descs', ss', t) == Scan(descs, ss, t) + if t in d.tids then {s} else {};
    }
  }

  lemma {:induction false} FailingStaysOut<S>(ix: Index<S>, s: S, tids: seq<int>, failing: set<int>, t: int)
    requires t in failing && t !in ix.refCount
    ensures t !in AddTids(ix, s, tids, failing).refCount
    decreases |tids|
  {
    if tids != [] {
      FailingStaysOut(ix, s, tids[..|tids| - 1], failing, t);
    }
  }

  /**
   The index stays exact exactly when no thread that is new to it refuses its task profile; one
   such thread is listed without ever being counted.
   */
  lemma AddIndexedIff<S>(ix: Index<S>, descs: map<S, Desc>, ss: set<S>, s: S, d: Desc, failing: set<int>)
    requires Indexed(ix, descs, ss) && s !in descs
    ensures Indexed(AddTids(ix, s, d.tids, failing), descs[s := d], ss + {s})
      <==> forall x :: x in d.tids && x in failing ==> x in ix.refCount
  {
    hide Total, Count, AddTids;
    var r, descs', ss' := AddTids(ix, s, d.tids, failing), descs[s := d], ss + {s};
    if x :| x in d.tids && x in failing && x !in ix.refCount {
      FailingStaysOut(ix, s, d.tids, failing, x);
      TotalPositive(descs', ss', x);
      assert s in ss' && x in descs'[s].tids;
      assert !IndexedAt(r, descs', ss', x);
    } else {
      AddKeepsIndexed(ix, descs, ss, s, d, failing);
    }
  }

  /** Closing a session keeps it exact too. */
  lemma RemoveKeepsIndexed<S>(ix: Index<S>, descs: map<S, Desc>, ss: set<S>, s: S)
    requires Indexed(ix, descs, ss) && s in ss
    ensures Indexed(RemoveTids(ix, s, descs[s].tids), descs, ss - {s})
  {
    hide Total, Count, RemoveTids;
    var tids := descs[s].tids;
    var r := RemoveTids(ix, s, tids);
    IndexedIsPositive(ix, descs, ss);
    forall t: int ensures RefOf(ix, t) >= Count(tids, t) {
      TotalSplit(descs, ss, s, t);
    }
    RemoveTidsAt(ix, s, tids, 0);
    forall t: int ensures IndexedAt(r, descs, ss - {s}, t) {
      RemoveTidsAt(ix, s, tids, t);
      assert IndexedAt(ix, descs, ss, t);
      TotalSplit(descs, ss, s, t);
      assert Scan(descs, ss - {s}, t) == Scan(descs, ss, t) - if t in tids then {s} else {};
    }
  }

  /** Nothing else about a session matters to the index. */
  lemma UpdateKeepsIndexed<S>(ix: Index<S>, descs: map<S, Desc>, ss: set<S>, s: S, d: Desc)
    requires Indexed(ix, descs, ss) && s in descs && d.tids == descs[s].tids
    ensures Indexed(ix, descs[s := d], ss)
  {
    hide Total;
    var descs' := descs[s := d];
    forall t: int ensures IndexedAt(ix, descs', ss, t) {
      assert IndexedAt(ix, descs, ss, t);
      TotalSame(descs, descs', ss, t);
      assert Scan(descs', ss, t) == Scan(descs, ss, t);
    }
  }

  //// Aggregation

  /** Values the kernel takes: 0 to 1024. */
  function ClampUclamp(v: int): (r: int) {
    Min(Max(0, v), 1024)
  }

  /** The largest minimum among the live sessions of a set, or 0. */
  ghost function LiveMax<S>(p: Profile, descs: map<S, Desc>, ss: set<S>, now: int): (m: int)
    requires ss <= descs.Keys
    ensures m >= 0
    ensures forall s :: s in ss && Live(p, descs[s], now) ==> descs[s].currentMin <= m
    ensures m == 0 || exists s :: s in ss && Live(p, descs[s], now) && descs[s].currentMin == m
  {
    if ss == {} then 0
    else
      var s :| s in ss;
      var rest := LiveMax(p, descs, ss - {s}, now);
      if Live(p, descs[s], now) then Max(rest, descs[s].currentMin) else rest
  }

  /** Those three facts determine it, so the order of the scan does not matter. */
  lemma LiveMaxUnique<S>(p: Profile, descs: map<S, Desc>, ss: set<S>, now: int, m: int)
    requires ss <= descs.Keys && m >= 0
    requires forall s :: s in ss && Live(p, descs[s], now) ==> descs[s].currentMin <= m
    requires m == 0 || exists s :: s in ss && Live(p, descs[s], now) && descs[s].currentMin == m
    ensures m == LiveMax(p, descs, ss, now)
  {
    hide LiveMax, Live;
    var k := LiveMax(p, descs, ss, now);
    assert k <= m && m <= k;
  }

  /** What a thread is given when a session asks for `val`, by the simple scan over all sessions. */
  ghost function ScanValue<S>(p: Profile, w: World<S>, t: int, val: int, now: int): (v: int)
    requires w.registered <= w.descs.Keys
  {
    ClampUclamp(Max(val, LiveMax(p, w.descs, Scan(w.descs, w.registered, t), now)))
  }

  /** The same through the per-thread list. */
  ghost function ListValue<S>(p: Profile, w: World<S>, t: int, val: int, now: int): (v: int)
    requires ListOf(w.index, t) <= w.descs.Keys
  {
    ClampUclamp(Max(val, LiveMax(p, w.descs, ListOf(w.index, t), now)))
  }

  ghost predicate ListsKnown<S>(w: World<S>) {
    forall t: int :: ListOf(w.index, t) <= w.descs.Keys
  }

  lemma IndexedListsKnown<S>(w: World<S>)
    requires Indexed(w.index, w.descs, w.registered)
    ensures ListsKnown(w)
  {
    forall t: int ensures ListOf(w.index, t) <= w.descs.Keys {
      assert IndexedAt(w.index, w.descs, w.registered, t);
    }
  }

  /** The fast aggregation refines the simple scan. */
  lemma FastIsScan<S>(p: Profile, w: World<S>, t: int, val: int, now: int)
    requires Indexed(w.index, w.descs, w.registered)
    ensures ListOf(w.index, t) <= w.descs.Keys
    ensures ListValue(p, w, t, val, now) == ScanValue(p, w, t, val, now)
  {
    assert IndexedAt(w.index, w.descs, w.registered, t);
  }

  /** setUclampMinLocked: one sched_setattr per listed thread. */
  ghost function Applications<S>(p: Profile, w: World<S>, s: S, tids: seq<int>, val: int, now: int): (es: seq<Event<S>>)
    requires ListsKnown(w)
    ensures |es| == |tids|
    ensures forall i :: 0 <= i < |es| ==> es[i] == Applied(s, tids[i], ListValue(p, w, tids[i], val, now))
  {
    seq(|tids|, i requires 0 <= i < |tids| => Applied(s, tids[i], ListValue(p, w, tids[i], val, now)))
  }

  datatype Maybe<T> = Nothing | Just(value: T)

  /** The value last applied to a thread. */
  function LastOn<S>(log: seq<Event<S>>, t: int): (v: Maybe<int>) {
    if log == [] then Nothing
    else match log[|log| - 1] {
      case Applied(_, x, v) => if x == t then Just(v) else LastOn(log[..|log| - 1], t)
      case _ => LastOn(log[..|log| - 1], t)
    }
  }

  /** After a session asks for `val`, each of its threads carries the value of the simple scan. */
  lemma {:induction false} ApplicationsLast<S>(p: Profile, w: World<S>, s: S, tids: seq<int>, val: int, now: int, log: seq<Event<S>>, t: int)
    requires ListsKnown(w)
    ensures LastOn(log + Applications(p, w, s, tids, val, now), t)
      == if t in tids then Just(ListValue(p, w, t, val, now)) else LastOn(log, t)
    decreases |tids|
  {
    hide ListValue;
    var es := Applications(p, w, s, tids, val, now);
    if tids == [] {
      assert log + es == log;
    } else {
      var init, last := tids[..|tids| - 1], tids[|tids| - 1];
      ApplicationsLast(p, w, s, init, val, now, log, t);
      assert tids == init + [last];
      assert (log + es)[..|log + es| - 1] == log + Applications(p, w, s, init, val, now);
    }
  }

  ghost function SetUclamp<S>(p: Profile, w: World<S>, s: S, val: int, now: int): (r: World<S>)
    requires ListsKnown(w) && s in w.descs
  {
    w.(log := w.log + Applications(p, w, s, w.descs[s].tids, val, now))
  }

  /**
   The aggregation, for every session and value: afterwards each listed thread carries the 0 to 1024
   clamp of the larger of the value and the maximum over all registered live sessions that list it,
   and no other thread has changed.
   */
  lemma SetUclampIsScan<S>(p: Profile, w: World<S>, s: S, val: int, now: int, t: int)
    requires Indexed(w.index, w.descs, w.registered) && s in w.descs
    ensures ListsKnown(w)
    ensures LastOn(SetUclamp(p, w, s, val, now).log, t)
      == if t in w.descs[s].tids then Just(ScanValue(p, w, t, val, now)) else LastOn(w.log, t)
  {
    hide Indexed, ListValue, ScanValue, LastOn;
    IndexedListsKnown(w);
    ApplicationsLast(p, w, s, w.descs[s].tids, val, now, w.log, t);
    FastIsScan(p, w, t, val, now);
  }

  //// The steps

  ghost function Update<S>(w: World<S>, s: S, d: Desc): (r: World<S>)
    requires s in w.descs
    ensures ListsKnown(w) ==> ListsKnown(r)
  {
    w.(descs := w.descs[s := d])
  }

  /** setSessionUclampMin: record the minimum, rearm the stale timer unless it is 0, and apply. */
  ghost function SetMin<S>(p: Profile, w: World<S>, s: S, min: int, now: int): (r: World<S>)
    requires ListsKnown(w) && s in w.descs
  {
    var d := w.descs[s];
    var d' := d.(currentMin := min, staleTime := if min != 0 then now + StaleSpan(p, d.durationNs) else d.staleTime);
    SetUclamp(p, Update(w, s, d'), s, min, now)
  }

  datatype Step<S> =
    | Create(s: S, tids: seq<int>, isApp: bool, durationNs: int, failing: set<int>, now: int)
    | Close(s: S, now: int)
    | Pause(s: S, now: int)
    | Resume(s: S, now: int)
    | UpdateTarget(s: S, targetNs: int)
    | Report(s: S, durations: seq<int>, boostAt: int, now: int)
    | StaleMessage(s: S, now: int)
    | BoostMessage(s: S, now: int)
    | WakeUp(order: seq<S>, now: int)
    | ManagerMessage(now: int)

  datatype Status = StatusOk | IllegalState | IllegalArgument

  /** Construction: register, then the initial boost. */
  ghost function NextCreate<S>(p: Profile, w: World<S>, step: Step<S>): (r: World<S>)
    requires step.Create? && step.s !in w.descs
    requires ListsKnown(Registered(w, step))
  {
    SetMin(p, Registered(w, step), step.s, p.uclampInit, step.now)
  }

  function Registered<S>(w: World<S>, step: Step<S>): (r: World<S>)
    requires step.Create?
  {
    var d := Desc(step.tids, step.isApp, step.durationNs, 0, true, 0, 0, step.now, false, 0, false, 0, false);
    w.(registered := w.registered + {step.s},
       index := AddTids(w.index, step.s, step.tids, step.failing),
       descs := w.descs[step.s := d])
  }

  /** close, up to its call of setSessionUclampMin. */
  function Unregistered<S>(w: World<S>, s: S): (r: World<S>)
    requires s in w.descs
  {
    w.(registered := w.registered - {s},
       index := RemoveTids(w.index, s, w.descs[s].tids),
       descs := w.descs[s := w.descs[s].(closed := true)],
       log := w.log + [Removed(s)])
  }

  ghost function NextClose<S>(p: Profile, w: World<S>, s: S, now: int): (r: World<S>)
    requires s in w.descs && (!w.descs[s].closed ==> ListsKnown(Unregistered(w, s)))
  {
    if w.descs[s].closed then w
    else
      var w1 := SetMin(p, Unregistered(w, s), s, 0, now);
      Update(w1, s, w1.descs[s].(isActive := false, boostDead := true, staleDead := true))
  }

  function CloseStatus<S>(w: World<S>, s: S): (r: Status)
    requires s in w.descs
  {
    if w.descs[s].closed then IllegalState else StatusOk
  }

  ghost function NextPause<S>(p: Profile, w: World<S>, s: S, now: int): (r: World<S>)
    requires s in w.descs && ListsKnown(w)
  {
    var d := w.descs[s];
    if d.closed || !d.isActive then w
    else SetUclamp(p, Update(w, s, d.(isActive := false)), s, 0, now)
  }

  ghost function NextResume<S>(p: Profile, w: World<S>, s: S, now: int): (r: World<S>)
    requires s in w.descs && ListsKnown(w)
  {
    var d := w.descs[s];
    if d.closed || d.isActive then w
    else SetMin(p, Update(w, s, d.(isActive := true)), s, d.currentMin, now)
  }

  function ScaledTarget(p: Profile, targetNs: int): (ns: int) {
    Trunc(Scaled(p.targetFactor, targetNs))
  }

  function NextTarget<S>(p: Profile, w: World<S>, s: S, targetNs: int): (r: World<S>)
    requires s in w.descs
  {
    var d := w.descs[s];
    if d.closed || targetNs <= 0 then w
    else w.(descs := w.descs[s := d.(durationNs := ScaledTarget(p, targetNs))])
  }

  function ReportStatus(d: Desc, durations: seq<int>): (r: Status) {
    if d.closed then IllegalState
    else if d.durationNs == 0 then IllegalState
    else if durations == [] then IllegalArgument
    else if !d.isActive then IllegalState
    else StatusOk
  }

  /** The minimum that a PID report moves to. */
  function NextMin(p: Profile, current: int, output: int): (m: int) {
    Max(p.uclampLow, Min(p.uclampHigh, current + output))
  }

  /** The record after the PID has seen a batch. */
  function Measured(p: Profile, d: Desc, durations: seq<int>, now: int): (r: Desc)
    requires durations != []
  {
    var t := BatchTerms(p.pid, d.durationNs, durations, d.integral, d.previous);
    d.(lastUpdated := now, integral := t.integral, previous := t.previous)
  }

  /** The minimum that the PID asks for. */
  function PidMin(p: Profile, d: Desc, durations: seq<int>): (m: int)
    requires durations != []
  {
    var t := BatchTerms(p.pid, d.durationNs, durations, d.integral, d.previous);
    NextMin(p, d.currentMin, Output(p.pid, d.durationNs, |durations|, t))
  }

  /** The timers after a report. */
  function Rearmed(p: Profile, d: Desc, boostAt: int, now: int): (r: Desc) {
    d.(staleTime := now + StaleSpan(p, d.durationNs), boostTime := if p.earlyBoostOn then boostAt else d.boostTime)
  }

  ghost function NextReport<S>(p: Profile, w: World<S>, s: S, durations: seq<int>, boostAt: int, now: int): (r: World<S>)
    requires s in w.descs && ListsKnown(w)
  {
    var d := w.descs[s];
    if !ReportStatus(d, durations).StatusOk? then w
    else if !p.pidOn then SetMin(p, Update(w, s, d.(lastUpdated := now)), s, p.uclampHigh, now)
    else
      var w2 := SetMin(p, Update(w, s, Measured(p, d, durations, now)), s, PidMin(p, d, durations), now);
      Update(w2, s, Rearmed(p, w2.descs[s], boostAt, now))
  }

  ghost function NextStale<S>(p: Profile, w: World<S>, s: S, now: int): (r: World<S>)
    requires s in w.descs && ListsKnown(w)
  {
    var d := w.descs[s];
    if d.staleDead || d.staleTime > now then w else SetUclamp(p, w, s, 0, now)
  }

  ghost function NextBoost<S>(p: Profile, w: World<S>, s: S, now: int): (r: World<S>)
    requires s in w.descs && ListsKnown(w)
  {
    var d := w.descs[s];
    if d.boostDead || d.boostTime > now then w else SetUclamp(p, w, s, p.uclampHigh, now)
  }

  /** wakeup: only active, stale sessions. */
  ghost function WakeOne<S>(p: Profile, w: World<S>, s: S, now: int): (r: World<S>)
    requires s in w.descs && ListsKnown(w)
    ensures ListsKnown(r) && r.descs.Keys == w.descs.Keys
  {
    var d := w.descs[s];
    if d.closed || !d.isActive || !Stale(p, d, now) then w
    else
      var min := Max(d.currentMin, p.uclampInit);
      SetUclamp(p, Update(w, s, d.(currentMin := min, staleTime := now + StaleSpan(p, d.durationNs))), s, min, now)
  }

  /** wakeSessions, over the registered sessions in the order the set yields them. */
  ghost function WakeAll<S>(p: Profile, w: World<S>, order: seq<S>, now: int): (r: World<S>)
    requires ListsKnown(w) && forall s :: s in order ==> s in w.descs
    ensures ListsKnown(r) && r.descs.Keys == w.descs.Keys
    decreases |order|
  {
    if order == [] then w
    else WakeOne(p, WakeAll(p, w, order[..|order| - 1], now), order[|order| - 1], now)
  }

  /** isAnyAppSessionActive. */
  predicate AnyAppActive<S>(p: Profile, w: World<S>, now: int)
    requires w.registered <= w.descs.Keys
  {
    exists s :: s in w.registered && Live(p, w.descs[s], now) && w.descs[s].isApp
  }

  /** handleMessage: the top-app boost follows the sessions, and is told only of changes. */
  function NextManager<S>(p: Profile, w: World<S>, now: int): (r: World<S>)
    requires w.registered <= w.descs.Keys
  {
    var active := AnyAppActive(p, w, now);
    if active == w.mActive then w else w.(mActive := active, log := w.log + [TopAppBoost(active)])
  }
}
