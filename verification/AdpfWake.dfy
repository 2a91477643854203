/**
 Waking the sessions, and what it leaves on a thread. A woken session stays stale until its next
 report, so it does not count for the others: when several of them share a thread, the one that
 the unordered set yields last decides.
 */
module AdpfWake {
  import opened AdpfPid
  import opened AdpfSessions
  import opened AdpfRuns

  //// Waking

  predicate Wakes(p: Profile, d: Desc, now: int) {
    !d.closed && d.isActive && Stale(p, d, now)
  }

  /** What waking one session leaves on a thread that it lists. */
  ghost function WakeValue<S>(p: Profile, w: World<S>, s: S, t: int, now: int): (v: int)
    requires ListsKnown(w) && s in w.descs
  {
    ListValue(p, w, t, Max(w.descs[s].currentMin, p.uclampInit), now)
  }

  /** The last session of an order that is woken and lists the thread. */
  function LastWaker<S>(p: Profile, w: World<S>, order: seq<S>, t: int, now: int): (r: Maybe<S>)
    requires forall s :: s in order ==> s in w.descs
    ensures r.Just? ==> r.value in order && Wakes(p, w.descs[r.value], now) && t in w.descs[r.value].tids
    decreases |order|
  {
    if order == [] then Nothing
    else
      var s := order[|order| - 1];
      if Wakes(p, w.descs[s], now) && t in w.descs[s].tids then Just(s)
      else LastWaker(p, w, order[..|order| - 1], t, now)
  }

  /** Two records that are equally live and, if live, ask for the same. */
  predicate SameLive(p: Profile, a: Desc, b: Desc, now: int) {
    && a.tids == b.tids
    && (Live(p, a, now) <==> Live(p, b, now))
    && (Live(p, a, now) ==> a.currentMin == b.currentMin)
  }

  lemma {:induction false} WakeAllSameLive<S>(p: Profile, w: World<S>, order: seq<S>, now: int, x: S)
    requires ListsKnown(w) && x in w.descs && forall s :: s in order ==> s in w.descs
    ensures var u := WakeAll(p, w, order, now);
      && u.index == w.index && SameLive(p, u.descs[x], w.descs[x], now)
      && (x !in order ==> u.descs[x] == w.descs[x])
    decreases |order|
  {
    if order != [] {
      hide Applications;
      var init := order[..|order| - 1];
      assert order == init + [order[|order| - 1]];
      WakeAllSameLive(p, w, init, now, x);
    }
  }

  lemma LiveMaxSame<S>(p: Profile, a: map<S, Desc>, b: map<S, Desc>, ss: set<S>, now: int)
    requires ss <= a.Keys && ss <= b.Keys && forall s :: s in ss ==> SameLive(p, a[s], b[s], now)
    ensures LiveMax(p, a, ss, now) == LiveMax(p, b, ss, now)
  {
    hide LiveMax, Live;
    LiveMaxUnique(p, b, ss, now, LiveMax(p, a, ss, now));
  }

  /** Waking does not change what any thread would be given. */
  lemma WakeKeepsListValue<S>(p: Profile, w: World<S>, order: seq<S>, now: int, t: int, val: int)
    requires ListsKnown(w) && forall s :: s in order ==> s in w.descs
    ensures ListValue(p, WakeAll(p, w, order, now), t, val, now) == ListValue(p, w, t, val, now)
  {
    hide LiveMax, SameLive, WakeAll;
    var u, ss := WakeAll(p, w, order, now), ListOf(w.index, t);
    forall s | s in w.descs ensures u.index == w.index && SameLive(p, u.descs[s], w.descs[s], now) {
      WakeAllSameLive(p, w, order, now, s);
    }
    if ss == {} {
      WakeKeepsIndex(p, w, order, now);
      LiveMaxSame(p, u.descs, w.descs, ss, now);
    } else {
      var s :| s in ss;
      assert s in w.descs;
      LiveMaxSame(p, u.descs, w.descs, ss, now);
    }
  }

  /** Waking one more session, whose record is still the one it had at the start. */
  lemma WakeOneLast<S>(p: Profile, w: World<S>, init: seq<S>, s: S, now: int, t: int)
    requires ListsKnown(w) && (forall x :: x in init ==> x in w.descs) && s in w.descs && s !in init
    ensures LastOn(WakeOne(p, WakeAll(p, w, init, now), s, now).log, t)
      == if Wakes(p, w.descs[s], now) && t in w.descs[s].tids then Just(WakeValue(p, w, s, t, now))
         else LastOn(WakeAll(p, w, init, now).log, t)
  {
    hide LastOn, Applications, ListValue, StaleSpan, Stale, WakeAll, SameLive;
    var u := WakeAll(p, w, init, now);
    WakeAllSameLive(p, w, init, now, s);
    var d := w.descs[s];
    if Wakes(p, d, now) {
      var min := Max(d.currentMin, p.uclampInit);
      var d' := d.(currentMin := min, staleTime := now + StaleSpan(p, d.durationNs));
      var v := Update(u, s, d');
      ApplicationsLast(p, v, s, d.tids, min, now, u.log, t);
      WakeKeepsListValue(p, w, init, now, t, min);
      RecordKeepsListValue(p, u, s, d', now, t, min);
    }
  }

  /** The new record of a woken session is as stale as the old one. */
  lemma RecordKeepsListValue<S>(p: Profile, u: World<S>, s: S, d: Desc, now: int, t: int, val: int)
    requires ListsKnown(u) && s in u.descs && Wakes(p, u.descs[s], now)
    requires d == u.descs[s].(currentMin := d.currentMin, staleTime := d.staleTime)
    ensures ListsKnown(Update(u, s, d)) && ListValue(p, Update(u, s, d), t, val, now) == ListValue(p, u, t, val, now)
  {
    hide LiveMax;
    LiveMaxSame(p, u.descs[s := d], u.descs, ListOf(u.index, t), now);
  }

  /** After wakeSessions a thread carries what its last waker left. */
  lemma {:induction false} WakeLast<S>(p: Profile, w: World<S>, order: seq<S>, now: int, t: int)
    requires ListsKnown(w) && Distinct(order) && forall s :: s in order ==> s in w.descs
    ensures var r := LastWaker(p, w, order, t, now);
      LastOn(WakeAll(p, w, order, now).log, t)
      == if r.Just? then Just(WakeValue(p, w, r.value, t, now)) else LastOn(w.log, t)
    decreases |order|
  {
    hide LastOn, WakeOne, WakeValue, Wakes;
    if order != [] {
      var init, s := order[..|order| - 1], order[|order| - 1];
      assert s !in init;
      WakeLast(p, w, init, now, t);
      WakeOneLast(p, w, init, s, now, t);
    }
  }

  /** An order of a set with a given member at its end. */
  lemma {:induction false} OrderEndingIn<S>(ss: set<S>, s: S) returns (order: seq<S>)
    requires s in ss
    ensures Lists(order, ss) && order[|order| - 1] == s
    decreases |ss|
  {
    if ss == {s} {
      order := [s];
    } else {
      var x :| x in ss && x != s;
      assert ss - {s} != {} by { assert x in ss - {s}; }
      var init := OrderEndingIn(ss - {s}, x);
      order := init + [s];
      assert forall y :: y in order <==> y in ss - {s} || y == s;
    }
  }

  /** The wakers of a thread all leave one value. */
  ghost predicate WakersAgree<S>(p: Profile, w: World<S>, t: int, now: int)
    requires ListsKnown(w) && w.registered <= w.descs.Keys
  {
    forall x, y :: x in Wakers(p, w, t, now) && y in Wakers(p, w, t, now) ==>
      WakeValue(p, w, x, t, now) == WakeValue(p, w, y, t, now)
  }

  function Wakers<S>(p: Profile, w: World<S>, t: int, now: int): (r: set<S>)
    requires w.registered <= w.descs.Keys
  {
    set s | s in w.registered && Wakes(p, w.descs[s], now) && t in w.descs[s].tids
  }

  ghost predicate OrderIrrelevant<S(!new)>(p: Profile, w: World<S>, t: int, now: int)
    requires ListsKnown(w) && w.registered <= w.descs.Keys
  {
    forall a: seq<S>, b: seq<S> :: Lists(a, w.registered) && Lists(b, w.registered) ==>
      LastOn(WakeAll(p, w, a, now).log, t) == LastOn(WakeAll(p, w, b, now).log, t)
  }

  lemma {:induction false} LastWakerIff<S>(p: Profile, w: World<S>, order: seq<S>, t: int, now: int)
    requires w.registered <= w.descs.Keys && Lists(order, w.registered)
    ensures LastWaker(p, w, order, t, now).Just? <==> Wakers(p, w, t, now) != {}
    ensures LastWaker(p, w, order, t, now).Just? ==> LastWaker(p, w, order, t, now).value in Wakers(p, w, t, now)
  {
    hide Wakes;
    LastWakerExists(p, w, order, t, now);
    assert forall s :: s in order <==> s in w.registered;
    var r := LastWaker(p, w, order, t, now);
    if r.Just? {
      assert r.value in Wakers(p, w, t, now);
    } else {
      assert forall s :: s in w.registered ==> s !in Wakers(p, w, t, now);
    }
  }

  lemma {:induction false} LastWakerExists<S>(p: Profile, w: World<S>, order: seq<S>, t: int, now: int)
    requires forall s :: s in order ==> s in w.descs
    ensures forall s :: s in order && Wakes(p, w.descs[s], now) && t in w.descs[s].tids ==> LastWaker(p, w, order, t, now).Just?
    decreases |order|
  {
    hide Wakes;
    if order != [] {
      var init := order[..|order| - 1];
      assert order == init + [order[|order| - 1]];
      LastWakerExists(p, w, init, t, now);
    }
  }

  /**
   What a thread carries after wakeSessions does not depend on the order of the set exactly when
   all the sessions that are woken and list the thread leave the same value on it.
   */
  lemma WakeOrderIrrelevantIff<S(!new)>(p: Profile, w: World<S>, t: int, now: int)
    requires ListsKnown(w) && w.registered <= w.descs.Keys
    ensures OrderIrrelevant(p, w, t, now) <==> WakersAgree(p, w, t, now)
  {
    hide LastOn, WakeAll, WakeValue, Wakes, LastWaker;
    if WakersAgree(p, w, t, now) {
      forall a: seq<S>, b: seq<S> | Lists(a, w.registered) && Lists(b, w.registered)
        ensures LastOn(WakeAll(p, w, a, now).log, t) == LastOn(WakeAll(p, w, b, now).log, t) {
        AgreeingWakers(p, w, a, b, t, now);
      }
    } else {
      var x, y :| x in Wakers(p, w, t, now) && y in Wakers(p, w, t, now) &&
        WakeValue(p, w, x, t, now) != WakeValue(p, w, y, t, now);
      var a := EndingInWaker(p, w, x, t, now);
      var b := EndingInWaker(p, w, y, t, now);
      assert LastOn(WakeAll(p, w, a, now).log, t) != LastOn(WakeAll(p, w, b, now).log, t);
    }
  }

  lemma AgreeingWakers<S>(p: Profile, w: World<S>, a: seq<S>, b: seq<S>, t: int, now: int)
    requires ListsKnown(w) && w.registered <= w.descs.Keys && WakersAgree(p, w, t, now)
    requires Lists(a, w.registered) && Lists(b, w.registered)
    ensures LastOn(WakeAll(p, w, a, now).log, t) == LastOn(WakeAll(p, w, b, now).log, t)
  {
    hide LastOn, WakeAll, WakeValue, Wakes, LastWaker;
    WakeLast(p, w, a, now, t);
    WakeLast(p, w, b, now, t);
    LastWakerIff(p, w, a, t, now);
    LastWakerIff(p, w, b, t, now);
  }

  lemma EndingInWaker<S>(p: Profile, w: World<S>, x: S, t: int, now: int) returns (order: seq<S>)
    requires ListsKnown(w) && w.registered <= w.descs.Keys && x in Wakers(p, w, t, now)
    ensures Lists(order, w.registered)
    ensures LastOn(WakeAll(p, w, order, now).log, t) == Just(WakeValue(p, w, x, t, now))
  {
    hide LastOn, WakeAll, WakeValue, Wakes;
    order := OrderEndingIn(w.registered, x);
    WakeLast(p, w, order, now, t);
  }

  //// A run where the order shows

  const FRAME := 10_000_000

  /** A P gain of one, no other gains, and an initial minimum of 0. */
  function ExampleProfile(): (p: Profile) {
    Profile(0, 1024, 0, true, false, 1.0, 1.0, PidConfig(1, 1, 1, 0, 0, 1.0, 1.0, 0.0, 0.0, 0.0, d => 0))
  }

  /** A report of one frame, k times 100 us over its target, asks for k. */
  lemma ReportAsksFor(d: Desc, k: nat)
    requires d.durationNs == FRAME && d.currentMin == 0 && d.integral == 0 && k <= 1024
    ensures PidMin(ExampleProfile(), d, [FRAME + k * 100_000]) == k
  {
    var c, durations := ExampleProfile().pid, [FRAME + k * 100_000];
    var es := Errors(FRAME, durations);
    assert NsTo100us(k * 100_000) == k && NsTo100us(FRAME) == 100;
    assert es[0] == k && Sum(es, 0, 0) == 0 && Sum(es, 0, 1) == k;
    var t := BatchTerms(c, FRAME, durations, 0, d.previous);
    assert t.errSum == k && t.integral == 0;
    assert 1.0 * k as real / 1.0 == k as real;
    assert Output(c, FRAME, 1, t) == k;
  }

  function Created(s: int): (step: Step<int>) {
    Create(s, [7], false, FRAME, {}, 0)
  }

  function Reported(s: int, k: nat): (step: Step<int>) {
    Report(s, [FRAME + k * 100_000], 0, 0)
  }

  /** What the example needs to know of a session: its request, made at time 0. */
  predicate Asks(w: World<int>, s: int, k: int) {
    && s in w.descs && s in w.registered
    && var d := w.descs[s];
    && d.tids == [7] && d.durationNs == FRAME && d.currentMin == k && d.integral == 0
    && d.isActive && !d.closed && d.lastUpdated == 0
  }

  lemma CreatedAsks(w: World<int>, s: int)
    requires Inv(ExampleProfile(), w) && s !in w.descs
    ensures var r := Next(ExampleProfile(), w, Created(s));
      && Asks(r, s, 0) && r.registered == w.registered + {s}
      && forall x, k :: Asks(w, x, k) ==> Asks(r, x, k)
  {
    hide Inv, Applications, AddTids;
    CreateKeepsInv(ExampleProfile(), w, Created(s));
  }

  lemma ReportedAsks(w: World<int>, s: int, k: nat)
    requires Inv(ExampleProfile(), w) && Asks(w, s, 0) && k <= 1024
    ensures var r := Next(ExampleProfile(), w, Reported(s, k));
      && Asks(r, s, k) && r.registered == w.registered
      && forall x, j :: x != s && Asks(w, x, j) ==> Asks(r, x, j)
  {
    hide Inv, Applications, PidMin, BatchTerms, StaleSpan;
    var p, d := ExampleProfile(), w.descs[s];
    ListsKnownOf(p, w);
    ReportAsksFor(d, k);
    IntegralStays(d, [FRAME + k * 100_000]);
  }

  lemma IntegralStays(d: Desc, durations: seq<int>)
    requires d.integral == 0 && durations != []
    ensures BatchTerms(ExampleProfile().pid, d.durationNs, durations, d.integral, d.previous).integral == 0
  {
    hide Errors, NsTo100us;
    var c, es := ExampleProfile().pid, Errors(d.durationNs, durations);
    IntegralBounded(c, NsTo100us(d.durationNs), 0, es, WindowStart(c.windowI, |durations|), |durations|);
  }

  /** Two sessions on thread 7 that have asked for 100 and 200. */
  function ExampleSteps(): (steps: seq<Step<int>>) {
    [Created(1), Created(2), Reported(1, 100), Reported(2, 200)]
  }

  lemma ExampleRun() returns (trace: seq<World<int>>)
    ensures IsRun(ExampleProfile(), trace, ExampleSteps()) && |trace| == 5 && NoneRefused(trace, ExampleSteps(), 4)
    ensures Asks(trace[4], 1, 100) && Asks(trace[4], 2, 200) && trace[4].registered == {1, 2}
  {
    hide Inv, Next, Asks;
    var p, w0 := ExampleProfile(), Initial<int>();
    InitialInv<int>(p);
    var w1 := Next(p, w0, Created(1));
    CreatedAsks(w0, 1);
    assert 2 !in w1.descs by { CreatedKeys(w0, 1); }
    var w2 := Next(p, w1, Created(2));
    CreatedAsks(w1, 2);
    AsksIsKnown(w2, 1, 0);
    var w3 := Next(p, w2, Reported(1, 100));
    ReportedAsks(w2, 1, 100);
    AsksIsKnown(w3, 2, 0);
    var w4 := Next(p, w3, Reported(2, 200));
    ReportedAsks(w3, 2, 200);
    trace := [w0, w1, w2, w3, w4];
    assert {} + {1} + {2} == {1, 2};
  }

  lemma CreatedKeys(w: World<int>, s: int)
    requires Inv(ExampleProfile(), w) && s !in w.descs
    ensures Next(ExampleProfile(), w, Created(s)).descs.Keys == w.descs.Keys + {s}
  {
    hide Inv, Applications, AddTids;
    CreateKeepsInv(ExampleProfile(), w, Created(s));
  }

  lemma AsksIsKnown(w: World<int>, s: int, k: int)
    requires Asks(w, s, k)
    ensures s in w.descs
  {
  }

  /**
   The order decides. After the run in which 100 and 200 were asked for on thread 7, and once both
   sessions are stale, waking them leaves 200 on the thread in one order and 100 in the other.
   */
  lemma SmallerRequestWins() returns (trace: seq<World<int>>)
    ensures IsRun(ExampleProfile(), trace, ExampleSteps()) && |trace| == 5
    ensures Inv(ExampleProfile(), trace[4]) && ListsKnown(trace[4])
    ensures Enabled(trace[4], WakeUp([1, 2], FRAME)) && Enabled(trace[4], WakeUp([2, 1], FRAME))
    ensures LastOn(Next(ExampleProfile(), trace[4], WakeUp([1, 2], FRAME)).log, 7) == Just(200)
    ensures LastOn(Next(ExampleProfile(), trace[4], WakeUp([2, 1], FRAME)).log, 7) == Just(100)
  {
    hide Inv, IsRun, Next, Asks, Enabled, NoneRefused, LastOn;
    trace := ExampleRun();
    RunKeepsInv(ExampleProfile(), trace, ExampleSteps(), 4);
    SessionIndexExact(ExampleProfile(), trace, ExampleSteps(), 4, 7);
    ListsKnownOf(ExampleProfile(), trace[4]);
    ExampleValues(trace[4]);
    WakeLeaves(trace[4], 1, 2);
    WakeLeaves(trace[4], 2, 1);
  }

  /** The second of the two sessions woken has the last word. */
  lemma WakeLeaves(w: World<int>, a: int, b: int)
    requires Inv(ExampleProfile(), w) && ListsKnown(w) && w.registered == {a, b} <= w.descs.Keys && a != b
    requires Wakes(ExampleProfile(), w.descs[b], FRAME) && w.descs[b].tids == [7]
    ensures Enabled(w, WakeUp([a, b], FRAME))
    ensures LastOn(Next(ExampleProfile(), w, WakeUp([a, b], FRAME)).log, 7)
      == Just(WakeValue(ExampleProfile(), w, b, 7, FRAME))
  {
    hide Inv, LastOn, WakeAll, WakeValue, Wakes;
    assert (set s | s in [a, b]) == {a, b};
    WakeLast(ExampleProfile(), w, [a, b], FRAME, 7);
  }

  lemma ExampleValues(w: World<int>)
    requires ListsKnown(w) && Asks(w, 1, 100) && Asks(w, 2, 200) && w.registered == {1, 2} <= w.descs.Keys
    requires ListOf(w.index, 7) == Scan(w.descs, w.registered, 7)
    ensures var p := ExampleProfile();
      && Wakes(p, w.descs[1], FRAME) && Wakes(p, w.descs[2], FRAME)
      && w.descs[1].tids == [7] == w.descs[2].tids
      && WakeValue(p, w, 1, 7, FRAME) == 100 && WakeValue(p, w, 2, 7, FRAME) == 200
  {
    var p := ExampleProfile();
    assert StaleSpan(p, FRAME) == FRAME;
    LiveMaxUnique(p, w.descs, ListOf(w.index, 7), FRAME, 0);
  }
}
