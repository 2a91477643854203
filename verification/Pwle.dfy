/**
 Vibrator::composePwle: a compiler from piecewise-linear primitives to the segments of the haptic
 chip. A segment moves in a straight line from wherever the last one ended, so a primitive that
 starts elsewhere needs a jump of no duration first, which is left out when it would not move.

 Amplitudes and frequencies are reals, before they are printed.
 */
module Pwle {
  const SIZE_LIMIT := 82
  const DURATION_MAX_MS := 999
  const LEVEL_MAX := 0.99
  const FREQUENCY_MIN := 1.0
  const FREQUENCY_MAX := 999.0
  const MAP_SIZE := 999
  const QUEUE_LENGTH_MAX := 4094
  const COLD_START_MS := 6
  const QUEUE_INDEX := 65529
  const CLAB := 1
  const U32 := 0x1_0000_0000

  /** The highest level allowed at each whole frequency from 1 Hz. */
  type LimitMap = m: seq<real> | |m| == MAP_SIZE && forall i :: 0 <= i < |m| ==> m[i] >= 0.0
    witness seq(MAP_SIZE, i => 1.0)

  datatype Point = Point(level: real, freq: real)

  datatype Primitive =
    | Active(ms: int, start: Point, end: Point)
    | Braking(ms: int, kind: int)

  datatype Segment =
    | Ramp(index: int, ms: int, to: Point)
    | Brake(index: int, ms: int, kind: int, freq: real)

  //// What a primitive asks for

  predicate LevelOk(x: real) {
    0.0 <= x <= 1.0
  }

  predicate FrequencyOk(f: real) {
    FREQUENCY_MIN <= f <= FREQUENCY_MAX
  }

  predicate PrimitiveOk(e: Primitive) {
    match e
    case Active(ms, a, b) =>
      0 <= ms <= DURATION_MAX_MS && LevelOk(a.level) && LevelOk(b.level) && FrequencyOk(a.freq) && FrequencyOk(b.freq)
    case Braking(ms, kind) => ms <= DURATION_MAX_MS && kind <= CLAB
  }

  predicate AllOk(es: seq<Primitive>) {
    forall i :: 0 <= i < |es| ==> PrimitiveOk(es[i])
  }

  /** The limit at a frequency; every accepted frequency has one. */
  function Limit(limits: LimitMap, f: real): (x: real)
    requires FrequencyOk(f)
    ensures x >= 0.0
  {
    limits[(f - 1.0).Floor]
  }

  function MinReal(a: real, b: real): (r: real) {
    if a > b then b else a
  }

  function Clip(limits: LimitMap, p: Point): (r: Point)
    requires FrequencyOk(p.freq)
  {
    p.(level := MinReal(MinReal(p.level, LEVEL_MAX), Limit(limits, p.freq)))
  }

  //// Compilation

  /** Where a primitive leaves the output. */
  function After(limits: LimitMap, e: Primitive, prev: Point): (p: Point)
    requires PrimitiveOk(e)
  {
    match e
    case Active(_, _, b) => Clip(limits, b)
    case Braking(_, _) => Point(0.0, prev.freq)
  }

  /** The segments of one primitive; `always` emits the jump whether or not it moves. */
  function Emit(limits: LimitMap, e: Primitive, prev: Point, index: int, always: bool): (r: seq<Segment>)
    requires PrimitiveOk(e)
  {
    match e
    case Active(ms, a, b) =>
      var start, end := Clip(limits, a), Clip(limits, b);
      if always || start != prev then [Ramp(index, 0, start), Ramp(index + 1, ms, end)]
      else [Ramp(index, ms, end)]
    case Braking(ms, kind) => [Brake(index, ms, kind, prev.freq)]
  }

  function Compile(limits: LimitMap, es: seq<Primitive>, prev: Point, index: int, always: bool): (r: seq<Segment>)
    requires AllOk(es)
  {
    if es == [] then []
    else
      var first := Emit(limits, es[0], prev, index, always);
      first + Compile(limits, es[1..], After(limits, es[0], prev), index + |first|, always)
  }

  //// What segments and primitives denote

  /** The output at an instant. */
  datatype Output = Drive(at: Point) | Braked(kind: int, freq: real) | Silent

  function Between(a: real, b: real, t: real, ms: int): (r: real)
    requires ms > 0
  {
    a + (b - a) * t / ms as real
  }

  function Line(a: Point, b: Point, t: real, ms: int): (r: Point)
    requires ms > 0
  {
    Point(Between(a.level, b.level, t, ms), Between(a.freq, b.freq, t, ms))
  }

  /** The envelope that the chip plays for a list of segments, from a given output. */
  function Played(segs: seq<Segment>, prev: Point, t: real): (v: Output)
    requires t >= 0.0
  {
    if segs == [] then Silent
    else
      var s := segs[0];
      if t < s.ms as real then
        match s
        case Ramp(_, ms, to) => Drive(Line(prev, to, t, ms))
        case Brake(_, _, kind, freq) => Braked(kind, freq)
      else Played(segs[1..], SegmentEnd(s), Later(t, s.ms))
  }

  function SegmentEnd(s: Segment): (p: Point) {
    match s
    case Ramp(_, _, to) => to
    case Brake(_, _, _, freq) => Point(0.0, freq)
  }

  /** Time left after a segment; one of negative duration takes none. */
  function Later(t: real, ms: int): (r: real)
    requires t >= 0.0 && t >= ms as real
    ensures r >= 0.0
  {
    if ms < 0 then t else t - ms as real
  }

  /** The envelope that the primitives describe: each runs from its own start to its own end. */
  function Described(limits: LimitMap, es: seq<Primitive>, freq: real, t: real): (v: Output)
    requires AllOk(es) && t >= 0.0
  {
    if es == [] then Silent
    else
      var e := es[0];
      if t < e.ms as real then
        match e
        case Active(ms, a, b) => Drive(Line(Clip(limits, a), Clip(limits, b), t, ms))
        case Braking(_, kind) => Braked(kind, freq)
      else Described(limits, es[1..], if e.Active? then e.end.freq else freq, Later(t, e.ms))
  }

  /** Playing one primitive's segments, with the rest behind them. */
  lemma PlayedEmit(limits: LimitMap, e: Primitive, prev: Point, index: int, always: bool, rest: seq<Segment>, t: real)
    requires PrimitiveOk(e) && t >= 0.0
    ensures Played(Emit(limits, e, prev, index, always) + rest, prev, t)
      == if t < e.ms as real then Described(limits, [e], prev.freq, t)
         else Played(rest, After(limits, e, prev), Later(t, e.ms))
  {
    hide Line, Clip;
    var segs := Emit(limits, e, prev, index, always);
    if |segs| == 2 {
      assert segs + rest == [segs[0]] + ([segs[1]] + rest);
      assert (segs + rest)[1..] == [segs[1]] + rest;
      assert ([segs[1]] + rest)[1..] == rest;
    } else {
      assert (segs + rest)[1..] == rest;
    }
  }

  /**
   The compiled segments play exactly the envelope that the primitives describe, at every instant,
   with the redundant jumps left out or not.
   */
  lemma {:induction false} CompileIsFaithful(limits: LimitMap, es: seq<Primitive>, prev: Point, index: int, always: bool, t: real)
    requires AllOk(es) && t >= 0.0
    ensures Played(Compile(limits, es, prev, index, always), prev, t) == Described(limits, es, prev.freq, t)
    decreases |es|
  {
    if es != [] {
      hide Line, Clip, Emit, Played;
      var e, next := es[0], After(limits, es[0], prev);
      var first := Emit(limits, e, prev, index, always);
      var rest := Compile(limits, es[1..], next, index + |first|, always);
      PlayedEmit(limits, e, prev, index, always, rest, t);
      if t >= e.ms as real {
        CompileIsFaithful(limits, es[1..], next, index + |first|, always, Later(t, e.ms));
        ClipKeepsFrequency(limits, e);
      }
    }
  }

  lemma ClipKeepsFrequency(limits: LimitMap, e: Primitive)
    requires PrimitiveOk(e)
    ensures e.Active? ==> Clip(limits, e.end).freq == e.end.freq
  {
  }

  /** Leaving the jumps out does not change what is played. */
  lemma JumpsAreRedundant(limits: LimitMap, es: seq<Primitive>, prev: Point, t: real)
    requires AllOk(es) && t >= 0.0
    ensures Played(Compile(limits, es, prev, 0, false), prev, t) == Played(Compile(limits, es, prev, 0, true), prev, t)
  {
    hide Compile, Played, Described;
    CompileIsFaithful(limits, es, prev, 0, false, t);
    CompileIsFaithful(limits, es, prev, 0, true, t);
  }

  /** Every jump that is emitted before a primitive that lasts is needed. */
  lemma JumpIsNeeded(limits: LimitMap, e: Primitive, prev: Point, index: int)
    requires PrimitiveOk(e) && e.Active? && e.ms > 0
    ensures |Emit(limits, e, prev, index, false)| == 2 <==>
      Played([Ramp(index, e.ms, Clip(limits, e.end))], prev, 0.0) != Played(Emit(limits, e, prev, index, true), prev, 0.0)
  {
    hide Clip, Line;
    var start, end := Clip(limits, e.start), Clip(limits, e.end);
    var segs := Emit(limits, e, prev, index, true);
    assert segs[1..] == [Ramp(index + 1, e.ms, end)];
    LineStarts(prev, end, e.ms);
    LineStarts(start, end, e.ms);
  }

  lemma LineStarts(a: Point, b: Point, ms: int)
    requires ms > 0
    ensures Line(a, b, 0.0, ms) == a
  {
  }

  //// The shape of the compiled program

  /** Consecutive indices, no level above its limits, and no more than one jump per primitive. */
  predicate WellFormed(limits: LimitMap, segs: seq<Segment>, index: int) {
    forall k :: 0 <= k < |segs| ==> segs[k].index == index + k && (segs[k].Ramp? ==> Allowed(limits, segs[k].to))
  }

  predicate Allowed(limits: LimitMap, p: Point) {
    FrequencyOk(p.freq) && 0.0 <= p.level <= LEVEL_MAX && p.level <= Limit(limits, p.freq)
  }

  lemma EmitIsWellFormed(limits: LimitMap, e: Primitive, prev: Point, index: int, always: bool)
    requires PrimitiveOk(e)
    ensures WellFormed(limits, Emit(limits, e, prev, index, always), index)
    ensures 1 <= |Emit(limits, e, prev, index, always)| <= 2
  {
    hide Limit;
    if e.Active? {
      assert Allowed(limits, Clip(limits, e.start)) && Allowed(limits, Clip(limits, e.end));
    }
  }

  lemma {:induction false} CompileIsWellFormed(limits: LimitMap, es: seq<Primitive>, prev: Point, index: int, always: bool)
    requires AllOk(es)
    ensures WellFormed(limits, Compile(limits, es, prev, index, always), index)
    ensures |es| <= |Compile(limits, es, prev, index, always)| <= 2 * |es|
    decreases |es|
  {
    if es != [] {
      hide Emit, After, Allowed;
      var first := Emit(limits, es[0], prev, index, always);
      EmitIsWellFormed(limits, es[0], prev, index, always);
      CompileIsWellFormed(limits, es[1..], After(limits, es[0], prev), index + |first|, always);
    }
  }

  //// Levels against the table, by index

  /** Frequency f falls on entry k - 1 of the table. */
  predicate OnEntry(f: real, k: int) {
    k as real <= f < (k + 1) as real
  }

  lemma LimitIs(limits: LimitMap, f: real, k: int)
    requires FrequencyOk(f) && OnEntry(f, k)
    ensures 1 <= k <= 999 && Limit(limits, f) == limits[k - 1]
  {
    assert (f - 1.0).Floor == k - 1;
  }

  /** The point q is p with its level lowered, if at all, to 0.99 or to the table's entry for its frequency. */
  predicate Lowered(limits: LimitMap, p: Point, q: Point, k: int)
    requires 1 <= k <= |limits|
  {
    && q.freq == p.freq && q.level <= p.level && q.level <= 0.99 && q.level <= limits[k - 1]
    && (q.level == p.level || q.level == 0.99 || q.level == limits[k - 1])
  }

  lemma ClipLowers(limits: LimitMap, p: Point, k: int)
    requires FrequencyOk(p.freq) && OnEntry(p.freq, k)
    ensures 1 <= k <= 999 && Lowered(limits, p, Clip(limits, p), k)
  {
    hide Limit;
    LimitIs(limits, p.freq, k);
  }

  /** No emitted ramp goes above 0.99 or above the table's entry for its frequency. */
  lemma RampsWithinTable(limits: LimitMap, es: seq<Primitive>, prev: Point, index: int, always: bool, j: nat, k: int)
    requires AllOk(es)
    requires var segs := Compile(limits, es, prev, index, always); j < |segs| && segs[j].Ramp? && OnEntry(segs[j].to.freq, k)
    ensures var to := Compile(limits, es, prev, index, always)[j].to;
      1 <= k <= 999 && 0.0 <= to.level <= 0.99 && to.level <= limits[k - 1]
  {
    hide Compile, Limit;
    CompileIsWellFormed(limits, es, prev, index, always);
    var to := Compile(limits, es, prev, index, always)[j].to;
    assert Allowed(limits, to);
    LimitIs(limits, to.freq, k);
  }

  /** The segments of the i-th primitive, somewhere in the program. */
  lemma {:induction false} EmitInside(limits: LimitMap, es: seq<Primitive>, prev: Point, index: int, always: bool, i: nat)
    returns (at: nat, from: Point, n: int)
    requires AllOk(es) && i < |es|
    ensures var segs, own := Compile(limits, es, prev, index, always), Emit(limits, es[i], from, n, always);
      at + |own| <= |segs| && segs[at..at + |own|] == own
    decreases |es|
  {
    hide Emit, After;
    var first := Emit(limits, es[0], prev, index, always);
    if i == 0 {
      at, from, n := 0, prev, index;
      assert Compile(limits, es, prev, index, always)[..|first|] == first;
    } else {
      var k;
      k, from, n := EmitInside(limits, es[1..], After(limits, es[0], prev), index + |first|, always, i - 1);
      at := |first| + k;
    }
  }

  /**
   Every active primitive reaches its end point: its program holds a ramp of its duration to its end
   frequency, at its own level wherever that is within both limits, and at the lower of them where
   it is not.
   */
  lemma EndIsReached(limits: LimitMap, es: seq<Primitive>, prev: Point, index: int, i: nat, k: int) returns (j: nat)
    requires AllOk(es) && i < |es| && es[i].Active? && OnEntry(es[i].end.freq, k)
    ensures 1 <= k <= 999
    ensures var segs := Compile(limits, es, prev, index, false);
      j < |segs| && segs[j].Ramp? && segs[j].ms == es[i].ms && Lowered(limits, es[i].end, segs[j].to, k)
  {
    hide Compile, Limit, Clip, Lowered;
    assert PrimitiveOk(es[i]);
    ClipLowers(limits, es[i].end, k);
    var at, from, n := EmitInside(limits, es, prev, index, false, i);
    var own := Emit(limits, es[i], from, n, false);
    j := at + |own| - 1;
    assert Compile(limits, es, prev, index, false)[at..at + |own|][|own| - 1] == own[|own| - 1];
  }

  /** What is accepted, in numbers. */
  lemma AcceptanceIs(e: Primitive)
    ensures PrimitiveOk(e) <==>
      match e
      case Active(ms, a, b) =>
        && 0 <= ms <= 999 && 0.0 <= a.level <= 1.0 && 0.0 <= b.level <= 1.0
        && 1.0 <= a.freq <= 999.0 && 1.0 <= b.freq <= 999.0
      case Braking(ms, kind) => ms <= 999 && kind <= 1
  {
  }

  function Total(es: seq<Primitive>): (ms: int) {
    if es == [] then 0 else es[0].ms + Total(es[1..])
  }

  function SegmentTotal(segs: seq<Segment>): (ms: int) {
    if segs == [] then 0 else segs[0].ms + SegmentTotal(segs[1..])
  }

  lemma {:induction false} SegmentTotalConcat(a: seq<Segment>, b: seq<Segment>)
    ensures SegmentTotal(a + b) == SegmentTotal(a) + SegmentTotal(b)
  {
    if a == [] {
      assert a + b == b;
    } else {
      assert (a + b)[1..] == a[1..] + b;
      SegmentTotalConcat(a[1..], b);
    }
  }

  //// The time that the envelope takes

  function Lasting(ms: int): (n: nat) {
    if ms < 0 then 0 else ms
  }

  function PlayedTime(segs: seq<Segment>): (ms: nat) {
    if segs == [] then 0 else Lasting(segs[0].ms) + PlayedTime(segs[1..])
  }

  /** The output falls silent exactly when that time is over. */
  lemma {:induction false} SilentIff(segs: seq<Segment>, prev: Point, t: real)
    requires t >= 0.0
    ensures Played(segs, prev, t) == Silent <==> t >= PlayedTime(segs) as real
    decreases |segs|
  {
    hide Line;
    if segs != [] && t >= segs[0].ms as real {
      SilentIff(segs[1..], SegmentEnd(segs[0]), Later(t, segs[0].ms));
    }
  }

  lemma {:induction false} PlayedTimeConcat(a: seq<Segment>, b: seq<Segment>)
    ensures PlayedTime(a + b) == PlayedTime(a) + PlayedTime(b)
  {
    if a == [] {
      assert a + b == b;
    } else {
      assert (a + b)[1..] == a[1..] + b;
      PlayedTimeConcat(a[1..], b);
    }
  }

  /** What the negative durations take off the total. */
  function Overdrawn(es: seq<Primitive>): (ms: nat) {
    if es == [] then 0 else Lasting(-es[0].ms) + Overdrawn(es[1..])
  }

  /** The jump takes no time, so one primitive's segments take its own. */
  lemma EmitTakes(limits: LimitMap, e: Primitive, prev: Point, index: int, always: bool)
    requires PrimitiveOk(e)
    ensures var segs := Emit(limits, e, prev, index, always);
      SegmentTotal(segs) == e.ms && PlayedTime(segs) == Lasting(e.ms)
  {
    hide Clip;
    var segs := Emit(limits, e, prev, index, always);
    var last := segs[|segs| - 1];
    OneTakes(last);
    if |segs| == 2 {
      assert segs[1..] == [last];
    } else {
      assert segs == [last];
    }
  }

  lemma OneTakes(s: Segment)
    ensures SegmentTotal([s]) == s.ms && PlayedTime([s]) == Lasting(s.ms)
  {
    assert [s][1..] == [];
  }

  /** The durations add up to those of the primitives. */
  lemma {:induction false} DurationsConserved(limits: LimitMap, es: seq<Primitive>, prev: Point, index: int, always: bool)
    requires AllOk(es)
    ensures SegmentTotal(Compile(limits, es, prev, index, always)) == Total(es)
    decreases |es|
  {
    hide Emit, After, SegmentTotal, PrimitiveOk;
    if es == [] {
      assert SegmentTotal([]) == 0 by { NoTime(); }
    } else {
      var first, next := Emit(limits, es[0], prev, index, always), After(limits, es[0], prev);
      EmitTakes(limits, es[0], prev, index, always);
      DurationsConserved(limits, es[1..], next, index + |first|, always);
      SegmentTotalConcat(first, Compile(limits, es[1..], next, index + |first|, always));
    }
  }

  /** The time played is the total plus what the negative durations took off it. */
  lemma {:induction false} PlayedTimeOf(limits: LimitMap, es: seq<Primitive>, prev: Point, index: int)
    requires AllOk(es)
    ensures PlayedTime(Compile(limits, es, prev, index, false)) == Total(es) + Overdrawn(es)
    decreases |es|
  {
    hide Emit, After, PlayedTime, PrimitiveOk;
    if es == [] {
      assert PlayedTime([]) == 0 by { NoTime(); }
    } else {
      var first, next := Emit(limits, es[0], prev, index, false), After(limits, es[0], prev);
      EmitTakes(limits, es[0], prev, index, false);
      PlayedTimeOf(limits, es[1..], next, index + |first|);
      PlayedTimeConcat(first, Compile(limits, es[1..], next, index + |first|, false));
    }
  }

  lemma NoTime()
    ensures SegmentTotal([]) == 0 && PlayedTime([]) == 0
  {
  }

  lemma {:induction false} TimeBounded(es: seq<Primitive>)
    requires AllOk(es)
    ensures Total(es) + Overdrawn(es) <= DURATION_MAX_MS * |es|
  {
    if es != [] {
      assert PrimitiveOk(es[0]);
      TimeBounded(es[1..]);
    }
  }

  //// One more primitive, as the loop meets it

  function Reached(limits: LimitMap, es: seq<Primitive>, prev: Point): (p: Point)
    requires AllOk(es)
  {
    if es == [] then prev else Reached(limits, es[1..], After(limits, es[0], prev))
  }

  lemma {:induction false} CompileSnoc(limits: LimitMap, es: seq<Primitive>, e: Primitive, prev: Point, index: int)
    requires AllOk(es) && PrimitiveOk(e)
    ensures AllOk(es + [e]) && Reached(limits, es + [e], prev) == After(limits, e, Reached(limits, es, prev))
    ensures var segs := Compile(limits, es, prev, index, false);
      Compile(limits, es + [e], prev, index, false)
      == segs + Emit(limits, e, Reached(limits, es, prev), index + |segs|, false)
    ensures Total(es + [e]) == Total(es) + e.ms
    decreases |es|
  {
    hide After, Emit;
    if es == [] {
      assert es + [e] == [e] && [e][1..] == [];
      assert Compile(limits, [e], prev, index, false) == Emit(limits, e, prev, index, false) + [];
    } else {
      assert (es + [e])[1..] == es[1..] + [e];
      var first := Emit(limits, es[0], prev, index, false);
      CompileSnoc(limits, es[1..], e, After(limits, es[0], prev), index + |first|);
    }
  }

  //// The call

  datatype HwCall =
    | SetPwle(segs: seq<Segment>)
    | SetEffectScale(scale: int)
    | SetEffectIndex(index: int)
    | SetDuration(ms: int)
    | SetActivate(on: bool)

  datatype Status = StatusOk | Unsupported | IllegalArgument | IllegalState

  /** How long the printed program is. */
  type Printer = seq<Segment> -> nat

  type SizeMax = n: nat | n <= SIZE_LIMIT

  datatype Config = Config(chirpEnabled: bool, sizeMax: SizeMax, resonant: real, limits: LimitMap)

  function Program(c: Config, es: seq<Primitive>): (segs: seq<Segment>)
    requires AllOk(es)
  {
    Compile(c.limits, es, Point(0.0, c.resonant), 0, false)
  }

  /** The composition reaches the chip at all. */
  predicate Accepted(c: Config, es: seq<Primitive>, length: Printer) {
    && c.chirpEnabled && 0 < |es| <= c.sizeMax && AllOk(es)
    && length(Program(c, es)) <= QUEUE_LENGTH_MAX
  }

  function Verdict(c: Config, es: seq<Primitive>, length: Printer, chipAccepts: bool): (r: Status) {
    if !c.chirpEnabled then Unsupported
    else if |es| == 0 || |es| > c.sizeMax || !AllOk(es) then IllegalArgument
    else if length(Program(c, es)) > QUEUE_LENGTH_MAX || !chipAccepts then IllegalState
    else StatusOk
  }

  function Calls(c: Config, es: seq<Primitive>, length: Printer, chipAccepts: bool): (r: seq<HwCall>) {
    if !Accepted(c, es, length) then []
    else if !chipAccepts then [SetPwle(Program(c, es))]
    else [SetPwle(Program(c, es)), SetEffectScale(0), SetEffectIndex(QUEUE_INDEX),
          SetDuration((Total(es) + COLD_START_MS) % U32), SetActivate(true)]
  }

  lemma WrapsBackIff(x: nat, n: nat)
    requires x < U32
    ensures (x - n) % U32 == x <==> n % U32 == 0
  {
    var q := n / U32;
    assert n == q * U32 + n % U32;
    if n % U32 == 0 {
      assert x - n == -q * U32 + x;
    }
  }

  /**
   The chip is told the time until the output falls silent, plus the cold start, exactly when the
   negative durations, which only braking can have, add up to a multiple of 2^32; that is, apart
   from wrapping all the way round, when there are none. Nothing rejects them.
   */
  lemma DurationIff(c: Config, es: seq<Primitive>, length: Printer)
    requires Accepted(c, es, length)
    ensures SetDuration(PlayedTime(Program(c, es)) + COLD_START_MS) in Calls(c, es, length, true)
      <==> Overdrawn(es) % U32 == 0
  {
    hide Compile, PlayedTime, Total, Overdrawn;
    PlayedTimeOf(c.limits, es, Point(0.0, c.resonant), 0);
    TimeBounded(es);
    var calls, told := Calls(c, es, length, true), PlayedTime(Program(c, es)) + COLD_START_MS;
    assert calls[3] == SetDuration((told - Overdrawn(es)) % U32);
    WrapsBackIff(told, Overdrawn(es));
  }

  /** Without a negative duration the chip is always told the right time. */
  lemma {:induction false} NothingOverdrawn(es: seq<Primitive>)
    requires forall i :: 0 <= i < |es| ==> es[i].ms >= 0
    ensures Overdrawn(es) == 0
  {
    if es != [] {
      NothingOverdrawn(es[1..]);
    }
  }

  /** 100 ms of vibration followed by braking for -50 ms: the chip stops after 56 ms of it. */
  lemma NegativeBrakingCutsShort(c: Config, p: Point, length: Printer)
    requires c.chirpEnabled && c.sizeMax >= 2 && LevelOk(p.level) && FrequencyOk(p.freq)
    requires length(Program(c, [Active(100, p, p), Braking(-50, 0)])) <= QUEUE_LENGTH_MAX
    ensures var es := [Active(100, p, p), Braking(-50, 0)];
      && Verdict(c, es, length, true) == StatusOk
      && SetDuration(56) in Calls(c, es, length, true)
      && Played(Program(c, es), Point(0.0, c.resonant), 75.0).Drive?
  {
    hide Compile, Played, Line, Clip;
    var es := [Active(100, p, p), Braking(-50, 0)];
    assert es[1..] == [Braking(-50, 0)] && es[1..][1..] == [];
    assert Total(es[1..]) == -50 && Total(es) == 50;
    assert Calls(c, es, length, true)[3] == SetDuration(56);
    CompileIsFaithful(c.limits, es, Point(0.0, c.resonant), 0, false, 75.0);
  }

  /** Braking for -7 ms alone: the chip is told 4294967295 ms. */
  lemma NegativeBrakingWraps(c: Config, length: Printer)
    requires c.chirpEnabled && c.sizeMax > 0 && length(Program(c, [Braking(-7, 0)])) <= QUEUE_LENGTH_MAX
    ensures Verdict(c, [Braking(-7, 0)], length, true) == StatusOk
    ensures SetDuration(0xFFFF_FFFF) in Calls(c, [Braking(-7, 0)], length, true)
  {
    var es := [Braking(-7, 0)];
    assert es[1..] == [] && Total(es) == -7;
    assert Calls(c, es, length, true)[3] == SetDuration(0xFFFF_FFFF);
  }

  /**
   What reaches the hardware. A composition that fails validation reaches none of it; one that passes
   is written first, and the vibration is started only if the chip took it. What is written plays, at
   every instant, what the primitives describe, with indices from 0 and every level within its limits.
   */
  lemma ComposeIsSafe(c: Config, es: seq<Primitive>, length: Printer, chipAccepts: bool, t: real)
    requires t >= 0.0
    ensures Calls(c, es, length, chipAccepts) == [] <==> !Accepted(c, es, length)
    ensures SetActivate(true) in Calls(c, es, length, chipAccepts) <==> Verdict(c, es, length, chipAccepts) == StatusOk
    ensures Accepted(c, es, length) ==>
      && Calls(c, es, length, chipAccepts)[0] == SetPwle(Program(c, es))
      && WellFormed(c.limits, Program(c, es), 0)
      && Played(Program(c, es), Point(0.0, c.resonant), t) == Described(c.limits, es, c.resonant, t)
  {
    hide Compile, Played, Described, WellFormed, Total;
    if Accepted(c, es, length) {
      CompileIsFaithful(c.limits, es, Point(0.0, c.resonant), 0, false, t);
      CompileIsWellFormed(c.limits, es, Point(0.0, c.resonant), 0, false);
      var calls := Calls(c, es, length, chipAccepts);
      assert chipAccepts ==> calls[4] == SetActivate(true);
    }
  }

  /** The four answers. */
  lemma VerdictIs(c: Config, es: seq<Primitive>, length: Printer, chipAccepts: bool)
    ensures var r := Verdict(c, es, length, chipAccepts);
      && (r == Unsupported <==> !c.chirpEnabled)
      && (r == IllegalArgument <==> c.chirpEnabled && (|es| == 0 || |es| > c.sizeMax || exists i :: 0 <= i < |es| && !PrimitiveOk(es[i])))
      && (r == StatusOk <==>
          && c.chirpEnabled && 0 < |es| <= c.sizeMax && AllOk(es)
          && length(Compile(c.limits, es, Point(0.0, c.resonant), 0, false)) <= 4094 && chipAccepts)
  {
    hide PrimitiveOk, Compile;
  }

  /** What a successful call does to the hardware, in order. */
  lemma CallsInOrder(c: Config, es: seq<Primitive>, length: Printer)
    requires Verdict(c, es, length, true) == StatusOk
    ensures var calls := Calls(c, es, length, true);
      && |calls| == 5 && calls[0].SetPwle? && calls[1] == SetEffectScale(0) && calls[2] == SetEffectIndex(65529)
      && calls[3].SetDuration? && calls[4] == SetActivate(true)
  {
    hide Compile, Total;
  }

  //// The loop

  /** The active case of the loop: check, clip, and emit. */
  method ActiveSegments(limits: LimitMap, e: Primitive, prev: Point, index: int) returns (ok: bool, segs: seq<Segment>, end: Point)
    requires e.Active?
    ensures ok <==> PrimitiveOk(e)
    ensures ok ==> segs == Emit(limits, e, prev, index, false) && end == After(limits, e, prev)
  {
    ok, segs, end := false, [], prev;
    if e.ms < 0 || e.ms > DURATION_MAX_MS {
      return;
    }
    if e.start.level < 0.0 || e.start.level > 1.0 || e.end.level < 0.0 || e.end.level > 1.0 {
      return;
    }
    var start := e.start;
    end := e.end;
    if start.level > LEVEL_MAX {
      start := start.(level := LEVEL_MAX);
    }
    if end.level > LEVEL_MAX {
      end := end.(level := LEVEL_MAX);
    }
    if !FrequencyOk(start.freq) || !FrequencyOk(end.freq) {
      return;
    }
    var limit := limits[(start.freq - 1.0).Floor];
    if start.level > limit {
      start := start.(level := limit);
    }
    limit := limits[(end.freq - 1.0).Floor];
    if end.level > limit {
      end := end.(level := limit);
    }
    ok := true;
    var next := index;
    if !(start.level == prev.level && start.freq == prev.freq) {
      segs := segs + [Ramp(next, 0, start)];
      next := next + 1;
    }
    segs := segs + [Ramp(next, e.ms, end)];
  }

  class Vibrator {
    const c: Config
    var calls: seq<HwCall>

    constructor (c: Config)
      ensures this.c == c && calls == []
    {
      this.c := c;
      calls := [];
    }

    /** The loop of composePwle: segments, index, end point and a wrapping total. */
    method Build(es: seq<Primitive>) returns (ok: bool, segs: seq<Segment>, total: int)
      ensures ok <==> AllOk(es)
      ensures ok ==> segs == Program(c, es) && total == Total(es) % U32
    {
      hide Compile, Emit, After, PrimitiveOk, Reached, Total;
      var prev, i := Point(0.0, c.resonant), 0;
      ghost var start := prev;
      ok, segs, total := true, [], 0;
      CompileNothing(c.limits, start);
      while i < |es|
        invariant i <= |es| && AllOk(es[..i])
        invariant segs == Compile(c.limits, es[..i], start, 0, false) && prev == Reached(c.limits, es[..i], start)
        invariant total == Total(es[..i]) % U32
      {
        var e := es[i];
        var good, more, end := Segments(e, prev, |segs|);
        if !good {
          assert !AllOk(es);
          return false, [], 0;
        }
        CompileSnoc(c.limits, es[..i], e, start, 0);
        assert es[..i + 1] == es[..i] + [e];
        segs, prev := segs + more, end;
        total := (total + e.ms) % U32;
        i := i + 1;
      }
      assert es[..i] == es;
    }

    method Segments(e: Primitive, prev: Point, index: int) returns (ok: bool, segs: seq<Segment>, end: Point)
      ensures ok <==> PrimitiveOk(e)
      ensures ok ==> segs == Emit(c.limits, e, prev, index, false) && end == After(c.limits, e, prev)
    {
      match e
      case Active(_, _, _) =>
        ok, segs, end := ActiveSegments(c.limits, e, prev, index);
      case Braking(ms, kind) =>
        if kind > CLAB || ms > DURATION_MAX_MS {
          return false, [], prev;
        }
        return true, [Brake(index, ms, kind, prev.freq)], Point(0.0, prev.freq);
    }

    method ComposePwle(es: seq<Primitive>, length: Printer, chipAccepts: bool) returns (r: Status)
      modifies this`calls
      ensures r == Verdict(c, es, length, chipAccepts)
      ensures calls == old(calls) + Calls(c, es, length, chipAccepts)
    {
      hide AllOk, Compile, Total;
      if !c.chirpEnabled {
        return Unsupported;
      }
      if |es| <= 0 || |es| > c.sizeMax {
        return IllegalArgument;
      }
      var ok, segs, total := Build(es);
      if !ok {
        return IllegalArgument;
      }
      if length(segs) > QUEUE_LENGTH_MAX {
        return IllegalState;
      }
      calls := calls + [SetPwle(segs)];
      if !chipAccepts {
        return IllegalState;
      }
      calls := calls + [SetEffectScale(0)];
      calls := calls + [SetEffectIndex(QUEUE_INDEX)];
      total := (total + COLD_START_MS) % U32;
      calls := calls + [SetDuration(total)];
      calls := calls + [SetActivate(true)];
      r := StatusOk;
    }
  }

  lemma CompileNothing(limits: LimitMap, prev: Point)
    ensures Compile(limits, [], prev, 0, false) == [] && Reached(limits, [], prev) == prev && Total([]) == 0
  {
  }
}
