/**
 The boost controller of an ADPF session: one loop over a batch of reported durations feeds a
 proportional, an integral and a derivative term, each with its own sampling window. The integral
 is clamped after every sample and, like the last error, outlives the batch.

 Gains are reals; integers are unbounded. For a target under 100 us the derivative is divided by
 zero; `overZero` is what the processor makes of converting the result to an integer.
 */
module AdpfPid {
  import opened CArithmetic

  datatype PidConfig = PidConfig(
    windowP: nat, windowI: nat, windowD: nat,
    iLow: int, iHigh: int,
    po: real, pu: real, gainI: real, dOver: real, dUnder: real,
    overZero: int -> int)

  function NsTo100us(ns: int): (r: int) {
    TruncDiv(ns, 100_000)
  }

  /** Where a window of the last w samples starts; 0 means the whole batch. */
  function WindowStart(w: nat, length: nat): (k: nat)
    ensures k <= length && (length > 0 ==> k < length)
  {
    if w == 0 || w > length then 0 else length - w
  }

  function Min(a: int, b: int): (r: int) {
    if a <= b then a else b
  }

  function Max(a: int, b: int): (r: int) {
    if a >= b then a else b
  }

  //// The meaning of the three terms

  function Errors(target: int, durations: seq<int>): (es: seq<int>)
    ensures |es| == |durations|
    ensures forall i :: 0 <= i < |es| ==> es[i] == NsTo100us(durations[i] - target)
  {
    seq(|durations|, i requires 0 <= i < |durations| => NsTo100us(durations[i] - target))
  }

  /** The sum of the errors from sample lo up to sample hi. */
  function Sum(es: seq<int>, lo: nat, hi: nat): (r: int)
    requires hi <= |es|
  {
    if hi <= lo then 0 else Sum(es, lo, hi - 1) + es[hi - 1]
  }

  /** One step of the integral: add, then cut at the high limit, then at the low one. */
  function Accumulate(c: PidConfig, dt: int, acc: int, e: int): (r: int) {
    Max(c.iLow, Min(c.iHigh, acc + e * dt))
  }

  /** The clamped fold over the errors from sample lo up to sample hi. */
  function Integrate(c: PidConfig, dt: int, acc: int, es: seq<int>, lo: nat, hi: nat): (r: int)
    requires hi <= |es|
  {
    if hi <= lo then acc else Accumulate(c, dt, Integrate(c, dt, acc, es, lo, hi - 1), es[hi - 1])
  }

  /** The error that the derivative window starts from. */
  function Base(es: seq<int>, start: nat, dStart: nat, previous: int): (e: int)
    requires start <= dStart <= |es|
  {
    if dStart > start then es[dStart - 1] else previous
  }

  function First(c: PidConfig, length: nat): (k: nat)
    ensures k <= length
  {
    Min(WindowStart(c.windowP, length), Min(WindowStart(c.windowI, length), WindowStart(c.windowD, length)))
  }

  datatype Terms = Terms(errSum: int, integral: int, derivative: int, previous: int)

  /** The three terms of a batch, each from its own window. */
  function BatchTerms(c: PidConfig, target: int, durations: seq<int>, integral: int, previous: int): (t: Terms)
    requires durations != []
  {
    var es, n := Errors(target, durations), |durations|;
    var p, i, d := WindowStart(c.windowP, n), WindowStart(c.windowI, n), WindowStart(c.windowD, n);
    Terms(
      Sum(es, p, n),
      Integrate(c, NsTo100us(target), integral, es, i, n),
      es[n - 1] - Base(es, First(c, n), d, previous),
      es[n - 1])
  }

  function Scaled(gain: real, x: int): (r: real) {
    gain * x as real
  }

  function Over(r: real, y: int): (q: real)
    requires y != 0
  {
    r / y as real
  }

  function Output(c: PidConfig, target: int, length: nat, t: Terms): (o: int)
    requires length > 0
  {
    var dt := NsTo100us(target);
    var p, d := length - WindowStart(c.windowP, length), length - WindowStart(c.windowD, length);
    Trunc(Over(Scaled(if t.errSum > 0 then c.po else c.pu, t.errSum), p))
    + Trunc(Scaled(c.gainI, t.integral))
    + if dt == 0 then c.overZero(t.derivative)
      else Trunc(Over(Over(Scaled(if t.derivative > 0 then c.dOver else c.dUnder, t.derivative), dt), d))
  }

  //// The loop

  method AddClamped(c: PidConfig, dt: int, integralIn: int, error: int) returns (integral: int)
    ensures integral == Accumulate(c, dt, integralIn, error)
  {
    integral := integralIn + error * dt;
    integral := Min(c.iHigh, integral);
    integral := Max(c.iLow, integral);
  }

  /** The loop of convertWorkDurationToBoostByPid: one pass, three windows. */
  method CollectTerms(c: PidConfig, target: int, durations: seq<int>, integralIn: int, previousIn: int)
    returns (t: Terms)
    requires durations != []
    ensures t == BatchTerms(c, target, durations, integralIn, previousIn)
  {
    hide NsTo100us, WindowStart, Accumulate;
    var length := |durations|;
    var pStart := WindowStart(c.windowP, length);
    var iStart := WindowStart(c.windowI, length);
    var dStart := WindowStart(c.windowD, length);
    var dt := NsTo100us(target);
    var errSum, derivativeSum := 0, 0;
    var integral, previous := integralIn, previousIn;
    ghost var es, start := Errors(target, durations), First(c, length);
    var i := Min(pStart, Min(iStart, dStart));
    while i < length
      invariant start <= i <= length
      invariant errSum == Sum(es, pStart, i)
      invariant integral == Integrate(c, dt, integralIn, es, iStart, i)
      invariant previous == if i == start then previousIn else es[i - 1]
      invariant derivativeSum == if i <= dStart then 0 else previous - Base(es, start, dStart, previousIn)
    {
      var error := NsTo100us(durations[i] - target);
      if i >= dStart {
        derivativeSum := derivativeSum + (error - previous);
      }
      if i >= pStart {
        errSum := errSum + error;
      }
      if i >= iStart {
        integral := AddClamped(c, dt, integral, error);
      }
      previous := error;
      i := i + 1;
    }
    t := Terms(errSum, integral, derivativeSum, previous);
  }

  /** convertWorkDurationToBoostByPid. */
  method ConvertWorkDurationToBoost(c: PidConfig, target: int, durations: seq<int>, integralIn: int, previousIn: int)
    returns (output: int, integral: int, previous: int)
    requires durations != []
    ensures var t := BatchTerms(c, target, durations, integralIn, previousIn);
      output == Output(c, target, |durations|, t) && integral == t.integral && previous == t.previous
  {
    hide BatchTerms, Output;
    var t := CollectTerms(c, target, durations, integralIn, previousIn);
    output, integral, previous := Output(c, target, |durations|, t), t.integral, t.previous;
  }

  //// What the terms promise

  /** The sum of differences over the derivative window, as the loop adds it up. */
  function Differences(es: seq<int>, k: nat, before: int): (r: int)
    requires k <= |es|
    decreases |es| - k
  {
    if k == |es| then 0 else es[k] - before + Differences(es, k + 1, es[k])
  }

  /** The derivative telescopes: only its two ends matter. */
  lemma {:induction false} DifferencesTelescope(es: seq<int>, k: nat, before: int)
    requires k < |es|
    ensures Differences(es, k, before) == es[|es| - 1] - before
    decreases |es| - k
  {
    if k + 1 < |es| {
      DifferencesTelescope(es, k + 1, es[k]);
    }
  }

  /** The derivative of a batch is the sum of the steps inside its window. */
  lemma DerivativeIsSumOfSteps(c: PidConfig, target: int, durations: seq<int>, integral: int, previous: int)
    requires durations != []
    ensures var es, d := Errors(target, durations), WindowStart(c.windowD, |durations|);
      BatchTerms(c, target, durations, integral, previous).derivative
      == Differences(es, d, Base(es, First(c, |durations|), d, previous))
  {
    var es, d := Errors(target, durations), WindowStart(c.windowD, |durations|);
    DifferencesTelescope(es, d, Base(es, First(c, |durations|), d, previous));
  }

  /** The integral stays inside its limits, whatever is reported. */
  lemma {:induction false} IntegralBounded(c: PidConfig, dt: int, acc: int, es: seq<int>, lo: nat, hi: nat)
    requires hi <= |es| && c.iLow <= acc <= c.iHigh
    ensures c.iLow <= Integrate(c, dt, acc, es, lo, hi) <= c.iHigh
  {
    if hi > lo {
      IntegralBounded(c, dt, acc, es, lo, hi - 1);
    }
  }

  /** No partial sum leaves the limits. */
  predicate Unsaturated(c: PidConfig, dt: int, acc: int, es: seq<int>, lo: nat, hi: nat)
    requires hi <= |es|
  {
    forall k :: lo < k <= hi ==> c.iLow <= acc + Sum(es, lo, k) * dt <= c.iHigh
  }

  /** As long as no partial sum leaves the limits, the clamped integral is the plain one. */
  lemma {:induction false} UnsaturatedIsSum(c: PidConfig, dt: int, acc: int, es: seq<int>, lo: nat, hi: nat)
    requires hi <= |es| && Unsaturated(c, dt, acc, es, lo, hi)
    ensures Integrate(c, dt, acc, es, lo, hi) == acc + Sum(es, lo, hi) * dt
  {
    if hi > lo {
      UnsaturatedIsSum(c, dt, acc, es, lo, hi - 1);
      Distribute(Sum(es, lo, hi - 1), es[hi - 1], dt);
    }
  }

  lemma Distribute(a: int, b: int, c: int)
    ensures (a + b) * c == a * c + b * c
  {
  }

  //// The windows, sample by sample

  /** How many of n samples a window of size w counts, from the last one back. */
  function Counted(w: nat, n: nat): (k: nat) {
    if w == 0 || w > n then n else w
  }

  /** The error of one sample, in units of 100 us. */
  function ErrorOf(target: int, duration: int): (e: int) {
    TruncDiv(duration - target, 100_000)
  }

  lemma {:induction false} SumAgrees(a: seq<int>, b: seq<int>, lo: nat, hi: nat)
    requires hi <= |a| && hi <= |b| && forall i :: lo <= i < hi ==> a[i] == b[i]
    ensures Sum(a, lo, hi) == Sum(b, lo, hi)
  {
    if hi > lo {
      SumAgrees(a, b, lo, hi - 1);
    }
  }

  lemma {:induction false} IntegrateAgrees(c: PidConfig, dt: int, acc: int, a: seq<int>, b: seq<int>, lo: nat, hi: nat)
    requires hi <= |a| && hi <= |b| && forall i :: lo <= i < hi ==> a[i] == b[i]
    ensures Integrate(c, dt, acc, a, lo, hi) == Integrate(c, dt, acc, b, lo, hi)
  {
    if hi > lo {
      IntegrateAgrees(c, dt, acc, a, b, lo, hi - 1);
    }
  }

  /** Samples before a window do not matter to its term. */
  lemma OnlyTheWindowCounts(c: PidConfig, target: int, a: seq<int>, b: seq<int>, integral: int, previous: int, previous': int)
    requires a != [] && |a| == |b|
    ensures var n, s, t := |a|, BatchTerms(c, target, a, integral, previous), BatchTerms(c, target, b, integral, previous');
      && (a[n - Counted(c.windowP, n)..] == b[n - Counted(c.windowP, n)..] ==> s.errSum == t.errSum)
      && (a[n - Counted(c.windowI, n)..] == b[n - Counted(c.windowI, n)..] ==> s.integral == t.integral)
  {
    hide Sum, Integrate, NsTo100us;
    var n, es, fs := |a|, Errors(target, a), Errors(target, b);
    var p, i := n - Counted(c.windowP, n), n - Counted(c.windowI, n);
    if a[p..] == b[p..] {
      forall k | p <= k < n ensures es[k] == fs[k] {
        assert a[p..][k - p] == b[p..][k - p];
      }
      SumAgrees(es, fs, p, n);
    }
    if a[i..] == b[i..] {
      forall k | i <= k < n ensures es[k] == fs[k] {
        assert a[i..][k - i] == b[i..][k - i];
      }
      IntegrateAgrees(c, NsTo100us(target), integral, es, fs, i, n);
    }
  }

  lemma {:induction false} SumOfOneChange(es: seq<int>, lo: nat, hi: nat, i: nat, x: int)
    requires lo <= i < hi <= |es|
    ensures Sum(es[i := x], lo, hi) == Sum(es, lo, hi) + x - es[i]
  {
    if i == hi - 1 {
      SumAgrees(es[i := x], es, lo, hi - 1);
    } else {
      SumOfOneChange(es, lo, hi - 1, i, x);
    }
  }

  /** Each sample in the window counts once, with its own error. */
  lemma EachSampleCounts(c: PidConfig, target: int, a: seq<int>, i: nat, d: int, integral: int, previous: int)
    requires a != [] && |a| - Counted(c.windowP, |a|) <= i < |a|
    ensures BatchTerms(c, target, a[i := d], integral, previous).errSum
      == BatchTerms(c, target, a, integral, previous).errSum + ErrorOf(target, d) - ErrorOf(target, a[i])
  {
    hide Sum, Integrate, TruncDiv;
    var n, es := |a|, Errors(target, a);
    assert Errors(target, a[i := d]) == es[i := ErrorOf(target, d)];
    SumOfOneChange(es, n - Counted(c.windowP, n), n, i, ErrorOf(target, d));
  }

  lemma {:induction false} SumOfZeros(es: seq<int>, lo: nat, hi: nat)
    requires hi <= |es| && forall i :: lo <= i < hi ==> es[i] == 0
    ensures Sum(es, lo, hi) == 0
  {
    if hi > lo {
      SumOfZeros(es, lo, hi - 1);
    }
  }

  /** Samples that meet the target make no error. */
  lemma OnTarget(c: PidConfig, target: int, n: nat, integral: int, previous: int)
    requires n > 0
    ensures BatchTerms(c, target, seq(n, i => target), integral, previous).errSum == 0
  {
    var es := Errors(target, seq(n, i => target));
    SumOfZeros(es, WindowStart(c.windowP, n), n);
  }

  /** One sample: the integral moves by its error times the target, and is then cut to its limits. */
  lemma IntegralOfOne(c: PidConfig, target: int, d: int, integral: int, previous: int)
    requires c.iLow <= c.iHigh
    ensures var plain := integral + ErrorOf(target, d) * ErrorOf(0, target);
      BatchTerms(c, target, [d], integral, previous).integral
      == if plain < c.iLow then c.iLow else if plain > c.iHigh then c.iHigh else plain
  {
    hide TruncDiv;
    var es := Errors(target, [d]);
    assert Integrate(c, NsTo100us(target), integral, es, 0, 0) == integral;
  }

  lemma {:induction false} IntegrateShift(c: PidConfig, dt: int, acc: int, es: seq<int>, fs: seq<int>, lo: nat, hi: nat, shift: nat)
    requires hi <= |fs| && shift + hi <= |es| && forall i :: lo <= i < hi ==> es[shift + i] == fs[i]
    ensures Integrate(c, dt, acc, es, shift + lo, shift + hi) == Integrate(c, dt, acc, fs, lo, hi)
  {
    if hi > lo {
      IntegrateShift(c, dt, acc, es, fs, lo, hi - 1, shift);
    }
  }

  /** Sample by sample: in a window of more than one, the last sample comes on top of those before it. */
  lemma IntegralOfMore(c: PidConfig, target: int, a: seq<int>, d: int, integral: int, previous: int, previous': int)
    requires a != []
    ensures var w := Counted(c.windowI, |a| + 1);
      w > 1 ==>
      BatchTerms(c, target, a + [d], integral, previous).integral
      == BatchTerms(c, target, [d], BatchTerms(c.(windowI := w - 1), target, a, integral, previous').integral, previous).integral
  {
    hide Accumulate, NsTo100us;
    var n, w := |a|, Counted(c.windowI, |a| + 1);
    if w > 1 {
      var es, fs, gs := Errors(target, a + [d]), Errors(target, a), Errors(target, [d]);
      var dt := NsTo100us(target);
      assert WindowStart(c.windowI, n + 1) == WindowStart(w - 1, n) == n + 1 - w;
      IntegrateAgrees(c, dt, integral, es, fs, n + 1 - w, n);
      SameLimits(c, w - 1, dt, integral, fs, n + 1 - w, n);
      var acc := Integrate(c, dt, integral, fs, n + 1 - w, n);
      assert Integrate(c, dt, acc, gs, 0, 0) == acc;
    }
  }

  lemma {:induction false} SameLimits(c: PidConfig, w: nat, dt: int, acc: int, es: seq<int>, lo: nat, hi: nat)
    requires hi <= |es|
    ensures Integrate(c.(windowI := w), dt, acc, es, lo, hi) == Integrate(c, dt, acc, es, lo, hi)
  {
    if hi > lo {
      SameLimits(c, w, dt, acc, es, lo, hi - 1);
    }
  }

  /** A window of one sample forgets the others of the batch. */
  lemma IntegralOfLast(c: PidConfig, target: int, a: seq<int>, integral: int, previous: int)
    requires a != [] && Counted(c.windowI, |a|) == 1
    ensures BatchTerms(c, target, a, integral, previous).integral
      == BatchTerms(c, target, [a[|a| - 1]], integral, previous).integral
  {
    hide Accumulate, NsTo100us;
    var es, gs := Errors(target, a), Errors(target, [a[|a| - 1]]);
    IntegrateShift(c, NsTo100us(target), integral, es, gs, 0, 1, |a| - 1);
  }

  /**
   The derivative, from the window sizes alone: the last error less the one just before the window
   when the loop has been there, that is when the P or the I window reaches further back, and less
   the stored previous error when not. The last error is stored in turn.
   */
  lemma DerivativeIs(c: PidConfig, target: int, a: seq<int>, integral: int, previous: int)
    requires a != []
    ensures var n, t := |a|, BatchTerms(c, target, a, integral, previous);
      var w := Counted(c.windowD, n);
      && t.previous == ErrorOf(target, a[n - 1])
      && t.derivative == ErrorOf(target, a[n - 1]) -
          if Counted(c.windowP, n) > w || Counted(c.windowI, n) > w then ErrorOf(target, a[n - 1 - w]) else previous
  {
    hide TruncDiv, Sum, Integrate;
  }

  //// The output

  /** The gains of one term, with those of the others at zero. */
  function OnlyP(c: PidConfig): (r: PidConfig) {
    c.(gainI := 0.0, dOver := 0.0, dUnder := 0.0, overZero := x => 0)
  }

  function OnlyI(c: PidConfig): (r: PidConfig) {
    c.(po := 0.0, pu := 0.0, dOver := 0.0, dUnder := 0.0, overZero := x => 0)
  }

  function OnlyD(c: PidConfig): (r: PidConfig) {
    c.(po := 0.0, pu := 0.0, gainI := 0.0)
  }

  /** A real cut toward zero to an integer. */
  predicate CutToZero(q: real, n: int) {
    if q >= 0.0 then n >= 0 && n as real <= q < (n + 1) as real else n <= 0 && (n - 1) as real < q <= n as real
  }

  lemma OverIs(r: real, y: int)
    requires y != 0
    ensures Over(r, y) * y as real == r
  {
  }

  /** A gain of zero gives nothing. */
  lemma NothingLeft(x: int, y: int, z: int)
    requires y != 0 && z != 0
    ensures Scaled(0.0, x) == 0.0 && Over(0.0, y) == 0.0 && Trunc(0.0) == 0
    ensures Trunc(Scaled(0.0, x)) == 0 && Trunc(Over(Scaled(0.0, x), y)) == 0 && Trunc(Over(Over(Scaled(0.0, x), y), z)) == 0
  {
  }

  /** The three terms add up. */
  lemma OutputAdds(c: PidConfig, target: int, n: nat, t: Terms)
    requires n > 0
    ensures Output(c, target, n, t) == Output(OnlyP(c), target, n, t) + Output(OnlyI(c), target, n, t) + Output(OnlyD(c), target, n, t)
  {
    hide Trunc, NsTo100us, Scaled, Over;
    var dt := NsTo100us(target);
    var p, d := n - WindowStart(c.windowP, n), n - WindowStart(c.windowD, n);
    NothingLeft(t.errSum, p, 1);
    NothingLeft(t.integral, 1, 1);
    NothingLeft(t.derivative, if dt == 0 then 1 else dt, d);
  }

  /** P: the gain for its sign times the error sum, over the samples that the window counts, cut toward zero. */
  lemma OutputP(c: PidConfig, target: int, n: nat, t: Terms) returns (q: real)
    requires n > 0
    ensures q * Counted(c.windowP, n) as real == (if t.errSum > 0 then c.po else c.pu) * t.errSum as real
    ensures CutToZero(q, Output(OnlyP(c), target, n, t))
  {
    hide Trunc, NsTo100us, Over;
    var dt := NsTo100us(target);
    var p, d := n - WindowStart(c.windowP, n), n - WindowStart(c.windowD, n);
    NothingLeft(t.integral, 1, 1);
    NothingLeft(t.derivative, if dt == 0 then 1 else dt, d);
    var x := Scaled(if t.errSum > 0 then c.po else c.pu, t.errSum);
    q := Over(x, p);
    OverIs(x, p);
    TruncIs(q);
  }

  /** I: the gain times the integral, cut toward zero. */
  lemma OutputI(c: PidConfig, target: int, n: nat, t: Terms)
    requires n > 0
    ensures CutToZero(c.gainI * t.integral as real, Output(OnlyI(c), target, n, t))
  {
    hide Trunc, NsTo100us, Over;
    var dt := NsTo100us(target);
    var p, d := n - WindowStart(c.windowP, n), n - WindowStart(c.windowD, n);
    NothingLeft(t.errSum, p, 1);
    NothingLeft(t.derivative, if dt == 0 then 1 else dt, d);
    TruncIs(Scaled(c.gainI, t.integral));
  }

  /** D: the gain for its sign times the derivative, over the target and then over the samples that the window counts. */
  lemma OutputD(c: PidConfig, target: int, n: nat, t: Terms) returns (rate: real, q: real)
    requires n > 0
    ensures var dt, o := ErrorOf(0, target), Output(OnlyD(c), target, n, t);
      if dt == 0 then o == c.overZero(t.derivative)
      else
        && rate * dt as real == (if t.derivative > 0 then c.dOver else c.dUnder) * t.derivative as real
        && q * Counted(c.windowD, n) as real == rate
        && CutToZero(q, o)
  {
    hide Trunc, TruncDiv, Over;
    var dt := NsTo100us(target);
    var p, d := n - WindowStart(c.windowP, n), n - WindowStart(c.windowD, n);
    NothingLeft(t.errSum, p, 1);
    NothingLeft(t.integral, 1, 1);
    rate, q := 0.0, 0.0;
    if dt != 0 {
      var x := Scaled(if t.derivative > 0 then c.dOver else c.dUnder, t.derivative);
      rate := Over(x, dt);
      OverIs(x, dt);
      q := Over(rate, d);
      OverIs(rate, d);
      TruncIs(q);
    }
  }
}
