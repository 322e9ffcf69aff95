/**
 * The rate limiter: an integer feedback controller that measures the time per iteration every
 * `skip` iterations and then adapts the sleep time or the number of iterations between measurements.
 * Times are nanoseconds; `req` is the requested time per iteration.
 */
module RateLimiter {
  import opened Arithmetic

  const SECOND: nat := 1_000_000_000
  const FIVE_MS: nat := 5_000_000
  const INT_MAX: int := 0x7fff_ffff

  function Min(a: int, b: int): int { if a < b then a else b }

  function Max(a: int, b: int): int { if a < b then b else a }

  /** The smallest number of iterations between measurements, and the largest. */
  function MinSkip(req: nat): nat
    requires req > 0
  {
    Max(1, FIVE_MS / req)
  }

  function MaxSkip(req: nat): nat
    requires req > 0
  {
    SECOND / req
  }

  /** Deduced time per iteration, sleep time, time of the last measurement, iterations per measurement. */
  datatype Limiter = Limiter(tw: int, ts: int, start: int, skip: int)

  function Fresh(req: nat, now: int): Limiter
    requires req > 0
  {
    Limiter(0, 0, now, MinSkip(req))
  }

  function Measured(l: Limiter, now: int): int
    requires l.skip != 0
  {
    if l.tw == 0 then (now - l.start) / l.skip else (l.tw + 3 * (now - l.start) / l.skip) / 4
  }

  predicate TooSlow(req: nat, tw: int) { tw > req * 65 / 64 }

  predicate TooFast(req: nat, tw: int) { tw < req * 63 / 64 }

  /** One measurement. */
  function Round(req: nat, l: Limiter, now: int): Limiter
    requires req > 0 && l.skip != 0
  {
    var tw := Measured(l, now);
    if TooSlow(req, tw) then
      if l.ts > 0 then Limiter(tw, Max(0, l.ts - (tw - req) * l.skip / 2), now, l.skip)
      else Limiter(tw, l.ts, now, Min(MaxSkip(req), (l.skip * 5 + 3) / 4))
    else if TooFast(req, tw) then
      if l.skip > MinSkip(req) then Limiter(tw, l.ts, now, Max(MinSkip(req), l.skip * 3 / 4))
      else Limiter(tw, l.ts + (req - tw) * (l.skip * 7) / 8, now, l.skip)
    else Limiter(tw, l.ts, now, l.skip)
  }

  /** A 32-bit product on the path taken by a measurement exceeds the range of int. */
  predicate Overflows(req: nat, l: Limiter, now: int)
    requires req > 0 && l.skip != 0
  {
    var tw := Measured(l, now);
    || (TooSlow(req, tw) && l.ts <= 0 && l.skip * 5 + 3 > INT_MAX)
    || (TooFast(req, tw) && l.skip > MinSkip(req) && l.skip * 3 > INT_MAX)
    || (TooFast(req, tw) && l.skip <= MinSkip(req) && l.skip * 7 > INT_MAX)
  }

  /** The assertion in the code: nobody sleeps while iterations are skipped. */
  predicate Trips(req: nat, l: Limiter, now: int)
    requires req > 0 && l.skip != 0
  {
    TooFast(req, Measured(l, now)) && l.skip > MinSkip(req) && l.ts != 0
  }

  /** The state the limiter may be in; the last clause is what the code asserts. */
  predicate Bounded(req: nat, l: Limiter)
    requires req > 0
  {
    && MinSkip(req) <= l.skip <= MaxSkip(req)
    && l.tw >= 0 && l.ts >= 0
    && (l.skip > MinSkip(req) ==> l.ts == 0)
  }

  // ---------------------------------------------------------------- the control law

  /** The period of k iterations is 5 ms or less, or cannot be shorter. */
  predicate Low(req: nat, k: int) { k <= 1 || k * req <= 5_000_000 }

  /** The most iterations in 5 ms, and at least one. */
  predicate Lowest(req: nat, k: int) { k >= 1 && Low(req, k) && (k + 1) * req > 5_000_000 }

  /** The most iterations in a second. */
  predicate Highest(req: nat, k: int) { k * req <= 1_000_000_000 < (k + 1) * req }

  /** `part` is `whole / k`, rounded down. */
  predicate Part(part: int, whole: int, k: int) { k * part <= whole < k * part + k }

  /** The time per iteration: the last period alone, or with a quarter of the earlier value. */
  predicate MeasuresTime(l: Limiter, tw: int, d: int) {
    if l.tw == 0 then tw * l.skip <= d < (tw + 1) * l.skip
    else (4 * tw - l.tw) * l.skip <= 3 * d < (4 * tw + 4 - l.tw) * l.skip
  }

  /** Too fast: at the lowest count sleep 7/8 of what is missing in the period, else check a quarter more often. */
  predicate SlowsDown(req: nat, l: Limiter, r: Limiter) {
    if Low(req, l.skip) then r.skip == l.skip && Part(r.ts - l.ts, 7 * ((req - r.tw) * l.skip), 8)
    else
      && r.ts == l.ts && r.skip < l.skip && (r.skip + 1) * req > 5_000_000
      && (Part(r.skip, 3 * l.skip, 4) || Lowest(req, r.skip))
  }

  /** Too slow: sleep less by half of the excess, or, without a sleep, check less often, up to once a second. */
  predicate SpeedsUp(req: nat, l: Limiter, r: Limiter) {
    var excess := (r.tw - req) * l.skip;
    if l.ts > 0 then
      && r.skip == l.skip && 0 <= r.ts <= l.ts && (excess >= 2 ==> r.ts < l.ts)
      && (if r.ts > 0 then Part(l.ts - r.ts, excess, 2) else 2 * l.ts <= excess)
    else
      && r.ts == l.ts && r.skip * req <= 1_000_000_000
      && (Part(r.skip, 5 * l.skip + 3, 4) || (Highest(req, r.skip) && 4 * r.skip <= 5 * l.skip + 3))
  }

  /** What a measurement does, without saying how: within 1/64 of the requested time nothing changes. */
  predicate Controls(req: nat, l: Limiter, r: Limiter, now: int) {
    && r.start == now && MeasuresTime(l, r.tw, now - l.start)
    && (if r.tw < req * 63 / 64 then SlowsDown(req, l, r)
        else if r.tw > req * 65 / 64 then SpeedsUp(req, l, r)
        else r.ts == l.ts && r.skip == l.skip)
  }

  /** The object; `count` calls remain until the next measurement. */
  class Limit {
    const req: nat
    var count: int
    var l: Limiter

    /** What holds for every requested time: a measurement divides by a positive number of iterations. */
    ghost predicate Sane()
      reads this
    {
      req > 0 && l.tw >= 0 && l.ts >= 0 && count <= l.skip && l.skip >= 0
    }

    /** What holds in the safe range. */
    ghost predicate Valid()
      reads this
    {
      Sane() && 3 <= req <= SECOND && Bounded(req, l) && 1 <= count && l.skip <= INT_MAX
    }

    /** A requested time of zero would divide by zero. */
    constructor (req: nat, now: int)
      requires req > 0
      ensures Sane() && this.req == req && l == Fresh(req, now) && count == l.skip >= 1
      ensures Lowest(req, l.skip) && l.tw == 0 && l.ts == 0 && l.start == now
      ensures 3 <= req <= SECOND ==> Valid()
    {
      this.req := req;
      l := Fresh(req, now);
      count := MinSkip(req);
      new;
      LowIs(req, MinSkip(req));
      if 3 <= req <= SECOND { FreshBounded(req, now); }
    }

    /** The measuring part: new time per iteration, then less or more sleep, or more or fewer iterations. */
    method Measure(now: int) returns (sleep: int, defined: bool)
      requires req > 0 && l.skip >= 1 && l.tw >= 0 && l.ts >= 0 && now >= l.start
      modifies this
      ensures defined == (!Overflows(req, old(l), now) && !Trips(req, old(l), now))
      ensures l == Round(req, old(l), now) && count == l.skip && sleep == l.ts
      ensures Controls(req, old(l), l, now)
    {
      RoundControls(req, l, now);
      var tw := if l.tw == 0 then (now - l.start) / l.skip else (l.tw + 3 * (now - l.start) / l.skip) / 4;
      var ts, skip := l.ts, l.skip;
      defined := true;
      if tw > req * 65 / 64 {
        if ts > 0 {
          ts := Max(0, ts - (tw - req) * skip / 2);
        } else {
          defined := skip * 5 + 3 <= INT_MAX;
          skip := Min(SECOND / req, (skip * 5 + 3) / 4);
        }
      } else if tw < req * 63 / 64 {
        var minSkip := Max(1, FIVE_MS / req);
        if skip > minSkip {
          defined := ts == 0 && skip * 3 <= INT_MAX;
          skip := Max(minSkip, skip * 3 / 4);
        } else {
          defined := skip * 7 <= INT_MAX;
          ts := ts + (req - tw) * (skip * 7) / 8;
        }
      }
      l := Limiter(tw, ts, now, skip);
      count := skip;
      sleep := ts;
    }

    /**
     * Returns how long to sleep.  Only the last call of a period reads the clock.  `defined` is false when a 32-bit
     * product overflows or the code's assertion fails; the state is then what exact arithmetic would give.
     */
    method MaybeSleep(now: int) returns (sleep: int, defined: bool)
      requires Sane() && now >= l.start
      modifies this
      ensures Sane()
      ensures old(count) != 1 ==> l == old(l) && count == old(count) - 1 && sleep == 0 && defined
      ensures old(count) == 1 ==>
        && defined == (!Overflows(req, old(l), now) && !Trips(req, old(l), now))
        && l == Round(req, old(l), now) && count == l.skip && sleep == l.ts
        && Controls(req, old(l), l, now)
      ensures old(Valid()) ==> Valid() && defined
    {
      count := count - 1;
      sleep, defined := 0, true;
      if count == 0 {
        RoundSane(req, l, now);
        if 3 <= req <= SECOND && Bounded(req, l) { RoundStays(req, l, now); }
        sleep, defined := Measure(now);
      }
    }
  }

  // ---------------------------------------------------------------- arithmetic

  lemma DivBounds(a: int, k: int)
    requires k > 0
    ensures a / k * k <= a < (a / k + 1) * k
  {
  }

  lemma DivAtLeast(a: int, k: int, m: int)
    requires k > 0 && m * k <= a
    ensures a / k >= m
  {
    DivBounds(a, k);
    if a / k < m { MulMono(a / k + 1, m, k); }
  }

  lemma DivNonNeg(a: int, k: int)
    requires k > 0 && a >= 0
    ensures a / k >= 0
  {
    DivAtLeast(a, k, 0);
  }

  lemma LowIs(req: nat, k: int)
    requires req > 0
    ensures Low(req, k) <==> k <= MinSkip(req)
    ensures Lowest(req, MinSkip(req)) && Highest(req, MaxSkip(req))
  {
    DivBounds(FIVE_MS, req);
    DivBounds(SECOND, req);
    if k > FIVE_MS / req { MulMono(FIVE_MS / req + 1, k, req); } else { MulMono(k, FIVE_MS / req, req); }
  }

  lemma TimeMeasured(l: Limiter, now: int)
    requires l.skip >= 1
    ensures MeasuresTime(l, Measured(l, now), now - l.start)
  {
    var d, tw := now - l.start, Measured(l, now);
    if l.tw == 0 {
      DivBounds(d, l.skip);
    } else {
      var q := 3 * d / l.skip;
      DivBounds(3 * d, l.skip);
      MulMono(4 * tw - l.tw, q, l.skip);
      MulMono(q + 1, 4 * tw + 4 - l.tw, l.skip);
    }
  }

  lemma SevenEighths(req: nat, tw: int, k: int)
    ensures Part((req - tw) * (k * 7) / 8, 7 * ((req - tw) * k), 8)
  {
    assert (req - tw) * (k * 7) == 7 * ((req - tw) * k);
  }

  lemma FewerChecks(req: nat, k: int)
    requires req > 0 && k >= 1 && !Low(req, k)
    ensures var r := Max(MinSkip(req), k * 3 / 4);
            r < k && (r + 1) * req > 5_000_000 && (Part(r, 3 * k, 4) || Lowest(req, r))
  {
    var r := Max(MinSkip(req), k * 3 / 4);
    LowIs(req, k);
    MulMono(MinSkip(req) + 1, r + 1, req);
  }

  lemma MoreChecks(req: nat, k: int)
    requires req > 0
    ensures var r := Min(MaxSkip(req), (k * 5 + 3) / 4);
            && r * req <= 1_000_000_000
            && (Part(r, 5 * k + 3, 4) || (Highest(req, r) && 4 * r <= 5 * k + 3))
  {
    var r := Min(MaxSkip(req), (k * 5 + 3) / 4);
    LowIs(req, k);
    MulMono(r, MaxSkip(req), req);
  }

  /** Round obeys the control law, for every requested time and every reading. */
  lemma RoundControls(req: nat, l: Limiter, now: int)
    requires req > 0 && l.skip >= 1 && l.ts >= 0
    ensures Controls(req, l, Round(req, l, now), now)
  {
    var tw := Measured(l, now);
    TimeMeasured(l, now);
    LowIs(req, l.skip);
    if TooSlow(req, tw) {
      if l.ts > 0 { LessSleep(req, tw, l); } else { MoreChecks(req, l.skip); }
    } else if TooFast(req, tw) {
      if Low(req, l.skip) { SevenEighths(req, tw, l.skip); } else { FewerChecks(req, l.skip); }
    }
  }

  lemma LessSleep(req: nat, tw: int, l: Limiter)
    requires TooSlow(req, tw) && l.skip >= 1 && l.ts > 0
    ensures var excess := (tw - req) * l.skip;
            var ts := Max(0, l.ts - excess / 2);
            && 0 <= ts <= l.ts && (excess >= 2 ==> ts < l.ts)
            && (if ts > 0 then Part(l.ts - ts, excess, 2) else 2 * l.ts <= excess)
  {
    ProductNonNeg(tw - req, l.skip);
  }

  // ---------------------------------------------------------------- bounds

  lemma SkipRange(req: nat)
    requires 3 <= req <= SECOND
    ensures 1 <= MinSkip(req) <= MaxSkip(req) <= 333333333 && MinSkip(req) <= 1666666
  {
    DivBounds(FIVE_MS, req);
    DivAtLeast(SECOND, req, FIVE_MS / req);
    DivAtLeast(SECOND, req, 1);
    DivBounds(SECOND, req);
    if SECOND / req > 333333333 { MulMono(333333334, SECOND / req, req); MulMono(3, req, 333333334); }
    if FIVE_MS / req > 1666666 { MulMono(1666667, FIVE_MS / req, req); MulMono(3, req, 1666667); }
  }

  lemma FreshBounded(req: nat, now: int)
    requires 3 <= req <= SECOND
    ensures Bounded(req, Fresh(req, now)) && MinSkip(req) <= INT_MAX
  {
    SkipRange(req);
  }

  lemma MeasuredNonNeg(l: Limiter, now: int)
    requires l.skip >= 1 && l.tw >= 0 && now >= l.start
    ensures Measured(l, now) >= 0
  {
    DivNonNeg(now - l.start, l.skip);
    DivNonNeg(3 * (now - l.start), l.skip);
  }

  lemma ProductNonNeg(a: int, b: int)
    requires a >= 0 && b >= 0
    ensures a * b >= 0
  {
  }

  /** A measurement keeps every bound, evaluates no 32-bit overflow and never trips the assertion. */
  lemma RoundBounded(req: nat, l: Limiter, now: int)
    requires 3 <= req <= SECOND && Bounded(req, l) && now >= l.start
    ensures l.skip >= 1 && Bounded(req, Round(req, l, now)) && !Overflows(req, l, now)
    ensures Round(req, l, now).skip <= INT_MAX
  {
    SkipRange(req);
    MeasuredNonNeg(l, now);
    var tw := Measured(l, now);
    if TooFast(req, tw) { ProductNonNeg(req - tw, l.skip * 7); }
  }

  /** In the safe range a measurement is defined and leads back to a usable iteration count. */
  lemma RoundStays(req: nat, l: Limiter, now: int)
    requires 3 <= req <= SECOND && Bounded(req, l) && now >= l.start
    ensures l.skip >= 1 && !Overflows(req, l, now) && !Trips(req, l, now)
    ensures Bounded(req, Round(req, l, now)) && 1 <= Round(req, l, now).skip <= INT_MAX
  {
    RoundBounded(req, l, now);
    SkipRange(req);
  }

  /** Whatever the requested time, no quantity becomes negative. */
  lemma RoundSane(req: nat, l: Limiter, now: int)
    requires req > 0 && l.skip >= 1 && l.tw >= 0 && l.ts >= 0 && now >= l.start
    ensures var r := Round(req, l, now); r.tw >= 0 && r.ts >= 0 && r.skip >= 0
  {
    MeasuredNonNeg(l, now);
    DivNonNeg(SECOND, req);
    var tw := Measured(l, now);
    if TooFast(req, tw) { ProductNonNeg(req - tw, l.skip * 7); }
  }

  // ---------------------------------------------------------------- exactly when the limiter is safe

  /** Along these clock readings, as long as they do not run backwards, nothing overflows and skip stays positive. */
  predicate Clean(req: nat, l: Limiter, nows: seq<int>)
    requires req > 0
    decreases |nows|
  {
    && l.skip >= 1
    && (nows != [] && nows[0] >= l.start ==>
        !Overflows(req, l, nows[0]) && Clean(req, Round(req, l, nows[0]), nows[1..]))
  }

  lemma {:induction false} BoundedClean(req: nat, l: Limiter, nows: seq<int>)
    requires 3 <= req <= SECOND && Bounded(req, l)
    ensures Clean(req, l, nows)
    decreases |nows|
  {
    SkipRange(req);
    if nows != [] && nows[0] >= l.start {
      RoundBounded(req, l, nows[0]);
      BoundedClean(req, Round(req, l, nows[0]), nows[1..]);
    }
  }

  /** Reading the clock late enough looks like four nanoseconds or more per iteration. */
  lemma SlowReading(l: Limiter, d: int)
    requires l.skip >= 1 && l.tw >= 0 && d >= 4
    ensures Measured(l, l.start + d * l.skip) >= (if l.tw == 0 then d else 3 * d / 4)
  {
    DivAtLeast(d * l.skip, l.skip, d);
    DivAtLeast(3 * (d * l.skip), l.skip, 3 * d);
  }

  /** At one or two nanoseconds a slow loop drives the iteration count into overflow. */
  lemma {:induction false} GrowsUntilOverflow(req: nat, l: Limiter) returns (nows: seq<int>)
    requires 1 <= req <= 2 && l.skip >= 1 && l.tw >= 0 && l.ts == 0
    ensures !Clean(req, l, nows)
    decreases INT_MAX - l.skip
  {
    var now := l.start + 4 * l.skip;
    SlowReading(l, 4);
    assert TooSlow(req, Measured(l, now));
    if l.skip * 5 + 3 > INT_MAX {
      nows := [now];
    } else {
      var rest := GrowsUntilOverflow(req, Round(req, l, now));
      nows := [now] + rest;
      assert nows[1..] == rest;
    }
  }

  /** Above one second a single slow measurement sets the iteration count to zero. */
  lemma CountBecomesZero(req: nat, now: int) returns (nows: seq<int>)
    requires req > SECOND
    ensures !Clean(req, Fresh(req, now), nows)
  {
    DivSmall(SECOND, req);
    DivSmall(FIVE_MS, req);
    assert MaxSkip(req) == 0 && MinSkip(req) == 1;
    var l := Fresh(req, now);
    nows := [now + 2 * req];
    assert Measured(l, nows[0]) == 2 * req;
    assert Round(req, l, nows[0]).skip == 0;
  }

  lemma DivSmall(a: nat, k: nat)
    requires a < k
    ensures a / k == 0
  {
    DivBounds(a, k);
    if a / k >= 1 { MulMono(1, a / k, k); }
  }

  /** For every clock the limiter stays clean exactly if the requested time lies between 3 ns and 1 s. */
  lemma SafeRange(req: nat, now: int)
    requires req > 0
    ensures (forall nows :: Clean(req, Fresh(req, now), nows)) <==> 3 <= req <= SECOND
  {
    if 3 <= req <= SECOND {
      FreshBounded(req, now);
      forall nows ensures Clean(req, Fresh(req, now), nows) { BoundedClean(req, Fresh(req, now), nows); }
    } else if req < 3 {
      var nows := GrowsUntilOverflow(req, Fresh(req, now));
    } else {
      var nows := CountBecomesZero(req, now);
    }
  }

  // ---------------------------------------------------------------- the sleep time stays small

  function Longest(req: nat): nat { Max(FIVE_MS, req) }

  lemma PeriodBound(req: nat)
    requires 3 <= req <= SECOND
    ensures MinSkip(req) * req <= Longest(req)
  {
    DivBounds(FIVE_MS, req);
  }

  lemma PlainBound(d: int, k: int, f: int)
    requires k >= 1 && d / k + 1 <= f
    ensures d <= f * k
  {
    DivBounds(d, k);
    MulMono(d / k + 1, f, k);
  }

  lemma AveragedBound(x: int, d: int, k: int, f: int)
    requires k >= 1 && x >= 0 && (x + 3 * d / k) / 4 + 1 <= f
    ensures 3 * d <= 4 * (f * k)
  {
    var q := 3 * d / k;
    DivBounds(3 * d, k);
    assert q + 1 <= 4 * f;
    MulMono(q + 1, 4 * f, k);
    assert 4 * f * k == 4 * (f * k);
  }

  lemma ScaleBound(d: int, k: int, f: int, req: nat)
    requires k >= 1 && 3 * d <= 4 * (f * k) && 64 * f <= 63 * req
    ensures 48 * d <= 63 * (k * req)
  {
    MulMono(64 * f, 63 * req, k);
    assert 64 * f * k == 64 * (f * k) && 63 * req * k == 63 * (k * req);
  }

  /** If the last sleep lasted, a short measurement bounds it. */
  lemma ShortMeasurement(req: nat, l: Limiter, now: int)
    requires l.skip >= 1 && l.tw >= 0 && l.ts >= 0 && now >= l.start + l.ts && TooFast(req, Measured(l, now))
    ensures 48 * l.ts <= 63 * (l.skip * req)
  {
    var d, f := now - l.start, req * 63 / 64;
    assert d >= 0 && 3 * d <= 4 * (f * l.skip) by {
      if l.tw == 0 {
        PlainBound(d, l.skip, f);
        assert f * l.skip >= d >= 0;
      } else { AveragedBound(l.tw, d, l.skip, f); }
    }
    ScaleBound(d, l.skip, f, req);
  }

  predicate SleepBounded(req: nat, l: Limiter) { 16 * l.ts <= 35 * Longest(req) }

  lemma IncrementBound(req: nat, tw: int, k: int)
    requires 0 <= tw <= req && k >= 1
    ensures 16 * ((req - tw) * (k * 7) / 8) <= 14 * (k * req)
  {
    MulMono(req - tw, req, k * 7);
    assert req * (k * 7) == 7 * (k * req);
  }

  lemma RoundSleep(req: nat, l: Limiter, now: int)
    requires 3 <= req <= SECOND && Bounded(req, l) && SleepBounded(req, l) && now >= l.start + l.ts
    ensures l.skip >= 1 && SleepBounded(req, Round(req, l, now))
  {
    SkipRange(req);
    var tw := Measured(l, now);
    MeasuredNonNeg(l, now);
    if TooSlow(req, tw) {
      ProductNonNeg(tw - req, l.skip);
    } else if TooFast(req, tw) && l.skip <= MinSkip(req) {
      ShortMeasurement(req, l, now);
      IncrementBound(req, tw, l.skip);
      PeriodBound(req);
    }
  }

  /** The limiter after measurements at these times. */
  function Rounds(req: nat, l: Limiter, nows: seq<int>): Limiter
    requires 3 <= req <= SECOND && Bounded(req, l) && Slept(req, l, nows)
    decreases |nows|
  {
    if nows == [] then l
    else
      RoundBounded(req, l, nows[0]);
      Rounds(req, Round(req, l, nows[0]), nows[1..])
  }

  /** The clock never runs backwards and every sleep lasts at least as long as asked for. */
  predicate Slept(req: nat, l: Limiter, nows: seq<int>)
    requires 3 <= req <= SECOND && Bounded(req, l)
    decreases |nows|
  {
    nows != [] ==>
      nows[0] >= l.start + l.ts && (RoundBounded(req, l, nows[0]); Slept(req, Round(req, l, nows[0]), nows[1..]))
  }

  lemma {:induction false} RoundsSleep(req: nat, l: Limiter, nows: seq<int>)
    requires 3 <= req <= SECOND && Bounded(req, l) && SleepBounded(req, l) && Slept(req, l, nows)
    ensures SleepBounded(req, Rounds(req, l, nows)) && Bounded(req, Rounds(req, l, nows))
    decreases |nows|
  {
    if nows == [] {
    } else {
      RoundBounded(req, l, nows[0]);
      RoundSleep(req, l, nows[0]);
      RoundsSleep(req, Round(req, l, nows[0]), nows[1..]);
    }
  }

  /** No run asks for a sleep of three times the longer of 5 ms and the requested time. */
  lemma SleepStaysSmall(req: nat, now: int, nows: seq<int>)
    requires 3 <= req <= SECOND
    requires (FreshBounded(req, now); Slept(req, Fresh(req, now), nows))
    ensures (FreshBounded(req, now); Rounds(req, Fresh(req, now), nows).ts < 3 * Max(FIVE_MS, req))
  {
    FreshBounded(req, now);
    RoundsSleep(req, Fresh(req, now), nows);
  }

  // ---------------------------------------------------------------- the limiter limits

  /** The first measurement of a loop that is too fast asks for a sleep, of 7/8 of what is missing in the period. */
  lemma FirstSleep(req: nat, start: int, now: int)
    requires req > 0 && start <= now
    ensures var l := Fresh(req, start);
            TooFast(req, Measured(l, now)) ==>
              && Round(req, l, now).ts >= 1
              && Part(Round(req, l, now).ts, 7 * ((req - Measured(l, now)) * MinSkip(req)), 8)
  {
    var l := Fresh(req, start);
    var tw := Measured(l, now);
    RoundControls(req, l, now);
    LowIs(req, l.skip);
    if TooFast(req, tw) {
      assert req - tw >= 2;
      MulMono(2, req - tw, l.skip);
    }
  }

  /** There is such a loop for every requested time but one nanosecond: one that takes no time at all. */
  lemma SomeClockSleeps(req: nat, start: int)
    requires req >= 2
    ensures Round(req, Fresh(req, start), start).ts >= 1
  {
    assert Measured(Fresh(req, start), start) == 0;
    FirstSleep(req, start, start);
  }

  lemma PeriodAtLeast(req: nat)
    requires 3 <= req <= SECOND
    ensures 2 * (MinSkip(req) * req) >= Longest(req)
  {
    LowIs(req, MinSkip(req));
    DivBounds(FIVE_MS, req);
    if req <= FIVE_MS { DivAtLeast(FIVE_MS, req, 1); }
  }

  /** A measurement at the lowest count that is too fast adds at least a 150th of the period to the sleep. */
  lemma SleepGrows(req: nat, l: Limiter, now: int)
    requires 3 <= req <= SECOND && Bounded(req, l) && l.skip == MinSkip(req) && now >= l.start
    requires TooFast(req, Measured(l, now))
    ensures var r := Round(req, l, now); r.skip == MinSkip(req) && 150 * (r.ts - l.ts) >= Longest(req)
  {
    var tw := Measured(l, now);
    RoundControls(req, l, now);
    LowIs(req, l.skip);
    PeriodAtLeast(req);
    MissingTime(req, req - tw, l.skip, Longest(req));
    LargePart(Round(req, l, now).ts - l.ts, (req - tw) * l.skip, Longest(req));
  }

  lemma MissingTime(req: nat, missing: int, k: int, longest: int)
    requires k >= 0 && 64 * missing >= req && 2 * (k * req) >= longest
    ensures 128 * (missing * k) >= longest
  {
    MulMono(req, 64 * missing, k);
    assert 64 * missing * k == 64 * (missing * k);
    assert k * req == req * k;
  }

  lemma LargePart(part: int, x: int, longest: int)
    requires Part(part, 7 * x, 8) && 128 * x >= longest >= FIVE_MS
    ensures 150 * part >= longest
  {
  }

  /** Every measurement finds the loop too fast. */
  predicate AlwaysTooFast(req: nat, l: Limiter, nows: seq<int>)
    requires 3 <= req <= SECOND && Bounded(req, l) && Slept(req, l, nows)
    decreases |nows|
  {
    nows != [] ==>
      && l.skip != 0 && TooFast(req, Measured(l, nows[0]))
      && (RoundBounded(req, l, nows[0]); AlwaysTooFast(req, Round(req, l, nows[0]), nows[1..]))
  }

  lemma {:induction false} SleepAfter(req: nat, l: Limiter, nows: seq<int>)
    requires 3 <= req <= SECOND && Bounded(req, l) && l.skip == MinSkip(req)
    requires Slept(req, l, nows) && AlwaysTooFast(req, l, nows)
    ensures 150 * Rounds(req, l, nows).ts >= 150 * l.ts + |nows| * Longest(req)
    decreases |nows|
  {
    if nows == [] {
    } else {
      RoundBounded(req, l, nows[0]);
      SleepGrows(req, l, nows[0]);
      SleepAfter(req, Round(req, l, nows[0]), nows[1..]);
      Distribute(|nows| - 1, Longest(req));
    }
  }

  lemma Distribute(n: int, k: int)
    ensures (n + 1) * k == n * k + k
  {
  }

  /**
   * If sleeps last, no limiter at its lowest count, and so no new one, finds its loop too fast more than 328 times in
   * a row, whatever the loop does.
   */
  lemma LimiterLimits(req: nat, l: Limiter, nows: seq<int>)
    requires 3 <= req <= SECOND && Bounded(req, l) && SleepBounded(req, l) && l.skip == MinSkip(req)
    requires Slept(req, l, nows) && AlwaysTooFast(req, l, nows)
    ensures |nows| <= 328
  {
    SleepAfter(req, l, nows);
    RoundsSleep(req, l, nows);
    if |nows| >= 329 { MulMono(329, |nows|, Longest(req)); }
  }
}
