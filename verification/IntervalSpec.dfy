/** The arithmetic of `Interval` (time/interval.rs): instants and periods in nanoseconds.  The deadlines are
    meant to stay on a lattice, a fixed instant plus whole periods. */
module IntervalSpec {
  import opened Basics

  const U64_MAX := U64 - 1

  datatype Behavior = Skip | CatchUp

  datatype Schedule = Schedule(period: nat, next: Option<int>, behavior: Behavior)

  /** What a tick gives: a count, nothing if the future was dropped while it slept, or a panic if the count
      does not fit. */
  datatype Outcome = Ticks(n: nat) | Dropped | Overflowed

  /** One call of `tick`: the clock at its start, and whether the caller drops it before it ends. */
  datatype Call = Call(now: int, dropped: bool)

  function Base(s: Schedule, now: int): int {
    if s.next.Some? then s.next.value else now + s.period
  }

  /** How many lattice points from `base` on have come by `now`. */
  function Missed(base: int, now: int, period: nat): int
    requires period > 0
  {
    if base > now then 0 else (now - base) / period + 1
  }

  /** The instant a skipping tick sleeps until. */
  function SkipTarget(base: int, now: int, period: nat): int {
    if base > now then base
    else if period == 0 then now
    else base + Min(Missed(base, now, period), U64_MAX) * period
  }

  /** A late tick under CatchUp: it returns at once. */
  predicate LateCatchUp(s: Schedule, now: int) {
    s.behavior == CatchUp && Base(s, now) <= now
  }

  function Result(s: Schedule, c: Call): Outcome {
    if !LateCatchUp(s, c.now) then
      if c.dropped then Dropped else Ticks(1)
    else if s.period == 0 then Ticks(1)
    else if Missed(Base(s, c.now), c.now, s.period) > U64_MAX then Overflowed
    else Ticks(Missed(Base(s, c.now), c.now, s.period))
  }

  /** The schedule after a call.  `later` is the second reading of the clock, used if the period is zero. */
  function After(s: Schedule, c: Call, later: int): Schedule {
    var base := Base(s, c.now);
    if !Result(s, c).Ticks? then s
    else if s.behavior == Skip then s.(next := Some(SkipTarget(base, c.now, s.period) + s.period))
    else if base > c.now then s.(next := Some(base + s.period))
    else if s.period == 0 then s.(next := Some(later))
    else s.(next := Some(base + (Missed(base, c.now, s.period) + 1) * s.period))
  }

  // ---------------------------------------------------------------------------------------
  // Lattice points

  /** Exactly the first `Missed` lattice points have come. */
  lemma MissedIsThreshold(base: int, now: int, period: nat, i: nat)
    requires period > 0
    ensures base + i * period <= now <==> i < Missed(base, now, period)
  {
    if base <= now {
      var q, r := (now - base) / period, (now - base) % period;
      assert now - base == q * period + r;
      if i <= q {
        assert i * period <= q * period;
      } else {
        assert i * period >= (q + 1) * period;
      }
    } else {
      assert i * period >= 0;
    }
  }

  function Range(n: nat): set<int> {
    if n == 0 then {} else Range(n - 1) + {n - 1}
  }

  lemma {:induction false} RangeSize(n: nat)
    ensures |Range(n)| == n && forall i :: i in Range(n) <==> 0 <= i < n
  {
    if n > 0 {
      RangeSize(n - 1);
    }
  }

  lemma PointNumber(base: int, now: int, period: nat, i: int)
    requires period > 0
    ensures 0 <= i <= now - base && base + i * period <= now <==> 0 <= i < Missed(base, now, period)
  {
    if i >= 0 {
      MissedIsThreshold(base, now, period, i);
      assert i * period >= i;
    }
  }

  /** The closed form counts the lattice points in [base, now]. */
  lemma CatchUpCountsLattice(base: int, now: int, period: nat)
    requires period > 0
    ensures Missed(base, now, period) == |set i | 0 <= i <= now - base && base + i * period <= now|
  {
    var points := set i | 0 <= i <= now - base && base + i * period <= now;
    var range := Range(Missed(base, now, period));
    RangeSize(Missed(base, now, period));
    forall i ensures i in points <==> i in range {
      PointNumber(base, now, period, i);
    }
    assert points == range;
  }

  /** What a tick returns: 1 if it is on time or skips, unless it was dropped; late under CatchUp, the number of
      lattice points in [base, now], unless that does not fit in 64 bits. */
  lemma TickGives(s: Schedule, c: Call)
    requires s.period > 0
    ensures var base := Base(s, c.now); var points := set i | 0 <= i <= c.now - base && base + i * s.period <= c.now;
      if s.behavior == Skip || points == {} then Result(s, c) == if c.dropped then Dropped else Ticks(1)
      else Result(s, c) == if |points| <= U64_MAX then Ticks(|points|) else Overflowed
  {
    var base := Base(s, c.now);
    var points := set i | 0 <= i <= c.now - base && base + i * s.period <= c.now;
    CatchUpCountsLattice(base, c.now, s.period);
    assert base <= c.now ==> 0 in points;
  }

  /** With a period of zero a completed tick returns 1, and the next deadline is the later of the old one and
      the clock: as first read when skipping, as read again under CatchUp. */
  lemma ZeroPeriod(s: Schedule, c: Call, later: int)
    requires s.period == 0 && c.now <= later && !c.dropped
    ensures Result(s, c) == Ticks(1) && After(s, c, later).next.Some?
    ensures var next := After(s, c, later).next.value;
      next == if Base(s, c.now) > c.now then Base(s, c.now) else if s.behavior == Skip then c.now else later
  {
  }

  /** A late skipping tick aims at the least lattice point after `now`, unless more than 2^64 - 1 periods
      were missed; then it aims at an instant that has passed. */
  lemma SkipIsLeast(base: int, now: int, period: nat)
    requires period > 0 && base <= now
    ensures SkipTarget(base, now, period) > now <==> Missed(base, now, period) <= U64_MAX
    ensures exists k: nat :: SkipTarget(base, now, period) == base + k * period
    ensures Missed(base, now, period) <= U64_MAX ==>
      forall k: nat :: base + k * period > now ==> base + k * period >= SkipTarget(base, now, period)
  {
    var m := Min(Missed(base, now, period), U64_MAX);
    MissedIsThreshold(base, now, period, m);
    if Missed(base, now, period) <= U64_MAX {
      forall k: nat | base + k * period > now ensures base + k * period >= SkipTarget(base, now, period) {
        MissedIsThreshold(base, now, period, k);
        assert k * period >= m * period;
      }
    }
  }

  // ---------------------------------------------------------------------------------------
  // Whole runs

  /** Any mix of behaviours and dropped calls; no `reset`, and a clock the schedule does not control. */
  datatype Step = Tick(call: Call, later: int) | SetBehavior(b: Behavior)

  function Do(s: Schedule, step: Step): Schedule {
    match step
    case Tick(c, later) => After(s, c, later)
    case SetBehavior(b) => s.(behavior := b)
  }

  ghost predicate IsRun(run: seq<Schedule>, steps: seq<Step>) {
    |run| == |steps| + 1 && forall k :: 0 <= k < |steps| ==> run[k + 1] == Do(run[k], steps[k])
  }

  function Given(s: Schedule, step: Step): nat {
    if step.Tick? && Result(s, step.call).Ticks? then Result(s, step.call).n else 0
  }

  /** The lattice points that a step passes without a tick: those a late skipping tick skips on purpose,
      and one for every late tick under CatchUp. */
  function Lost(s: Schedule, step: Step): int {
    if s.period == 0 || !step.Tick? || !Result(s, step.call).Ticks? then 0
    else if s.behavior == Skip then Min(Missed(Base(s, step.call.now), step.call.now, s.period), U64_MAX)
    else if LateCatchUp(s, step.call.now) then 1
    else 0
  }

  // The totals over the first `n` steps of a run.

  function GivenBy(run: seq<Schedule>, steps: seq<Step>, n: nat): int
    requires n <= |steps| < |run|
  {
    if n == 0 then 0 else GivenBy(run, steps, n - 1) + Given(run[n - 1], steps[n - 1])
  }

  function LostBy(run: seq<Schedule>, steps: seq<Step>, n: nat): int
    requires n <= |steps| < |run|
  {
    if n == 0 then 0 else LostBy(run, steps, n - 1) + Lost(run[n - 1], steps[n - 1])
  }

  /** One step moves the deadline by what it gave and what it lost. */
  lemma StepConserves(s: Schedule, step: Step)
    requires s.period > 0 && s.next.Some?
    ensures Do(s, step).next.Some? && Do(s, step).period == s.period
    ensures Do(s, step).next.value == s.next.value + (Given(s, step) + Lost(s, step)) * s.period
  {
  }

  /** Conservation: over any run that starts with a deadline, the deadline advances by exactly one period
      for every tick given and every lattice point lost.  So it stays on its lattice. */
  lemma {:induction false} Conservation(run: seq<Schedule>, steps: seq<Step>, n: nat)
    requires IsRun(run, steps) && n <= |steps| && run[0].period > 0 && run[0].next.Some?
    ensures run[n].period == run[0].period && run[n].next.Some?
    ensures run[n].next.value == run[0].next.value + (GivenBy(run, steps, n) + LostBy(run, steps, n)) * run[0].period
  {
    hide Do; hide Given; hide Lost;
    if n > 0 {
      Conservation(run, steps, n - 1);
      StepConserves(run[n - 1], steps[n - 1]);
      Distribute(GivenBy(run, steps, n - 1) + LostBy(run, steps, n - 1),
                 Given(run[n - 1], steps[n - 1]) + Lost(run[n - 1], steps[n - 1]), run[0].period);
    }
  }

  lemma Distribute(a: int, b: int, p: int)
    ensures a * p + b * p == (a + b) * p
  {
  }

  /** A schedule without a deadline gets one from its first completed tick, one period beyond the instant
      that tick waited for. */
  lemma FirstTick(s: Schedule, c: Call, later: int)
    requires s.next.None? && s.period > 0
    ensures After(s, c, later).next == if c.dropped then None else Some(c.now + 2 * s.period)
  {
  }

  /** A step loses nothing exactly when no tick completed in it or its tick was on time. */
  lemma LostIff(s: Schedule, step: Step)
    requires s.period > 0
    ensures Lost(s, step) >= 0
    ensures Lost(s, step) == 0 <==> OnTime(s, step)
  {
    if step.Tick? && Base(s, step.call.now) <= step.call.now {
      MissedIsThreshold(Base(s, step.call.now), step.call.now, s.period, 0);
    }
  }

  ghost predicate OnTime(s: Schedule, step: Step) {
    step.Tick? && Result(s, step.call).Ticks? ==> Base(s, step.call.now) > step.call.now
  }

  lemma {:induction false} LostByIff(run: seq<Schedule>, steps: seq<Step>, n: nat)
    requires IsRun(run, steps) && n <= |steps| && run[0].period > 0
    ensures run[n].period == run[0].period && LostBy(run, steps, n) >= 0
    ensures LostBy(run, steps, n) == 0 <==> forall k :: 0 <= k < n ==> OnTime(run[k], steps[k])
  {
    hide Lost; hide OnTime;
    if n > 0 {
      LostByIff(run, steps, n - 1);
      LostIff(run[n - 1], steps[n - 1]);
    }
  }

  /** Every lattice point is ticked for if and only if no completed tick of the run was late.  The
      description of CatchUp, that missed ticks are returned for the caller to run, would have it always. */
  lemma AllTickedIffOnTime(run: seq<Schedule>, steps: seq<Step>, n: nat)
    requires IsRun(run, steps) && n <= |steps| && run[0].period > 0 && run[0].next.Some?
    ensures run[n].next.Some?
    ensures run[n].next.value == run[0].next.value + GivenBy(run, steps, n) * run[0].period
      <==> forall k :: 0 <= k < n ==> OnTime(run[k], steps[k])
  {
    hide Do; hide OnTime;
    Conservation(run, steps, n);
    LostByIff(run, steps, n);
    Distribute(GivenBy(run, steps, n), LostBy(run, steps, n), run[0].period);
    assert LostBy(run, steps, n) > 0 ==> LostBy(run, steps, n) * run[0].period > 0;
  }

  /** A late tick under CatchUp passes over the first lattice point after `now`: the next deadline is the
      second one. */
  lemma CatchUpPassesOne(s: Schedule, now: int, later: int)
    requires s.period > 0 && LateCatchUp(s, now) && Result(s, Call(now, false)).Ticks?
    ensures var first := SkipTarget(Base(s, now), now, s.period);
      first > now && After(s, Call(now, false), later).next == Some(first + s.period)
  {
  }

  /** With a period of 10, a deadline of 10 and a tick at 10, one tick is given for two periods. */
  lemma CatchUpLosesTick()
    ensures var s := Schedule(10, Some(10), CatchUp);
      Result(s, Call(10, false)) == Ticks(1) && After(s, Call(10, false), 10).next == Some(30)
  {
  }
}
