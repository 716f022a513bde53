/** `Interval` of time/interval.rs. */
module IntervalClass {
  import opened Basics
  import opened IntervalSpec
  import S = SleepSpec
  import TimerSpec

  const NANOS_PER_MILLI := 1_000_000

  /** What a tick awaits: nothing, a yield, or a sleep. */
  datatype Await = Nothing | Yielding(ns: nat) | Sleeping(ns: nat)

  function AwaitUntil(target: int, later: int): Await {
    var remaining := if target > later then target - later else 0;
    if remaining / NANOS_PER_MILLI == 0 then Yielding(remaining) else Sleeping(remaining)
  }

  /** The sleep lasts until the target exactly, and is a yield if less than a millisecond is left. */
  lemma AwaitReaches(target: int, later: int)
    ensures !AwaitUntil(target, later).Nothing?
    ensures var a := AwaitUntil(target, later);
      a.ns == (if target > later then target - later else 0) && (a.Yielding? <==> a.ns < NANOS_PER_MILLI)
  {
  }

  /** A tick that completes does so less than a millisecond before its target at the earliest: the sleep it
      creates, at an instant not before its second reading of the clock, is ready no earlier, unless its
      deadline is 2^64 milliseconds or more after the start of the run. */
  lemma TickNotEarly(run: seq<S.World>, steps: seq<S.Step>, i: nat, k: nat, target: int, later: int, created: nat)
    requires S.IsRun(run, steps) && i < k < |steps| && later <= created
    requires var ns := AwaitUntil(target, later).ns;
      steps[i].DoNew? && steps[i].deadline == created + ns && steps[k].DoPoll? && steps[k].id == steps[i].id
    requires forall m :: i < m < k ==> !(S.Concerns(steps[m], steps[i].id) && !steps[m].DoPoll?)
    requires S.PollOf(run[k], steps[k]).ready
    ensures target < steps[k].now + TimerSpec.MS || steps[i].deadline >= run[0].time + U64 * TimerSpec.MS
  {
    AwaitReaches(target, later);
    S.DeadlineKept(run, steps, i, k, steps[i].id, steps[i].deadline);
    S.SleepNotEarly(run, steps, k);
  }

  /** The millisecond is real: with one nanosecond left, the tick yields once and completes at the same instant,
      before its target. */
  lemma TickMayBeEarly(waker: Waker, key: nat)
    ensures AwaitUntil(1, 0) == Yielding(1)
    ensures var s := S.New(1, S.Yield);
      var p := S.PollNap(S.NO_CLOCK, s, 0, waker, true, key);
      !p.ready && S.PollNap(p.clock, p.nap, 0, waker, true, key).ready
  {
  }

  class Interval {
    var period: nat
    var nextDeadline: Option<int>
    var missedTickBehavior: Behavior

    ghost function View(): Schedule
      reads this
    {
      Schedule(period, nextDeadline, missedTickBehavior)
    }

    constructor (p: nat)
      ensures View() == Schedule(p, None, Skip)
    {
      period, nextDeadline, missedTickBehavior := p, None, Skip;
    }

    method SetMissedTickBehavior(b: Behavior)
      modifies this`missedTickBehavior
      ensures View() == old(View()).(behavior := b)
    {
      missedTickBehavior := b;
    }

    method Reset()
      modifies this`nextDeadline
      ensures View() == old(View()).(next := None)
    {
      nextDeadline := None;
    }

    /** `later` is the second reading of the clock; the caller may drop the future while it awaits. */
    method Tick(now: int, later: int, dropped: bool) returns (outcome: Outcome, awaited: Await)
      modifies this`nextDeadline
      ensures View() == After(old(View()), Call(now, dropped), later)
      ensures outcome == Result(old(View()), Call(now, dropped))
      ensures awaited == if LateCatchUp(old(View()), now) then Nothing
                         else AwaitUntil(SkipTarget(Base(old(View()), now), now, period), later)
    {
      var baseNext := if nextDeadline.Some? then nextDeadline.value else now + period;
      if missedTickBehavior == Skip {
        var target := baseNext;
        if target <= now {
          if period == 0 {
            target := now;
          } else {
            target := AdvancePast(baseNext, now);
          }
        }
        awaited := AwaitUntil(target, later);
        if dropped {
          return Dropped, awaited;
        }
        nextDeadline := Some(target + period);
        return Ticks(1), awaited;
      }
      if baseNext > now {
        awaited := AwaitUntil(baseNext, later);
        if dropped {
          return Dropped, awaited;
        }
        nextDeadline := Some(baseNext + period);
        return Ticks(1), awaited;
      }
      awaited := Nothing;
      if period == 0 {
        nextDeadline := Some(later + period);
        return Ticks(1), awaited;
      }
      var missed := (now - baseNext) / period + 1;
      if missed > U64_MAX {
        return Overflowed, awaited;
      }
      var newNext := AdvanceBy(baseNext, missed);
      Distribute(missed, 1, period);
      nextDeadline := Some(newNext + period);
      return Ticks(missed), awaited;
    }

    /** The loop of a late tick under CatchUp. */
    method AdvanceBy(baseNext: int, missed: nat) returns (newNext: int)
      ensures newNext == baseNext + missed * period
    {
      newNext := baseNext;
      for i := 0 to missed
        invariant newNext == baseNext + i * period
      {
        newNext := newNext + period;
        Distribute(i, 1, period);
      }
    }

    /** The loop of a late skipping tick. */
    method AdvancePast(baseNext: int, now: int) returns (target: int)
      requires period > 0 && baseNext <= now
      ensures target == SkipTarget(baseNext, now, period)
    {
      target := baseNext;
      var cnt := 0;
      assert baseNext == baseNext + 0 * period;
      while target <= now
        invariant target == baseNext + cnt * period
        invariant 0 <= cnt <= Min(Missed(baseNext, now, period), U64_MAX)
        invariant cnt == U64_MAX ==> target > now
        decreases U64_MAX - cnt
      {
        MissedIsThreshold(baseNext, now, period, cnt);
        Distribute(cnt, 1, period);
        target := target + period;
        cnt := cnt + 1;
        if cnt == U64_MAX {
          break;
        }
      }
      MissedIsThreshold(baseNext, now, period, cnt);
    }
  }
}
