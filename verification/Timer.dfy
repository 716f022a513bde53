/** `Timer` of timer.rs: the wheel with the instant of its latest spin. */
module TimerClass {
  import opened Basics
  import opened WheelSpec
  import opened TimerSpec
  import opened TimingWheelClass

  function AtLeastOne(n: nat): nat {
    if n == 0 then 1 else n
  }

  /** The wait a spin returns: at least a millisecond, and no longer than to the earliest timer. */
  ghost predicate IsWait(w: Wheel, wait: Option<nat>) {
    && (wait.None? <==> w.live == map[])
    && (wait.Some? ==>
          && (forall i :: i in w.live ==> wait.value <= AtLeastOne(Delay(w.live[i].expiration, w.now)))
          && (exists i :: i in w.live && wait.value == AtLeastOne(Delay(w.live[i].expiration, w.now))))
  }

  lemma EarliestIsWait(w: Wheel, min: nat)
    requires Earliest(w.live, Some(min))
    ensures IsWait(w, Some(AtLeastOne(Delay(min, w.now))))
  {
    var i :| i in w.live && w.live[i].expiration == min;
    assert i in w.live && AtLeastOne(Delay(min, w.now)) == AtLeastOne(Delay(w.live[i].expiration, w.now));
  }

  class Timer {
    const wheel: TimingWheel
    var instant: nat
    ghost var deadlines: map<nat, nat>

    // An equation, so that callers see the invariant as a unit.
    ghost predicate Valid()
      reads this, wheel
    {
      wheel.Valid() && Inv(Model()) == true
    }

    ghost function Model(): Clock
      reads this, wheel
    {
      Clock(instant, wheel.View(), deadlines)
    }

    constructor (now: nat)
      ensures Valid() && fresh(wheel) && Model() == Clock(now, EMPTY, map[])
    {
      instant, deadlines := now, map[];
      wheel := new TimingWheel();
    }

    /** `woke` says that the waker was called at once. */
    method Submit(deadline: nat, waker: Waker) returns (h: Option<Handle>, woke: bool)
      requires Valid()
      modifies this, wheel
      ensures Valid()
      ensures h.Some? <==> Accepts(old(Model()), deadline)
      ensures woke <==> Millis(deadline, instant) < 1
      ensures h.None? ==> Model() == old(Model())
      ensures h.Some? ==>
        && h.value.index !in old(Model()).wheel.live
        && Model() == TimerSpec.Submit(old(Model()), h.value.index, deadline, waker)
        && Names(Model().wheel, h.value) && Model().wheel.live[h.value.index].waker == waker
    {
      hide Inv; hide Ok; hide Table;
      ghost var before := Model();
      var millis := if deadline <= instant then 0 else (deadline - instant) / MS;
      if millis >= U64 {
        return None, false;
      }
      if millis < 1 {
        return None, true;
      }
      var handle := wheel.Insert(waker, wheel.currentTick + millis);
      assert handle.index !in before.wheel.live;
      deadlines := deadlines[handle.generation := deadline];
      SubmitInv(before, handle.index, deadline, waker);
      assert Model() == TimerSpec.Submit(before, handle.index, deadline, waker);
      return Some(handle), false;
    }

    method Cancel(h: Handle)
      requires Valid()
      modifies this, wheel
      ensures Valid() && Model() == TimerSpec.Cancel(old(Model()), h)
    {
      hide Inv; hide Ok; hide Table;
      CancelInv(Model(), h);
      wheel.Remove(h);
    }

    method SpinAndGetDeadline(now: nat)
      returns (wait: Option<nat>, wokenUp: bool, wakers: seq<Waker>, ghost fired: seq<nat>)
      requires Valid() && instant <= now
      modifies this, wheel
      ensures Valid() && Model() == TimerSpec.Spin(old(Model()), now)
      ensures IsWait(Model().wheel, wait)
      ensures FiredWakers(old(Model()).wheel, SpinTicks(old(Model()), now), wakers, fired)
      ensures wokenUp <==> wakers != []
    {
      hide Inv; hide Ok; hide Table;
      ghost var before := Model();
      SpinInv(before, now);
      var empty := wheel.IsEmpty();
      if empty {
        NothingFires(before.wheel);
        instant := now;
        return None, false, [], [];
      }
      var elapsed := now - instant;
      instant := now;
      wakers, fired := wheel.Advance(elapsed / MS);
      wokenUp := |wakers| > 0;
      var nowTick := wheel.currentTick;
      var nearest := wheel.NearestWakeup();
      assert Model() == TimerSpec.Spin(before, now);
      if nearest.None? {
        NoneMeansEmpty(Model(), wheel.minExpiration);
        wait := None;
      } else {
        EarliestIsWait(wheel.View(), nearest.value);
        wait := Some(AtLeastOne(if nearest.value <= nowTick then 0 else nearest.value - nowTick));
      }
    }
  }

  /** No timer expires at tick 0, so `nearest_wakeup` finds none only in an empty wheel. */
  lemma NoneMeansEmpty(c: Clock, min: Option<nat>)
    requires Inv(c) && Earliest(c.wheel.live, min) && (min.None? || min == Some(0))
    ensures c.wheel.live == map[]
  {
  }
}
