/** The `Sleep` future of time/sleep.rs.  `current` is the timer of the runtime that is entered, or null. */
module SleepClass {
  import opened Basics
  import opened WheelSpec
  import opened TimerSpec
  import opened TimingWheelClass
  import opened TimerClass
  import opened SleepSpec

  ghost function Parts(timer: Timer?): set<object> {
    if timer == null then {} else {timer, timer.wheel}
  }

  class Sleep {
    const zeroBehavior: ZeroBehavior
    /** The timer of the runtime in which the future was first polled. */
    var timer: Timer?
    var handle: Option<Handle>
    var fired: bool
    var yieldScheduled: bool
    var deadline: nat

    ghost function View(): Nap
      reads this
    {
      Nap(timer != null, handle, fired, yieldScheduled, deadline, zeroBehavior)
    }

    /** The timer a poll uses. */
    ghost function Used(current: Timer?): Timer?
      reads this
    {
      if handle.Some? && current != null then current else if timer != null then timer else current
    }

    constructor (deadline: nat, zeroBehavior: ZeroBehavior)
      ensures timer == null && View() == New(deadline, zeroBehavior)
    {
      this.deadline, this.zeroBehavior := deadline, zeroBehavior;
      timer, handle, fired, yieldScheduled := null, None, false, false;
    }

    /** Cancels in the current timer, whichever it is. */
    method Reset(newDeadline: nat, current: Timer?)
      requires current != null ==> current.Valid()
      modifies this, Parts(current)
      ensures timer == old(timer)
      ensures current != null ==>
        current.Valid() && (current.Model(), View()) == ResetNap(old(current.Model()), old(View()), newDeadline, true)
      ensures current == null ==> View() == ResetNap(NO_CLOCK, old(View()), newDeadline, false).1
    {
      deadline, fired, yieldScheduled := newDeadline, false, false;
      if handle.Some? {
        var h := handle.value;
        handle := None;
        if current != null {
          current.Cancel(h);
        }
      }
    }

    /** A submission that entered no timer: ready at once, or after one yield that wakes the task. */
    method HandleImmediateWakeup() returns (ready: bool, woke: bool)
      modifies this`fired, this`yieldScheduled
      ensures ready <==> zeroBehavior.Immediate? || old(yieldScheduled)
      ensures ready ==> fired && !woke && yieldScheduled == old(yieldScheduled)
      ensures !ready ==> woke && yieldScheduled && fired == old(fired)
    {
      if zeroBehavior.Immediate? {
        fired := true;
        return true, false;
      }
      if yieldScheduled {
        fired := true;
        return true, false;
      }
      yieldScheduled := true;
      return false, true;
    }

    /** The first poll: enter the stored timer, or complete or yield without one. */
    method Schedule(ghost now: nat, waker: Waker, ghost inside: bool) returns (ready: bool, woke: bool, ghost key: nat)
      requires timer != null && timer.Valid() && !fired && handle.None?
      modifies this`handle, this`fired, this`yieldScheduled, Parts(timer)
      ensures timer.Valid() && timer.instant == old(timer.instant)
      ensures !ready && handle.Some? ==> key !in old(timer.Model()).wheel.live
      ensures Polled(timer.Model(), View(), ready, woke) == PollNap(old(timer.Model()), old(View()), now, waker, inside, key)
    {
      hide TimingWheelClass.Ok; hide TimingWheelClass.Table; hide TimerSpec.Inv;
      key := 0;
      handle, woke := timer.Submit(deadline, waker);
      if handle.Some? {
        return false, woke, handle.value.index;
      }
      var again: bool;
      ready, again := HandleImmediateWakeup();
      woke := woke || again;
    }

    /** A poll of a sleep that has a handle: its deadline has come, or the wake-up was spurious and the
        current timer is entered under the new waker. */
    method Repoll(now: nat, waker: Waker, current: Timer?, ghost used: Timer) returns (ready: bool, woke: bool, ghost key: nat)
      requires !fired && timer != null && handle.Some? && used.Valid() && (current != null ==> used == current)
      modifies this`handle, this`fired, Parts(current)
      ensures used.Valid() && used.instant == old(used.instant)
      ensures !ready && handle.Some? ==> key !in TimerSpec.Cancel(old(used.Model()), old(handle).value).wheel.live
      ensures Polled(used.Model(), View(), ready, woke) == PollNap(old(used.Model()), old(View()), now, waker, current != null, key)
    {
      hide TimingWheelClass.Ok; hide TimingWheelClass.Table; hide TimerSpec.Inv;
      if deadline <= now {
        fired, handle := true, None;
        return true, false, 0;
      }
      var h := handle.value;
      handle := None;
      if current == null {
        return false, false, 0;
      }
      current.Cancel(h);
      handle, woke := current.Submit(deadline, waker);
      if handle.Some? {
        return false, woke, handle.value.index;
      }
      fired := true;
      return true, woke, 0;
    }

    /** One poll at time `now`; `woke` says whether the poll itself called the task's waker, and `key` is the
        vacant key of the slab that the poll found. */
    method Poll(now: nat, waker: Waker, current: Timer?) returns (ready: bool, woke: bool, ghost key: nat)
      requires fired || timer != null || current != null          // otherwise the program panics
      requires Used(current) != null ==> Used(current).Valid() && Used(current).instant <= now
      requires handle.Some? ==> timer != null && !fired
      modifies this, Parts(Used(current))
      ensures timer == if old(timer) == null && !old(fired) then current else old(timer)
      ensures old(fired) ==> ready && !woke && View() == old(View())
      ensures var used := old(Used(current)); used != null ==>
        && used.Valid() && used.instant == old(used.instant)
        && (!ready && handle.Some? ==> key !in BeforeEntry(old(used.Model()), old(View())).wheel.live)
        && Polled(used.Model(), View(), ready, woke) == PollNap(old(used.Model()), old(View()), now, waker, current != null, key)
      // When it is ready a full millisecond early, or more.
      ensures var used := old(Used(current)); used != null && !old(fired) && now + MS <= deadline ==>
        (ready <==> && Millis(deadline, used.instant) >= U64
                    && if old(handle).Some? then current != null else zeroBehavior.Immediate? || old(yieldScheduled))
      // A due sleep is ready, after the one poll that may yield.
      ensures deadline <= now && old(handle).Some? ==> ready
      ensures var used := old(Used(current));
        (used != null && old(handle).None? && deadline <= now && deadline < used.instant + MS
         && (zeroBehavior.Immediate? || old(yieldScheduled))) ==> ready
      // When a pending poll leaves its waker armed, or has called it.
      ensures var used := old(Used(current)); used != null && !ready ==>
        (Armed(used.Model(), handle, waker, deadline) || woke <==> current != null || old(handle).None?)
    {
      hide TimingWheelClass.Ok; hide TimingWheelClass.Table; hide TimerSpec.Inv; hide PollNap; hide Armed;
      ghost var used, s := Used(current), View();
      ghost var c := if used == null then NO_CLOCK else used.Model();
      PollFlags(c, s, now, waker, current != null);
      if fired {
        return true, false, 0;
      }
      if timer == null {
        timer := current;
      }
      if handle.None? {
        ready, woke, key := Schedule(now, waker, current != null);
      } else {
        ready, woke, key := Repoll(now, waker, current, used);
      }
      PollKeeps(c, s, now, waker, current != null, key);
      if deadline <= now {
        DueIsReady(c, s, now, waker, current != null, key);
      }
      if now + MS <= deadline {
        EarlyIff(c, s, now, waker, current != null, key);
      }
      if !ready {
        PendingIff(c, s, now, waker, current != null, key);
      }
    }

    /** Cancels in the stored timer. */
    method Drop()
      requires timer != null ==> timer.Valid()
      modifies this`handle, this`timer, Parts(timer)
      ensures handle == None
      ensures var t := old(timer); t != null ==> t.Valid() && t.Model() == DropNap(old(t.Model()), old(View()))
    {
      if handle.Some? {
        var h := handle.value;
        handle := None;
        if timer != null {
          timer.Cancel(h);
          timer := null;
        }
      }
    }
  }
}
