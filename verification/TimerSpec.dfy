/** `Timer` of timer.rs over WheelSpec: real deadlines in nanoseconds, mapped to ticks of one
    millisecond.  The clock is monotone; its readings are parameters. */
module TimerSpec {
  import opened Basics
  import opened WheelSpec

  const MS: nat := 1_000_000

  /** `deadlines` records, for each generation, the deadline it was submitted with. */
  datatype Clock = Clock(instant: nat, wheel: Wheel, deadlines: map<nat, nat>)

  /** `deadline.saturating_duration_since(instant).as_millis()` */
  function Millis(deadline: nat, instant: nat): nat {
    if deadline <= instant then 0 else (deadline - instant) / MS
  }

  /** A submission enters the wheel if its delay is at least a millisecond and fits in a u64. */
  predicate Accepts(c: Clock, deadline: nat) {
    1 <= Millis(deadline, c.instant) < U64
  }

  function Submit(c: Clock, index: nat, deadline: nat, waker: Waker): Clock {
    if Accepts(c, deadline) then
      Clock(c.instant, Insert(c.wheel, index, waker, c.wheel.now + Millis(deadline, c.instant)),
            c.deadlines[c.wheel.issued + 1 := deadline])
    else c
  }

  function Cancel(c: Clock, h: Handle): Clock {
    c.(wheel := Remove(c.wheel, h))
  }

  /** How many ticks a spin at time `t` advances the wheel by. */
  function SpinTicks(c: Clock, t: nat): nat
    requires c.instant <= t
  {
    if c.wheel.live == map[] then 0 else (t - c.instant) / MS
  }

  ghost function Spin(c: Clock, t: nat): Clock
    requires c.instant <= t
  {
    Clock(t, Advance(c.wheel, SpinTicks(c, t)), c.deadlines)
  }

  // ---------------------------------------------------------------------------------------
  // Not early

  /** When the wheel reaches the timer's expiration, less than a millisecond is missing to its
      deadline. */
  predicate OnCourse(c: Clock, t: LiveTimer) {
    && t.generation in c.deadlines
    && c.deadlines[t.generation] + MS * c.wheel.now < c.instant + MS * t.expiration + MS
  }

  ghost predicate Inv(c: Clock) {
    && WindowInv(c.wheel)
    && forall i :: i in c.wheel.live ==>
        && c.wheel.live[i].placed < c.wheel.live[i].expiration
        && c.wheel.live[i].generation <= c.wheel.issued
        && OnCourse(c, c.wheel.live[i])
  }

  lemma MillisRounds(deadline: nat, instant: nat)
    ensures deadline < instant + MS * Millis(deadline, instant) + MS
    ensures deadline >= instant ==> instant + MS * Millis(deadline, instant) <= deadline
  {
  }

  lemma SubmitInv(c: Clock, index: nat, deadline: nat, waker: Waker)
    requires Inv(c) && index !in c.wheel.live
    ensures Inv(Submit(c, index, deadline, waker))
  {
    if Accepts(c, deadline) {
      var expiration := c.wheel.now + Millis(deadline, c.instant);
      StepWindow(c.wheel, DoInsert(index, waker, expiration));
      MillisRounds(deadline, c.instant);
      var c' := Submit(c, index, deadline, waker);
      forall i | i in c'.wheel.live ensures OnCourse(c', c'.wheel.live[i]) {
        if i != index {
          assert OnCourse(c, c.wheel.live[i]);
        }
      }
    }
  }

  /** What a submission enters: its waker and its deadline, for the last tick that does not lie beyond the
      deadline. */
  lemma SubmitExact(c: Clock, index: nat, deadline: nat, waker: Waker)
    requires Accepts(c, deadline)
    ensures var c', h := Submit(c, index, deadline, waker), Handle(index, c.wheel.issued + 1);
      && Names(c'.wheel, h) && c'.wheel.live[index].waker == waker && c'.deadlines[h.generation] == deadline
      && var ticks := c'.wheel.live[index].expiration - c.wheel.now;
         c.instant + MS * ticks <= deadline < c.instant + MS * ticks + MS
  {
    MillisRounds(deadline, c.instant);
  }

  /** A cancelled handle names nothing, and nothing else changes. */
  lemma CancelExact(c: Clock, h: Handle, i: nat)
    ensures !Names(Cancel(c, h).wheel, h) && Cancel(c, h).instant == c.instant && Cancel(c, h).deadlines == c.deadlines
    ensures i in c.wheel.live && Handle(i, c.wheel.live[i].generation) != h ==>
      i in Cancel(c, h).wheel.live && Cancel(c, h).wheel.live[i] == c.wheel.live[i]
    ensures Cancel(c, h).wheel.now == c.wheel.now && Cancel(c, h).wheel.issued == c.wheel.issued
  {
  }

  lemma CancelInv(c: Clock, h: Handle)
    requires Inv(c)
    ensures Inv(Cancel(c, h))
  {
    StepWindow(c.wheel, DoRemove(h));
  }

  lemma SpinInv(c: Clock, t: nat)
    requires Inv(c) && c.instant <= t
    ensures Inv(Spin(c, t))
  {
    var ticks := SpinTicks(c, t);
    StepWindow(c.wheel, DoAdvance(ticks));
    var c' := Spin(c, t);
    forall i | i in c'.wheel.live ensures OnCourse(c', c'.wheel.live[i]) {
      assert OnCourse(c, c.wheel.live[i]);
    }
  }

  /** A spin wakes no timer a full millisecond or more before its deadline. */
  lemma SpinNotEarly(c: Clock, t: nat, i: nat)
    requires Inv(c) && c.instant <= t && i in Fired(c.wheel, SpinTicks(c, t))
    ensures c.deadlines[c.wheel.live[i].generation] < t + MS
  {
    assert OnCourse(c, c.wheel.live[i]);
  }

  /** Operations on the timer; `at` is the clock reading of a spin. */
  datatype Call = DoSubmit(index: nat, deadline: nat, waker: Waker) | DoCancel(h: Handle) | DoSpin(at: nat)

  predicate Possible(c: Clock, call: Call) {
    match call
    case DoSubmit(index, _, _) => index !in c.wheel.live
    case DoCancel(_) => true
    case DoSpin(at) => c.instant <= at
  }

  ghost function Do(c: Clock, call: Call): Clock
    requires Possible(c, call)
  {
    match call
    case DoSubmit(index, deadline, waker) => Submit(c, index, deadline, waker)
    case DoCancel(h) => Cancel(c, h)
    case DoSpin(at) => Spin(c, at)
  }

  ghost predicate IsRun(run: seq<Clock>, calls: seq<Call>) {
    && |run| == |calls| + 1
    && run[0] == Clock(run[0].instant, EMPTY, map[])
    && forall k :: 0 <= k < |calls| ==> Possible(run[k], calls[k]) && run[k + 1] == Do(run[k], calls[k])
  }

  lemma {:induction false} RunInv(run: seq<Clock>, calls: seq<Call>, k: nat)
    requires IsRun(run, calls) && k < |run|
    ensures Inv(run[k])
  {
    if k > 0 {
      RunInv(run, calls, k - 1);
      match calls[k - 1]
      case DoSubmit(index, deadline, waker) => SubmitInv(run[k - 1], index, deadline, waker);
      case DoCancel(h) => CancelInv(run[k - 1], h);
      case DoSpin(at) => SpinInv(run[k - 1], at);
    }
  }

  /** Over every run of submissions, cancellations and spins, no timer is woken a full millisecond
      or more before the deadline it was submitted with. */
  lemma NeverEarly(run: seq<Clock>, calls: seq<Call>, k: nat, i: nat)
    requires IsRun(run, calls) && k < |calls| && calls[k].DoSpin?
    requires i in Fired(run[k].wheel, SpinTicks(run[k], calls[k].at))
    ensures run[k].wheel.live[i].generation in run[k].deadlines
    ensures run[k].deadlines[run[k].wheel.live[i].generation] < calls[k].at + MS
  {
    RunInv(run, calls, k);
    SpinNotEarly(run[k], calls[k].at, i);
  }

  // ---------------------------------------------------------------------------------------
  // How late

  /** Over every run: a live timer is at most 61 ticks overdue, one less than the wheel alone allows, because
      a timer is submitted for a later tick. */
  lemma TimerWindow(run: seq<Clock>, calls: seq<Call>, k: nat, i: nat)
    requires IsRun(run, calls) && k < |run| && i in run[k].wheel.live
    ensures run[k].wheel.now <= run[k].wheel.live[i].expiration + SLOTS - 3
  {
    RunInv(run, calls, k);
    var t := run[k].wheel.live[i];
    assert Unswept(t, run[k].wheel.now);
    if t.placed + SLOTS - 1 <= run[k].wheel.now {
      FullTurn(t.placed, run[k].wheel.now - t.placed, Delay(t.expiration, t.placed));
    }
  }

  /** The bound is reached: with a longer timer running, one submitted at tick 2 for tick 3 is still live at
      tick 64. */
  lemma TimerWindowIsTight() returns (run: seq<Clock>, calls: seq<Call>)
    ensures IsRun(run, calls) && |calls| == 4
    ensures 1 in run[4].wheel.live && run[4].wheel.now == run[4].wheel.live[1].expiration + SLOTS - 3
  {
    calls := [DoSubmit(0, 1000 * MS, 7), DoSpin(2 * MS), DoSubmit(1, 3 * MS, 7), DoSpin(64 * MS)];
    var c0 := Clock(0, EMPTY, map[]);
    var c1 := Submit(c0, 0, 1000 * MS, 7);
    var long := LiveTimer(7, 1000, 1, 0);
    assert c1 == Clock(0, Wheel(0, 1, map[0 := long]), map[1 := 1000 * MS]);
    var c2 := Spin(c1, 2 * MS);
    LongTimerStays(c1.wheel, 2);
    assert SpinTicks(c1, 2 * MS) == 2 && c2.wheel == Wheel(2, 1, map[0 := long.(placed := 2)]);
    assert Millis(3 * MS, c2.instant) == 1;
    var c3 := Submit(c2, 1, 3 * MS, 7);
    var short := LiveTimer(7, 3, 2, 2);
    assert c3.wheel == Wheel(2, 2, c2.wheel.live[1 := short]);
    var c4 := Spin(c3, 64 * MS);
    NotSweptYet();
    assert !Touched(short, 2, 62);
    assert !Fires(c3.wheel, 62, 1);
    run := [c0, c1, c2, c3, c4];
  }

  lemma LongTimerStays(w: Wheel, ticks: nat)
    requires w == Wheel(0, 1, map[0 := LiveTimer(7, 1000, 1, 0)]) && 0 < ticks < 1000
    ensures Advance(w, ticks) == Wheel(ticks, 1, map[0 := LiveTimer(7, 1000, 1, ticks)])
  {
    assert !Fires(w, ticks, 0);
    assert Touched(w.live[0], 0, ticks);
  }

  /** Ticks 2 to 64 do not fall on slot 1. */
  lemma NotSweptYet()
    ensures !Swept(2, 62, 1)
  {
  }

  /** Real time that the ticks do not account for. */
  function Lag(c: Clock): int {
    c.instant - MS * c.wheel.now
  }

  /** A spin over live timers drops the part of a millisecond that has passed: the wheel keeps pace
      with real time if and only if that part is nothing. */
  lemma SpinLag(c: Clock, t: nat)
    requires c.instant <= t && c.wheel.live != map[]
    ensures Lag(Spin(c, t)) == Lag(c) + (t - c.instant) % MS
    ensures Lag(Spin(c, t)) == Lag(c) <==> (t - c.instant) % MS == 0
  {
  }

  /** A spin takes the clock's reading as the timer's instant; an empty wheel stays where it is. */
  lemma SpinReads(c: Clock, t: nat)
    requires c.instant <= t
    ensures Spin(c, t).instant == t && Spin(c, t).deadlines == c.deadlines
    ensures c.wheel.live == map[] ==> Spin(c, t).wheel == c.wheel
  {
  }

  /** Spins the given numbers of nanoseconds apart. */
  ghost function SpinAll(c: Clock, gaps: seq<nat>): Clock
    decreases |gaps|
  {
    if gaps == [] then c else SpinAll(Spin(c, c.instant + gaps[0]), gaps[1..])
  }

  /** Spins less than a millisecond apart never advance the wheel, so that no timer fires however
      much time they cover. */
  lemma {:induction false} FastSpinsFreeze(c: Clock, gaps: seq<nat>)
    requires forall k :: 0 <= k < |gaps| ==> gaps[k] < MS
    ensures SpinAll(c, gaps).wheel == c.wheel
    decreases |gaps|
  {
    if gaps != [] {
      assert Advance(c.wheel, 0).live == c.wheel.live;
      assert Spin(c, c.instant + gaps[0]).wheel == c.wheel;
      FastSpinsFreeze(Spin(c, c.instant + gaps[0]), gaps[1..]);
    }
  }
}
