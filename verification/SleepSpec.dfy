/** Any number of `Sleep` futures (time/sleep.rs) over the timers of any number of runtimes of one thread:
    polled, reset and dropped in any order, between spins of the timers. */
module SleepSpec {
  import opened Basics
  import opened WheelSpec
  import opened TimerSpec

  datatype ZeroBehavior = Immediate | Yield

  /** The fields of a `Sleep`; `attached` says that it has stored the runtime's timer. */
  datatype Nap = Nap(attached: bool, handle: Option<Handle>, fired: bool, yieldScheduled: bool, deadline: nat, zero: ZeroBehavior)

  /** What a poll leaves and returns; `woke` says that it called the task's waker itself. */
  datatype Polled = Polled(clock: Clock, nap: Nap, ready: bool, woke: bool)

  function New(deadline: nat, zero: ZeroBehavior): Nap {
    Nap(false, None, false, false, deadline, zero)
  }

  /** One poll at time `now`, on the timer it uses.  `inside` says whether a runtime is entered; `key` is the
      slab's vacant key, used if a timer is entered. */
  function PollNap(c: Clock, s: Nap, now: nat, waker: Waker, inside: bool, key: nat): Polled {
    if s.fired then Polled(c, s, true, false)
    else
      var s := s.(attached := true);
      if s.handle.None? then
        if Accepts(c, s.deadline) then Entered(c, s, waker, key)
        else if s.zero.Immediate? || s.yieldScheduled then Polled(c, s.(fired := true), true, Millis(s.deadline, c.instant) < 1)
        else Polled(c, s.(yieldScheduled := true), false, true)
      else if s.deadline <= now then Polled(c, s.(fired := true, handle := None), true, false)
      else if !inside then Polled(c, s.(handle := None), false, false)
      else
        var c1 := Cancel(c, s.handle.value);
        if Accepts(c1, s.deadline) then Entered(c1, s, waker, key)
        else Polled(c1, s.(fired := true, handle := None), true, Millis(s.deadline, c.instant) < 1)
  }

  function Entered(c: Clock, s: Nap, waker: Waker, key: nat): Polled {
    Polled(Submit(c, key, s.deadline, waker), s.(handle := Some(Handle(key, c.wheel.issued + 1))), false, false)
  }

  /** The timer that a poll submits to. */
  function BeforeEntry(c: Clock, s: Nap): Clock {
    if s.handle.Some? then Cancel(c, s.handle.value) else c
  }

  function ResetNap(c: Clock, s: Nap, deadline: nat, inside: bool): (Clock, Nap) {
    (if s.handle.Some? && inside then Cancel(c, s.handle.value) else c,
     s.(deadline := deadline, handle := None, fired := false, yieldScheduled := false))
  }

  function DropNap(c: Clock, s: Nap): Clock {
    if s.handle.Some? && s.attached then Cancel(c, s.handle.value) else c
  }

  /** `handle` names a live timer that will call `waker` for `deadline`. */
  ghost predicate Armed(c: Clock, handle: Option<Handle>, waker: Waker, deadline: nat) {
    && handle.Some? && Names(c.wheel, handle.value)
    && c.wheel.live[handle.value.index].waker == waker
    && handle.value.generation in c.deadlines && c.deadlines[handle.value.generation] == deadline
  }

  // ---------------------------------------------------------------------------------------
  // One poll

  /** A poll a full millisecond or more before the deadline is ready if and only if the delay does not fit
      in 64 bits of milliseconds and the poll is not the one that yields, nor one outside the runtime. */
  lemma EarlyIff(c: Clock, s: Nap, now: nat, waker: Waker, inside: bool, key: nat)
    requires !s.fired && c.instant <= now && now + MS <= s.deadline
    ensures PollNap(c, s, now, waker, inside, key).ready <==>
      && Millis(s.deadline, c.instant) >= U64
      && if s.handle.Some? then inside else s.zero.Immediate? || s.yieldScheduled
  {
  }

  /** A poll at or after the deadline is ready if the sleep has a handle; without one, if the timer has come
      within a millisecond of the deadline and the sleep has not to yield first. */
  lemma DueIsReady(c: Clock, s: Nap, now: nat, waker: Waker, inside: bool, key: nat)
    requires c.instant <= now && s.deadline <= now
    ensures s.handle.Some? ==> PollNap(c, s, now, waker, inside, key).ready
    ensures s.handle.None? && s.deadline < c.instant + MS && (s.zero.Immediate? || s.yieldScheduled) ==>
      PollNap(c, s, now, waker, inside, key).ready
  {
  }

  /** Once the timer has been spun at or past the deadline, a poll is ready, or it is the one that yields: it
      calls the waker itself, and the next one is ready. */
  lemma DueOrYields(c: Clock, s: Nap, now: nat, waker: Waker, inside: bool, key: nat)
    requires s.deadline <= c.instant <= now
    ensures var p := PollNap(c, s, now, waker, inside, key);
      p.ready || (p.woke && s.zero.Yield? && !s.yieldScheduled && p.nap.yieldScheduled && p.nap.handle.None?)
  {
  }

  /** A completed sleep stays ready, and a poll that is ready completes it. */
  lemma ReadyIsFinal(c: Clock, s: Nap, now: nat, waker: Waker, inside: bool, key: nat)
    ensures var p := PollNap(c, s, now, waker, inside, key); (s.fired ==> p.ready) && (p.ready <==> p.nap.fired)
  {
  }

  /** A sleep of 2^64 milliseconds is ready at its first poll. */
  lemma HugeSleepIsEarly(waker: Waker, key: nat)
    ensures var s := New(U64 * MS, Immediate); var p := PollNap(Clock(0, EMPTY, map[]), s, 0, waker, true, key);
      p.ready && MS <= s.deadline
  {
  }

  /** A pending poll leaves the waker of this poll armed or has called it, if and only if it is not a
      repeated poll outside the runtime. */
  lemma PendingIff(c: Clock, s: Nap, now: nat, waker: Waker, inside: bool, key: nat)
    requires !PollNap(c, s, now, waker, inside, key).ready
    ensures var p := PollNap(c, s, now, waker, inside, key);
      Armed(p.clock, p.nap.handle, waker, p.nap.deadline) || p.woke <==> inside || s.handle.None?
  {
  }

  lemma PollFlags(c: Clock, s: Nap, now: nat, waker: Waker, inside: bool)
    ensures s.fired ==> PollNap(c, s, now, waker, inside, 0) == Polled(c, s, true, false)
    ensures forall key :: !s.fired ==>
      PollNap(c, s.(attached := true), now, waker, inside, key) == PollNap(c, s, now, waker, inside, key)
  {
  }

  lemma PollKeeps(c: Clock, s: Nap, now: nat, waker: Waker, inside: bool, key: nat)
    ensures PollNap(c, s, now, waker, inside, key).nap.deadline == s.deadline
  {
  }

  // ---------------------------------------------------------------------------------------
  // Runs

  /** `stored` is the timer each attached sleep keeps from its first poll; `home` is history, the timer that
      issued its latest handle. */
  datatype World = World(clocks: map<nat, Clock>, naps: map<nat, Nap>, stored: map<nat, nat>, home: map<nat, nat>, time: nat)

  /** `current` is the timer of the runtime that is entered, if any. */
  datatype Step =
    | DoRuntime(timer: nat)
    | DoNew(id: nat, deadline: nat, zero: ZeroBehavior)
    | DoPoll(id: nat, now: nat, waker: Waker, current: Option<nat>, key: nat)
    | DoReset(id: nat, deadline: nat, current: Option<nat>)
    | DoDrop(id: nat)
    | DoSpin(timer: nat, now: nat)

  /** The timer a poll uses: a repeated poll that of the current runtime, another one the stored timer. */
  function Used(w: World, id: nat, current: Option<nat>): Option<nat>
    requires id in w.naps
  {
    if w.naps[id].handle.Some? && current.Some? then current
    else if id in w.stored then Some(w.stored[id])
    else current
  }

  const NO_CLOCK := Clock(0, EMPTY, map[])

  function ClockAt(w: World, timer: Option<nat>): Clock {
    if timer.Some? && timer.value in w.clocks then w.clocks[timer.value] else NO_CLOCK
  }

  predicate Possible(w: World, step: Step) {
    match step
    case DoRuntime(timer) => timer !in w.clocks
    case DoNew(id, _, _) => id !in w.naps && id !in w.stored && id !in w.home
    case DoPoll(id, now, _, current, key) =>
      && id in w.naps && w.time <= now && (current.Some? ==> current.value in w.clocks)
      && (w.naps[id].fired || id in w.stored || current.Some?)      // otherwise the program panics
      && key !in BeforeEntry(ClockAt(w, Used(w, id, current)), w.naps[id]).wheel.live
    case DoReset(id, _, current) => id in w.naps && (current.Some? ==> current.value in w.clocks)
    case DoDrop(id) => id in w.naps
    case DoSpin(timer, now) => timer in w.clocks && w.time <= now && w.clocks[timer].instant <= now
  }

  function PollOf(w: World, step: Step): Polled
    requires step.DoPoll? && Possible(w, step)
  {
    PollNap(ClockAt(w, Used(w, step.id, step.current)), w.naps[step.id], step.now, step.waker, step.current.Some?, step.key)
  }

  function SetClock(w: World, timer: Option<nat>, c: Clock): map<nat, Clock> {
    if timer.Some? && timer.value in w.clocks then w.clocks[timer.value := c] else w.clocks
  }

  ghost function Do(w: World, step: Step): World
    requires Possible(w, step)
  {
    match step
    case DoRuntime(timer) => w.(clocks := w.clocks[timer := Clock(w.time, EMPTY, map[])])
    case DoNew(id, deadline, zero) => w.(naps := w.naps[id := New(deadline, zero)])
    case DoPoll(id, now, _, current, _) =>
      var p, used := PollOf(w, step), Used(w, id, current);
      World(SetClock(w, used, p.clock), w.naps[id := p.nap],
            if id in w.stored || w.naps[id].fired then w.stored else w.stored[id := current.value],
            if p.nap.handle.Some? && used.Some? then w.home[id := used.value] else w.home, now)
    case DoReset(id, deadline, current) =>
      var (c, s) := ResetNap(ClockAt(w, current), w.naps[id], deadline, current.Some?);
      w.(clocks := SetClock(w, current, c), naps := w.naps[id := s])
    case DoDrop(id) =>
      var stored := if id in w.stored then Some(w.stored[id]) else None;
      World(SetClock(w, stored, DropNap(ClockAt(w, stored), w.naps[id])), w.naps - {id}, w.stored - {id}, w.home - {id}, w.time)
    case DoSpin(timer, now) => w.(clocks := w.clocks[timer := Spin(w.clocks[timer], now)], time := now)
  }

  ghost predicate IsRun(run: seq<World>, steps: seq<Step>) {
    && |run| == |steps| + 1
    && run[0] == World(map[], map[], map[], map[], run[0].time)
    && forall k :: 0 <= k < |steps| ==> Possible(run[k], steps[k]) && run[k + 1] == Do(run[k], steps[k])
  }

  predicate HandleOk(c: Clock, h: Handle, deadline: nat) {
    h.generation <= c.wheel.issued && h.generation in c.deadlines && c.deadlines[h.generation] == deadline
  }

  ghost predicate ClockOk(c: Clock, start: nat, time: nat) {
    TimerSpec.Inv(c) && start <= c.instant <= time
  }

  /** A sleep's handle was issued for its deadline, by its home; a sleep that has completed was not early, or
      its deadline is 2^64 milliseconds or more after the start of the run. */
  predicate NapOk(w: World, start: nat, id: nat) {
    id in w.naps ==>
      var s := w.naps[id];
      && (s.attached <==> id in w.stored)
      && (id in w.stored ==> w.stored[id] in w.clocks)
      && (s.handle.Some? ==> s.attached && !s.fired && id in w.home && w.home[id] in w.clocks
                             && HandleOk(w.clocks[w.home[id]], s.handle.value, s.deadline))
      && (s.fired ==> s.deadline < w.time + MS || s.deadline >= start + U64 * MS)
  }

  predicate SameHandle(w: World, a: nat, b: nat) {
    && a in w.naps && b in w.naps && w.naps[a].handle.Some? && w.naps[b].handle.Some?
    && a in w.home && b in w.home && w.home[a] == w.home[b]
    && w.naps[a].handle.value.generation == w.naps[b].handle.value.generation
  }

  ghost predicate WorldInv(w: World, start: nat) {
    && start <= w.time
    && (forall t :: t in w.clocks ==> ClockOk(w.clocks[t], start, w.time))
    && (forall id: nat :: NapOk(w, start, id))
    && (forall a: nat, b: nat :: SameHandle(w, a, b) ==> a == b)
  }

  /** The timer moves on; handles issued stay issued. */
  predicate Later(c: Clock, c': Clock) {
    c.wheel.issued <= c'.wheel.issued
    && forall g :: g in c.deadlines && g <= c.wheel.issued ==> g in c'.deadlines && c'.deadlines[g] == c.deadlines[g]
  }

  lemma PollLater(c: Clock, s: Nap, now: nat, waker: Waker, inside: bool, key: nat)
    ensures Later(c, PollNap(c, s, now, waker, inside, key).clock)
  {
  }

  lemma PollClock(c: Clock, s: Nap, now: nat, waker: Waker, inside: bool, key: nat)
    requires TimerSpec.Inv(c) && key !in BeforeEntry(c, s).wheel.live
    ensures TimerSpec.Inv(PollNap(c, s, now, waker, inside, key).clock)
    ensures PollNap(c, s, now, waker, inside, key).clock.instant == c.instant
  {
    var c1 := BeforeEntry(c, s);
    if s.handle.Some? {
      CancelInv(c, s.handle.value);
    }
    SubmitInv(c1, key, s.deadline, waker);
    hide TimerSpec.Inv;
  }

  /** What a poll leaves: a handle is new, and a completion is not early. */
  lemma PollLeaves(c: Clock, s: Nap, now: nat, waker: Waker, inside: bool, key: nat)
    requires c.instant <= now && (s.handle.Some? ==> !s.fired)
    ensures var p := PollNap(c, s, now, waker, inside, key);
      && (p.nap.handle.Some? ==> !p.nap.fired && p.nap.handle.value.generation == c.wheel.issued + 1
                                 && HandleOk(p.clock, p.nap.handle.value, s.deadline))
      && (p.nap.fired && !s.fired ==> s.deadline < now + MS || s.deadline >= c.instant + U64 * MS)
      && (p.nap.attached <==> s.attached || !s.fired) && p.nap.deadline == s.deadline && (s.fired ==> p.nap == s)
      && (p.ready ==> p.nap.fired)
  {
  }

  /** What is known of a poll, without its cases. */
  lemma PollFacts(w: World, step: Step, start: nat)
    requires WorldInv(w, start) && step.DoPoll? && Possible(w, step)
    ensures var used, s, p := Used(w, step.id, step.current), w.naps[step.id], PollOf(w, step);
      var c := ClockAt(w, used);
      && NapOk(w, start, step.id) && (s.fired || (used.Some? && used.value in w.clocks)) && Later(c, p.clock)
      && (used.Some? ==> used.value in w.clocks && ClockOk(p.clock, start, step.now))
      && (p.nap.handle.Some? ==> !p.nap.fired && p.nap.handle.value.generation == c.wheel.issued + 1
                                 && HandleOk(p.clock, p.nap.handle.value, s.deadline))
      && (p.nap.fired ==> s.deadline < step.now + MS || s.deadline >= start + U64 * MS)
      && (p.nap.attached <==> s.attached || !s.fired) && p.nap.deadline == s.deadline && (s.fired ==> p.nap == s)
      && (p.ready ==> p.nap.fired)
  {
    var id, used, s := step.id, Used(w, step.id, step.current), w.naps[step.id];
    var c := ClockAt(w, used);
    assert NapOk(w, start, id);
    if used.Some? {
      assert ClockOk(c, start, w.time);
      PollClock(c, s, step.now, step.waker, step.current.Some?, step.key);
    }
    PollLeaves(c, s, step.now, step.waker, step.current.Some?, step.key);
    PollLater(c, s, step.now, step.waker, step.current.Some?, step.key);
    hide TimerSpec.Inv; hide PollNap;
  }

  lemma PollNapOk(w: World, step: Step, start: nat, o: nat)
    requires WorldInv(w, start) && step.DoPoll? && Possible(w, step)
    ensures NapOk(Do(w, step), start, o)
  {
    PollFacts(w, step, start);
    hide PollOf; hide TimerSpec.Inv;
    assert NapOk(w, start, o);
  }

  lemma PollApart(w: World, step: Step, start: nat, a: nat, b: nat)
    requires WorldInv(w, start) && step.DoPoll? && Possible(w, step) && SameHandle(Do(w, step), a, b)
    ensures a == b
  {
    PollFacts(w, step, start);
    hide PollOf; hide TimerSpec.Inv;
    assert NapOk(w, start, a) && NapOk(w, start, b);
    if a != step.id && b != step.id {
      assert SameHandle(w, a, b);
    }
  }

  lemma PollInv(w: World, step: Step, start: nat)
    requires WorldInv(w, start) && step.DoPoll? && Possible(w, step)
    ensures WorldInv(Do(w, step), start)
  {
    PollFacts(w, step, start);
    hide PollOf; hide TimerSpec.Inv; hide NapOk; hide SameHandle;
    var w' := Do(w, step);
    forall o: nat ensures NapOk(w', start, o) {
      PollNapOk(w, step, start, o);
    }
    forall a: nat, b: nat | SameHandle(w', a, b) ensures a == b {
      PollApart(w, step, start, a, b);
    }
    forall t | t in w'.clocks ensures ClockOk(w'.clocks[t], start, w'.time) {
      assert t in w.clocks ==> ClockOk(w.clocks[t], start, w.time);
    }
  }

  /** A cancellation, or any other move of one timer that issues nothing, keeps what is known of the sleeps. */
  lemma CancelWorld(w: World, timer: Option<nat>, h: Handle, start: nat)
    requires WorldInv(w, start)
    ensures WorldInv(w.(clocks := SetClock(w, timer, Cancel(ClockAt(w, timer), h))), start)
  {
    var w' := w.(clocks := SetClock(w, timer, Cancel(ClockAt(w, timer), h)));
    if timer.Some? && timer.value in w.clocks {
      assert ClockOk(w.clocks[timer.value], start, w.time);
      CancelInv(w.clocks[timer.value], h);
    }
    hide TimerSpec.Inv;
    forall o: nat ensures NapOk(w', start, o) {
      assert NapOk(w, start, o);
    }
    forall a: nat, b: nat | SameHandle(w', a, b) ensures a == b {
      assert SameHandle(w, a, b);
    }
  }

  /** A sleep that lets go of its handle, or of everything. */
  lemma LetGo(w: World, id: nat, s: Nap, start: nat)
    requires WorldInv(w, start) && id in w.naps && s.handle.None? && !s.fired && s.attached == w.naps[id].attached
    ensures WorldInv(w.(naps := w.naps[id := s]), start)
    ensures WorldInv(w.(naps := w.naps - {id}, stored := w.stored - {id}, home := w.home - {id}), start)
  {
    hide ClockOk;
    var w1, w2 := w.(naps := w.naps[id := s]), w.(naps := w.naps - {id}, stored := w.stored - {id}, home := w.home - {id});
    forall o: nat ensures NapOk(w1, start, o) && NapOk(w2, start, o) {
      assert NapOk(w, start, o) && NapOk(w, start, id);
    }
    forall a: nat, b: nat | SameHandle(w1, a, b) || SameHandle(w2, a, b) ensures a == b {
      assert SameHandle(w, a, b);
    }
  }

  lemma ResetInv(w: World, step: Step, start: nat)
    requires WorldInv(w, start) && step.DoReset? && Possible(w, step)
    ensures WorldInv(Do(w, step), start)
  {
    var s := w.naps[step.id];
    var s' := ResetNap(NO_CLOCK, s, step.deadline, false).1;
    hide WorldInv;
    if s.handle.Some? && step.current.Some? {
      CancelWorld(w, step.current, s.handle.value, start);
      LetGo(w.(clocks := SetClock(w, step.current, Cancel(ClockAt(w, step.current), s.handle.value))), step.id, s', start);
    } else {
      assert SetClock(w, step.current, ClockAt(w, step.current)) == w.clocks;
      LetGo(w, step.id, s', start);
    }
  }

  lemma DropInv(w: World, step: Step, start: nat)
    requires WorldInv(w, start) && step.DoDrop? && Possible(w, step)
    ensures WorldInv(Do(w, step), start)
  {
    var id, s := step.id, w.naps[step.id];
    var stored := if id in w.stored then Some(w.stored[id]) else None;
    var s' := s.(handle := None, fired := false);
    hide WorldInv;
    if s.handle.Some? && s.attached {
      CancelWorld(w, stored, s.handle.value, start);
      LetGo(w.(clocks := SetClock(w, stored, Cancel(ClockAt(w, stored), s.handle.value))), id, s', start);
    } else {
      assert SetClock(w, stored, ClockAt(w, stored)) == w.clocks;
      LetGo(w, id, s', start);
    }
  }

  lemma OthersInv(w: World, step: Step, start: nat)
    requires WorldInv(w, start) && Possible(w, step) && (step.DoRuntime? || step.DoNew? || step.DoSpin?)
    ensures WorldInv(Do(w, step), start)
  {
    if step.DoSpin? {
      assert ClockOk(w.clocks[step.timer], start, w.time);
      SpinInv(w.clocks[step.timer], step.now);
    }
    var w' := Do(w, step);
    assert step.DoRuntime? ==> ClockOk(w'.clocks[step.timer], start, w'.time);
    hide TimerSpec.Inv;
    forall t | t in w'.clocks ensures ClockOk(w'.clocks[t], start, w'.time) {
      assert t in w.clocks ==> ClockOk(w.clocks[t], start, w.time);
    }
    forall o: nat ensures NapOk(w', start, o) {
      assert NapOk(w, start, o);
    }
    forall a: nat, b: nat | SameHandle(w', a, b) ensures a == b {
      assert SameHandle(w, a, b);
    }
  }

  lemma StepInv(w: World, step: Step, start: nat)
    requires WorldInv(w, start) && Possible(w, step)
    ensures WorldInv(Do(w, step), start)
  {
    hide WorldInv; hide Do; hide Possible;
    match step
    case DoPoll(_, _, _, _, _) => PollInv(w, step, start);
    case DoReset(_, _, _) => ResetInv(w, step, start);
    case DoDrop(_) => DropInv(w, step, start);
    case _ => OthersInv(w, step, start);
  }

  lemma {:induction false} RunInv(run: seq<World>, steps: seq<Step>, k: nat)
    requires IsRun(run, steps) && k < |run|
    ensures WorldInv(run[k], run[0].time)
  {
    if k > 0 {
      RunInv(run, steps, k - 1);
      hide WorldInv; hide Do; hide Possible;
      StepInv(run[k - 1], steps[k - 1], run[0].time);
    }
  }

  // ---------------------------------------------------------------------------------------
  // What a task that awaits a sleep can rely on

  /** No sleep is ready a full millisecond or more before its deadline, at any poll of any run, unless the
      deadline is 2^64 milliseconds or more after the start of the run. */
  lemma SleepNotEarly(run: seq<World>, steps: seq<Step>, k: nat)
    requires IsRun(run, steps) && k < |steps| && steps[k].DoPoll? && PollOf(run[k], steps[k]).ready
    ensures var deadline := run[k].naps[steps[k].id].deadline; deadline < steps[k].now + MS || deadline >= run[0].time + U64 * MS
  {
    RunInv(run, steps, k);
    PollFacts(run[k], steps[k], run[0].time);
    hide WorldInv; hide PollOf;
  }

  /** The step calls the waker. */
  ghost predicate Calls(w: World, step: Step, waker: Waker)
    requires Possible(w, step)
  {
    match step
    case DoPoll(_, _, waker', _, _) => PollOf(w, step).woke && waker' == waker
    case DoSpin(timer, now) =>
      exists i :: i in Fired(w.clocks[timer].wheel, SpinTicks(w.clocks[timer], now)) && w.clocks[timer].wheel.live[i].waker == waker
    case _ => false
  }

  predicate Concerns(step: Step, id: nat) {
    match step
    case DoRuntime(_) => false
    case DoSpin(_, _) => false
    case _ => step.id == id
  }

  /** A handle and the timer it is presented to. */
  datatype Cancellation = Cancellation(timer: nat, handle: Handle)

  /** What the step cancels: a repeated poll and a reset go to the current timer, a drop to the stored one. */
  function CancelOf(w: World, step: Step): Option<Cancellation>
    requires Possible(w, step)
  {
    match step
    case DoPoll(id, now, _, current, _) =>
      var s := w.naps[id];
      if !s.fired && s.handle.Some? && now < s.deadline && current.Some? then Some(Cancellation(current.value, s.handle.value)) else None
    case DoReset(id, _, current) =>
      if w.naps[id].handle.Some? && current.Some? then Some(Cancellation(current.value, w.naps[id].handle.value)) else None
    case DoDrop(id) =>
      if w.naps[id].handle.Some? && w.naps[id].attached && id in w.stored then Some(Cancellation(w.stored[id], w.naps[id].handle.value)) else None
    case _ => None
  }

  /** The sleep's handle names a live timer at home, with this waker. */
  ghost predicate ArmedAtHome(w: World, id: nat, waker: Waker) {
    && id in w.naps && id in w.home && w.home[id] in w.clocks
    && Armed(w.clocks[w.home[id]], w.naps[id].handle, waker, w.naps[id].deadline)
  }

  /** The step presents the very handle of sleep `id` to the timer that issued it. */
  ghost predicate CancelsThat(w: World, step: Step, id: nat)
    requires Possible(w, step)
  {
    && id in w.naps && id in w.home && w.naps[id].handle.Some?
    && CancelOf(w, step) == Some(Cancellation(w.home[id], w.naps[id].handle.value))
  }

  /** A poll of one sleep leaves a timer of another armed if and only if it does not cancel it. */
  lemma PollSpares(c: Clock, s: Nap, now: nat, waker': Waker, inside: bool, key: nat, h: Handle, waker: Waker, deadline: nat)
    requires Armed(c, Some(h), waker, deadline) && HandleOk(c, h, deadline) && key !in BeforeEntry(c, s).wheel.live
    ensures Armed(PollNap(c, s, now, waker', inside, key).clock, Some(h), waker, deadline)
      <==> !(!s.fired && s.handle == Some(h) && now < s.deadline && inside)
  {
  }

  /** What another sleep does leaves a timer armed if and only if it does not present that very handle to
      that very timer. */
  lemma ArmedStepIff(w: World, step: Step, id: nat, waker: Waker, start: nat)
    requires WorldInv(w, start) && Possible(w, step) && !Concerns(step, id) && ArmedAtHome(w, id, waker) && !step.DoSpin?
    ensures id in Do(w, step).naps && Do(w, step).naps[id] == w.naps[id]
    ensures ArmedAtHome(Do(w, step), id, waker) <==> !CancelsThat(w, step, id)
  {
    assert NapOk(w, start, id);
    hide TimerSpec.Inv;
    var home, h, deadline := w.home[id], w.naps[id].handle.value, w.naps[id].deadline;
    if step.DoPoll? {
      var used, s := Used(w, step.id, step.current), w.naps[step.id];
      if used == Some(home) {
        PollSpares(w.clocks[home], s, step.now, step.waker, step.current.Some?, step.key, h, waker, deadline);
      }
      PollUnused(w, step, start);
      hide PollNap;
    }
  }

  /** A poll that cancels uses the current timer. */
  lemma PollUnused(w: World, step: Step, start: nat)
    requires WorldInv(w, start) && step.DoPoll? && Possible(w, step)
    ensures CancelOf(w, step).Some? ==> Used(w, step.id, step.current) == Some(CancelOf(w, step).value.timer)
  {
  }

  /** A spin leaves a timer armed or calls its waker. */
  lemma ArmedSpin(w: World, step: Step, id: nat, waker: Waker)
    requires Possible(w, step) && step.DoSpin? && ArmedAtHome(w, id, waker)
    ensures id in Do(w, step).naps && Do(w, step).naps[id] == w.naps[id]
    ensures ArmedAtHome(Do(w, step), id, waker) || Calls(w, step, waker)
  {
    var h := w.naps[id].handle.value;
    var c := w.clocks[step.timer];
    if step.timer == w.home[id] && h.index in Fired(c.wheel, SpinTicks(c, step.now)) {
      assert c.wheel.live[h.index].waker == waker;
    }
  }

  /** Over every run: from a pending poll on, until the sleep is polled again, reset or dropped, its latest
      handle names a live timer with the waker of that poll, or that waker has been called, or another sleep has
      presented that handle to that timer; whatever else the sleeps do and however the timers spin. */
  lemma {:induction false} PendingStaysArmed(run: seq<World>, steps: seq<Step>, j: nat, k: nat)
    requires IsRun(run, steps) && j < k < |run| && steps[j].DoPoll? && !PollOf(run[j], steps[j]).ready
    requires steps[j].current.Some? || run[j].naps[steps[j].id].handle.None?
    requires forall m :: j < m < k ==> !Concerns(steps[m], steps[j].id)
    ensures var id := steps[j].id;
      && id in run[k].naps
      && (|| ArmedAtHome(run[k], id, steps[j].waker)
          || (exists m :: j <= m < k && Calls(run[m], steps[m], steps[j].waker))
          || (exists m :: j < m < k && CancelsThat(run[m], steps[m], id)))
  {
    var id, waker := steps[j].id, steps[j].waker;
    if k == j + 1 {
      FirstArmed(run, steps, j);
      hide PollOf; hide ArmedAtHome;
    } else {
      PendingStaysArmed(run, steps, j, k - 1);
      RunInv(run, steps, k - 1);
      ConcernsOther(run[k - 1], steps[k - 1], id);
      hide WorldInv; hide PollOf; hide Calls; hide ArmedAtHome; hide CancelsThat; hide Do; hide Possible;
      if ArmedAtHome(run[k - 1], id, waker) {
        if steps[k - 1].DoSpin? {
          ArmedSpin(run[k - 1], steps[k - 1], id, waker);
        } else {
          ArmedStepIff(run[k - 1], steps[k - 1], id, waker, run[0].time);
        }
      }
    }
  }

  lemma FirstArmed(run: seq<World>, steps: seq<Step>, j: nat)
    requires IsRun(run, steps) && j < |steps| && steps[j].DoPoll? && !PollOf(run[j], steps[j]).ready
    requires steps[j].current.Some? || run[j].naps[steps[j].id].handle.None?
    ensures steps[j].id in run[j + 1].naps
    ensures ArmedAtHome(run[j + 1], steps[j].id, steps[j].waker) || Calls(run[j], steps[j], steps[j].waker)
  {
    var w, step := run[j], steps[j];
    RunInv(run, steps, j);
    PollFacts(w, step, run[0].time);
    var c := ClockAt(w, Used(w, step.id, step.current));
    PendingIff(c, w.naps[step.id], step.now, step.waker, step.current.Some?, step.key);
    hide PollNap; hide WorldInv;
  }

  lemma ConcernsOther(w: World, step: Step, id: nat)
    requires Possible(w, step) && id in w.naps && !Concerns(step, id)
    ensures id in Do(w, step).naps
  {
  }

  // ---------------------------------------------------------------------------------------
  // Sleeps that stay with their runtime

  /** A repeated poll or a reset inside a runtime finds the timer that the sleep has stored. */
  predicate Loyal(w: World, step: Step) {
    match step
    case DoPoll(id, _, _, current, _) =>
      id in w.naps && w.naps[id].handle.Some? && current.Some? && id in w.stored ==> current.value == w.stored[id]
    case DoReset(id, _, current) =>
      id in w.naps && w.naps[id].handle.Some? && current.Some? && id in w.stored ==> current.value == w.stored[id]
    case _ => true
  }

  /** Every handle was issued by the timer its sleep has stored. */
  predicate AtHome(w: World) {
    forall id :: id in w.naps && w.naps[id].handle.Some? ==> id in w.stored && id in w.home && w.home[id] == w.stored[id]
  }

  lemma LoyalStep(w: World, step: Step, start: nat)
    requires WorldInv(w, start) && Possible(w, step) && Loyal(w, step) && AtHome(w)
    ensures AtHome(Do(w, step))
  {
    hide TimerSpec.Inv;
    if step.DoPoll? {
      PollFacts(w, step, start);
      hide PollOf;
      assert NapOk(w, start, step.id);
    }
  }

  lemma LoyalSpares(w: World, step: Step, id: nat, start: nat)
    requires WorldInv(w, start) && Possible(w, step) && Loyal(w, step) && AtHome(w) && !Concerns(step, id)
    ensures !CancelsThat(w, step, id)
  {
    hide TimerSpec.Inv;
    if CancelOf(w, step).Some? {
      assert CancelsThat(w, step, id) ==> SameHandle(w, step.id, id);
    }
  }

  lemma {:induction false} LoyalRun(run: seq<World>, steps: seq<Step>, k: nat)
    requires IsRun(run, steps) && k < |run| && forall m :: 0 <= m < k ==> Loyal(run[m], steps[m])
    ensures AtHome(run[k])
  {
    if k > 0 {
      LoyalRun(run, steps, k - 1);
      RunInv(run, steps, k - 1);
      hide WorldInv; hide Do; hide Possible; hide AtHome; hide Loyal;
      LoyalStep(run[k - 1], steps[k - 1], run[0].time);
    }
  }

  /** In runs in which every sleep stays with its runtime, a pending sleep is armed or its waker was called. */
  lemma LoyalStaysArmed(run: seq<World>, steps: seq<Step>, j: nat, k: nat)
    requires IsRun(run, steps) && j < k < |run| && steps[j].DoPoll? && !PollOf(run[j], steps[j]).ready
    requires steps[j].current.Some? || run[j].naps[steps[j].id].handle.None?
    requires forall m :: j < m < k ==> !Concerns(steps[m], steps[j].id)
    requires forall m :: 0 <= m < k ==> Loyal(run[m], steps[m])
    ensures || ArmedAtHome(run[k], steps[j].id, steps[j].waker)
            || exists m :: j <= m < k && Calls(run[m], steps[m], steps[j].waker)
  {
    PendingStaysArmed(run, steps, j, k);
    hide PollOf; hide ArmedAtHome; hide Calls; hide Do;
    forall m | j < m < k ensures !CancelsThat(run[m], steps[m], steps[j].id) {
      RunInv(run, steps, m);
      LoyalRun(run, steps, m);
      hide WorldInv; hide AtHome; hide Loyal; hide CancelsThat; hide Possible;
      LoyalSpares(run[m], steps[m], steps[j].id, run[0].time);
    }
  }

  // A sleep of five milliseconds, before and after its first poll at time 0 in an empty timer.

  const AWAKE := New(5 * MS, Immediate)
  const ASLEEP := Nap(true, Some(Handle(0, 1)), false, false, 5 * MS, Immediate)

  function Holding(waker: Waker): Clock {
    Clock(0, Wheel(0, 1, map[0 := LiveTimer(waker, 5, 1, 0)]), map[1 := 5 * MS])
  }

  lemma FirstEntry(w: World, id: nat, timer: nat, waker: Waker)
    requires w.time == 0 && timer in w.clocks && w.clocks[timer] == NO_CLOCK && id in w.naps && w.naps[id] == AWAKE && id !in w.stored
    ensures var step := DoPoll(id, 0, waker, Some(timer), 0);
      && Possible(w, step) && !PollOf(w, step).ready && !PollOf(w, step).woke
      && Do(w, step) == World(w.clocks[timer := Holding(waker)], w.naps[id := ASLEEP], w.stored[id := timer], w.home[id := timer], 0)
  {
    assert Millis(5 * MS, 0) == 5;
  }

  /** Two sleeps wait on the timers of two runtimes, under handles that look the same. */
  ghost function Twins(waker: Waker): World {
    World(map[0 := Holding(waker), 1 := Holding(waker)], map[0 := ASLEEP, 1 := ASLEEP], map[0 := 0, 1 := 1], map[0 := 0, 1 := 1], 0)
  }

  lemma TwinsReached(waker: Waker) returns (run: seq<World>, steps: seq<Step>)
    ensures IsRun(run, steps) && |steps| == 6 && run[6] == Twins(waker)
    ensures steps[5] == DoPoll(1, 0, waker, Some(1), 0) && !PollOf(run[5], steps[5]).ready && !PollOf(run[5], steps[5]).woke
  {
    steps := [DoRuntime(0), DoRuntime(1), DoNew(0, 5 * MS, Immediate), DoPoll(0, 0, waker, Some(0), 0),
              DoNew(1, 5 * MS, Immediate), DoPoll(1, 0, waker, Some(1), 0)];
    hide PollNap;
    var w0 := World(map[], map[], map[], map[], 0);
    var w1, w2 := w0.(clocks := map[0 := NO_CLOCK]), w0.(clocks := map[0 := NO_CLOCK, 1 := NO_CLOCK]);
    var w3 := w2.(naps := map[0 := AWAKE]);
    FirstEntry(w3, 0, 0, waker);
    var w4 := Do(w3, steps[3]);
    var w5 := w4.(naps := w4.naps[1 := AWAKE]);
    FirstEntry(w5, 1, 1, waker);
    hide PollOf;
    run := [w0, w1, w2, w3, w4, w5, Do(w5, steps[5])];
  }

  /** A run that is not loyal: from there, the first sleep is reset while the second runtime is entered, and
      the second sleep is no longer armed, nor was its waker called. */
  lemma DisloyalStrands(waker: Waker) returns (run: seq<World>, steps: seq<Step>)
    ensures IsRun(run, steps) && |steps| == 7 && steps[5] == DoPoll(1, 0, waker, Some(1), 0) && !PollOf(run[5], steps[5]).ready
    ensures steps[6] == DoReset(0, 0, Some(1)) && !Loyal(run[6], steps[6])
    ensures ArmedAtHome(run[6], 1, waker) && !ArmedAtHome(run[7], 1, waker)
    ensures !Calls(run[5], steps[5], waker) && !Calls(run[6], steps[6], waker)
  {
    run, steps := TwinsReached(waker);
    var step := DoReset(0, 0, Some(1));
    assert Possible(Twins(waker), step) && !Loyal(Twins(waker), step) && ArmedAtHome(Twins(waker), 1, waker);
    assert !ArmedAtHome(Do(Twins(waker), step), 1, waker);
    run, steps := run + [Do(Twins(waker), step)], steps + [step];
    hide Do; hide Possible; hide PollOf; hide Loyal; hide ArmedAtHome;
  }

  // ---------------------------------------------------------------------------------------
  // A due sleep completes, and a reset one waits for its new deadline

  lemma OthersLeave(w: World, step: Step, id: nat)
    requires Possible(w, step) && id in w.naps && !Concerns(step, id)
    ensures id in Do(w, step).naps && Do(w, step).naps[id] == w.naps[id]
  {
  }

  lemma {:induction false} NapKept(run: seq<World>, steps: seq<Step>, j: nat, k: nat, id: nat)
    requires IsRun(run, steps) && j <= k < |run| && id in run[j].naps
    requires forall m :: j <= m < k ==> !Concerns(steps[m], id)
    ensures id in run[k].naps && run[k].naps[id] == run[j].naps[id]
  {
    hide Do; hide Possible; hide Concerns;
    if j < k {
      NapKept(run, steps, j, k - 1, id);
      OthersLeave(run[k - 1], steps[k - 1], id);
    }
  }

  /** The timer a poll uses has been spun at or past the deadline of the sleep. */
  predicate SpunPast(w: World, step: Step) {
    step.DoPoll? && Possible(w, step) && w.naps[step.id].deadline <= ClockAt(w, Used(w, step.id, step.current)).instant <= step.now
  }

  /** Over every run: of two polls in a row of one sleep, made after the timer they use was spun at or past its
      deadline, the second is ready; and if the first is not, it called the waker itself. */
  lemma DueSleepCompletes(run: seq<World>, steps: seq<Step>, i: nat, j: nat)
    requires IsRun(run, steps) && i < j < |steps| && SpunPast(run[i], steps[i]) && SpunPast(run[j], steps[j])
    requires steps[i].id == steps[j].id && forall m :: i < m < j ==> !Concerns(steps[m], steps[i].id)
    ensures PollOf(run[i], steps[i]).ready || PollOf(run[i], steps[i]).woke
    ensures PollOf(run[j], steps[j]).ready
  {
    var id := steps[i].id;
    var c := ClockAt(run[i], Used(run[i], id, steps[i].current));
    DueOrYields(c, run[i].naps[id], steps[i].now, steps[i].waker, steps[i].current.Some?, steps[i].key);
    ReadyIsFinal(c, run[i].naps[id], steps[i].now, steps[i].waker, steps[i].current.Some?, steps[i].key);
    PollKeeps(c, run[i].naps[id], steps[i].now, steps[i].waker, steps[i].current.Some?, steps[i].key);
    assert run[i + 1].naps[id] == PollOf(run[i], steps[i]).nap;
    NapKept(run, steps, i + 1, j, id);
    var c' := ClockAt(run[j], Used(run[j], id, steps[j].current));
    DueOrYields(c', run[j].naps[id], steps[j].now, steps[j].waker, steps[j].current.Some?, steps[j].key);
    ReadyIsFinal(c', run[j].naps[id], steps[j].now, steps[j].waker, steps[j].current.Some?, steps[j].key);
  }

  /** The step gives the sleep a deadline: its creation, or a reset. */
  predicate SetsDeadline(step: Step, id: nat, deadline: nat) {
    (step.DoNew? || step.DoReset?) && step.id == id && step.deadline == deadline
  }

  lemma DeadlineSet(w: World, step: Step, id: nat, deadline: nat)
    requires Possible(w, step) && SetsDeadline(step, id, deadline)
    ensures id in Do(w, step).naps
    ensures var s := Do(w, step).naps[id]; s.deadline == deadline && s.handle.None? && !s.fired && !s.yieldScheduled
  {
  }

  lemma DeadlineStep(w: World, step: Step, id: nat)
    requires Possible(w, step) && id in w.naps && !(Concerns(step, id) && !step.DoPoll?)
    ensures id in Do(w, step).naps && Do(w, step).naps[id].deadline == w.naps[id].deadline
  {
  }

  /** A sleep waits for the deadline of its creation or its latest reset, and has started over there. */
  lemma {:induction false} DeadlineKept(run: seq<World>, steps: seq<Step>, j: nat, k: nat, id: nat, deadline: nat)
    requires IsRun(run, steps) && j < k < |run| && SetsDeadline(steps[j], id, deadline)
    requires forall m :: j < m < k ==> !(Concerns(steps[m], id) && !steps[m].DoPoll?)
    ensures id in run[k].naps && run[k].naps[id].deadline == deadline
    ensures k == j + 1 ==> run[k].naps[id].handle.None? && !run[k].naps[id].fired && !run[k].naps[id].yieldScheduled
  {
    hide Do; hide Possible; hide Concerns; hide SetsDeadline;
    if k == j + 1 {
      DeadlineSet(run[j], steps[j], id, deadline);
    } else {
      DeadlineKept(run, steps, j, k - 1, id, deadline);
      DeadlineStep(run[k - 1], steps[k - 1], id);
    }
  }

  /** The first poll after a reset is judged by the new deadline alone: it is ready a millisecond or more before
      that only if the delay does not fit in 64 bits, and if it is pending, the new deadline is armed or the
      waker was called. */
  lemma ResetWaitsForNew(run: seq<World>, steps: seq<Step>, j: nat, k: nat, id: nat, deadline: nat)
    requires IsRun(run, steps) && j < k < |steps| && SetsDeadline(steps[j], id, deadline)
    requires steps[k].DoPoll? && steps[k].id == id && forall m :: j < m < k ==> !Concerns(steps[m], id)
    ensures var c, p := ClockAt(run[k], Used(run[k], id, steps[k].current)), PollOf(run[k], steps[k]);
      && (p.ready && c.instant <= steps[k].now && steps[k].now + MS <= deadline ==> Millis(deadline, c.instant) >= U64)
      && (!p.ready ==> Armed(p.clock, p.nap.handle, steps[k].waker, deadline) || p.woke)
  {
    DeadlineKept(run, steps, j, j + 1, id, deadline);
    NapKept(run, steps, j + 1, k, id);
    var c, s := ClockAt(run[k], Used(run[k], id, steps[k].current)), run[k].naps[id];
    if c.instant <= steps[k].now && steps[k].now + MS <= deadline {
      EarlyIff(c, s, steps[k].now, steps[k].waker, steps[k].current.Some?, steps[k].key);
    }
    if !PollOf(run[k], steps[k]).ready {
      PendingIff(c, s, steps[k].now, steps[k].waker, steps[k].current.Some?, steps[k].key);
      PollKeeps(c, s, steps[k].now, steps[k].waker, steps[k].current.Some?, steps[k].key);
    }
    hide PollNap; hide Do; hide Armed;
  }

  /** A sleep that is dropped, or reset or polled again inside a runtime, leaves no timer under its old handle,
      if it stays with its runtime. */
  lemma LeavesNothing(run: seq<World>, steps: seq<Step>, k: nat)
    requires IsRun(run, steps) && k < |steps| && CancelOf(run[k], steps[k]).Some?
    requires forall m :: 0 <= m <= k ==> Loyal(run[m], steps[m])
    ensures var x := CancelOf(run[k], steps[k]).value; var id := steps[k].id;
      && id in run[k].home && x.timer == run[k].home[id] && Some(x.handle) == run[k].naps[id].handle
      && x.timer in run[k + 1].clocks && !Names(run[k + 1].clocks[x.timer].wheel, x.handle)
  {
    RunInv(run, steps, k);
    LoyalRun(run, steps, k);
    assert NapOk(run[k], run[0].time, steps[k].id);
    hide TimerSpec.Inv;
  }
}
