/** A batch that fits in the inline queue starves the main queue: a run of WakeProtocol, from a new runtime,
    with any number of drains in which the first task of the main queue is never taken. */
module Starvation {
  import opened Basics
  import opened WakeProtocol
  import opened WaitBounds
  import R = ReadyQueues

  /** Task 0 is all there is in the main queue, with no remote task before it, and it is not in the batch. */
  predicate Starving(s: State) {
    s.q.main == [0] && s.q.remote == [] && 0 !in s.batch
  }

  // ---------------------------------------------------------------------------------------
  // Growing a trace

  datatype Trace = Trace(run: seq<State>, acts: seq<Action>)

  function Last(t: Trace): State
    requires |t.run| == |t.acts| + 1
  {
    t.run[|t.acts|]
  }

  /** A trace with `drains` drains and no push by another thread from `j` on; if `starved`, task 0 has been waiting all that time. */
  ghost predicate Good(t: Trace, batchSize: nat, j: nat, drains: nat, starved: bool) {
    && IsTrace(t.run, t.acts, batchSize) && j <= |t.acts|
    && Count(t.run, t.acts, j, |t.acts|).drains == drains && Count(t.run, t.acts, j, |t.acts|).pushes == 0
    && (starved ==> forall m :: j <= m < |t.run| ==> Starving(t.run[m]))
  }

  lemma {:induction false} CountPrefix(run: seq<State>, acts: seq<Action>, s: State, a: Action, j: nat, k: nat)
    requires j <= k <= |acts| < |run|
    ensures Count(run + [s], acts + [a], j, k) == Count(run, acts, j, k)
  {
    if j < k {
      CountPrefix(run, acts, s, a, j, k - 1);
    }
  }

  lemma Grow(t: Trace, batchSize: nat, j: nat, drains: nat, starved: bool, a: Action) returns (t': Trace)
    requires Good(t, batchSize, j, drains, starved) && Enabled(Last(t), a) && !a.WakerStep?
    requires starved ==> Starving(Apply(Last(t), a, batchSize))
    ensures |t'.run| == |t'.acts| + 1 && |t'.acts| == |t.acts| + 1
    ensures var s := Apply(Last(t), a, batchSize);
      Last(t') == s && Good(t', batchSize, j, drains + if Drained(Last(t), s) then 1 else 0, starved)
  {
    hide Enabled; hide Apply; hide Starving;
    var s := Apply(Last(t), a, batchSize);
    t' := Trace(t.run + [s], t.acts + [a]);
    CountPrefix(t.run, t.acts, s, a, j, |t.acts|);
    hide Drained;
    assert t'.run[|t.acts|] == Last(t) && t'.run[|t'.acts|] == s && t'.acts[|t.acts|] == a;
  }

  /** The tasks 1 to n. */
  function FirstTasks(n: nat): seq<TaskId>
    ensures |FirstTasks(n)| == n
    ensures forall k :: 0 <= k < n ==> FirstTasks(n)[k] == k + 1
  {
    seq(n, k => k + 1)
  }

  // ---------------------------------------------------------------------------------------
  // The states of a lap

  const SIGNALS := Signals(1, false, false, false, false)

  ghost function Busy(batchSize: nat): set<TaskId> {
    Elems(FirstTasks(batchSize))
  }

  ghost function At(pc: SchedPc, batch: seq<TaskId>, next: seq<TaskId>, queued: set<TaskId>, woken: set<TaskId>, batchSize: nat): State {
    State(pc, batch, map[], Queues(next, [], [0], queued), SIGNALS, History(Busy(batchSize) + {0}, {}, woken, false))
  }

  /** The first `k` tasks of the batch have been polled and have woken themselves. */
  ghost function PollingAt(batchSize: nat, k: nat, woken: set<TaskId>): State
    requires k <= batchSize
  {
    var tasks := FirstTasks(batchSize);
    At(PollBatch, tasks[k..], tasks[..k], Elems(tasks[..k]) + {0}, woken + Elems(tasks[..k]), batchSize)
  }

  /** The first `k` tasks of the inline queue have been popped. */
  ghost function DrainingAt(batchSize: nat, k: nat): State
    requires k <= batchSize
  {
    var tasks := FirstTasks(batchSize);
    At(Drain(FromNext, batchSize - k), tasks[..k], tasks[k..], Elems(tasks[k..]) + {0}, Busy(batchSize), batchSize)
  }

  lemma Split(batchSize: nat, k: nat)
    requires k < batchSize
    ensures var tasks := FirstTasks(batchSize);
      && tasks[k..] == [k + 1] + tasks[k + 1..] && tasks[..k + 1] == tasks[..k] + [k + 1]
      && Elems(tasks[..k + 1]) == Elems(tasks[..k]) + {k + 1} && k + 1 !in Elems(tasks[..k])
      && Elems(tasks[k + 1..]) == Elems(tasks[k..]) - {k + 1}
      && 0 !in tasks && k + 1 in Busy(batchSize)
  {
    var tasks := FirstTasks(batchSize);
    assert tasks[k] == k + 1;
    var before, after, rest := Elems(tasks[..k]), Elems(tasks[k..]), Elems(tasks[k + 1..]);
    forall t ensures t in rest <==> t in after && t != k + 1 {}
    assert tasks[k] in tasks;
  }

  /** One turn of the batch loop: the task is polled, wakes itself and is pending. */
  lemma PollOne(batchSize: nat, k: nat, woken: set<TaskId>) returns (s1: State, s2: State)
    requires k < batchSize <= INLINE_CAP
    ensures var s := PollingAt(batchSize, k, woken);
      && Enabled(s, Sched) && s1 == Apply(s, Sched, batchSize) && s1.pc.Polling? && Starving(s) && Starving(s1)
      && Enabled(s1, LocalWake(k + 1)) && s2 == Apply(s1, LocalWake(k + 1), batchSize) && s2.pc.Polling? && Starving(s2)
      && Enabled(s2, Finish(false)) && Apply(s2, Finish(false), batchSize) == PollingAt(batchSize, k + 1, woken)
      && Starving(PollingAt(batchSize, k + 1, woken))
  {
    var tasks := FirstTasks(batchSize);
    Split(batchSize, k);
    hide Elems;
    var s := PollingAt(batchSize, k, woken);
    var marked := woken + Elems(tasks[..k]) - {k + 1};
    assert s.batch[1..] == tasks[k + 1..];
    s1 := At(Polling(k + 1), tasks[k + 1..], tasks[..k], Elems(tasks[..k]) + {0}, marked, batchSize);
    assert s1 == Apply(s, Sched, batchSize);
    s2 := At(Polling(k + 1), tasks[k + 1..], tasks[..k + 1], Elems(tasks[..k + 1]) + {0}, marked + {k + 1}, batchSize);
    assert Elems(tasks[..k]) + {0} + {k + 1} == Elems(tasks[..k + 1]) + {0};
    assert s2 == Apply(s1, LocalWake(k + 1), batchSize);
    assert marked + {k + 1} == woken + Elems(tasks[..k + 1]);
  }

  lemma {:induction false} PollAll(t: Trace, batchSize: nat, j: nat, drains: nat, k: nat, woken: set<TaskId>) returns (t': Trace)
    requires Good(t, batchSize, j, drains, true) && k <= batchSize <= INLINE_CAP && Last(t) == PollingAt(batchSize, k, woken)
    ensures Good(t', batchSize, j, drains, true) && Last(t') == PollingAt(batchSize, batchSize, woken)
    decreases batchSize - k
  {
    hide Enabled; hide Apply; hide Starving; hide PollingAt;
    t' := t;
    if k < batchSize {
      var s1, s2 := PollOne(batchSize, k, woken);
      t' := Grow(t', batchSize, j, drains, true, Sched);
      t' := Grow(t', batchSize, j, drains, true, LocalWake(k + 1));
      t' := Grow(t', batchSize, j, drains, true, Finish(false));
      t' := PollAll(t', batchSize, j, drains, k + 1, woken);
    }
  }

  /** One pop of the drain, from the inline queue. */
  lemma PopOne(batchSize: nat, k: nat) returns (s1: State)
    requires k < batchSize
    ensures var s := DrainingAt(batchSize, k);
      && Enabled(s, Sched) && s1 == Apply(s, Sched, batchSize) && s1.pc.MarkDequeued? && Starving(s1)
      && Enabled(s1, Sched) && Apply(s1, Sched, batchSize) == DrainingAt(batchSize, k + 1) && Starving(DrainingAt(batchSize, k + 1))
  {
    var tasks := FirstTasks(batchSize);
    Split(batchSize, k);
    hide Elems;
    var s := DrainingAt(batchSize, k);
    assert s.q.next[1..] == tasks[k + 1..];
    s1 := At(MarkDequeued(k + 1, FromNext, batchSize - k - 1), tasks[..k], tasks[k + 1..], Elems(tasks[k..]) + {0}, Busy(batchSize), batchSize);
    assert s1 == Apply(s, Sched, batchSize);
    assert Elems(tasks[k..]) + {0} - {k + 1} == Elems(tasks[k + 1..]) + {0};
  }

  lemma {:induction false} PopAll(t: Trace, batchSize: nat, j: nat, drains: nat, k: nat) returns (t': Trace)
    requires Good(t, batchSize, j, drains, true) && k <= batchSize && Last(t) == DrainingAt(batchSize, k)
    ensures Good(t', batchSize, j, drains, true) && Last(t') == DrainingAt(batchSize, batchSize)
    decreases batchSize - k
  {
    hide Enabled; hide Apply; hide Starving;
    t' := t;
    if k < batchSize {
      var s1 := PopOne(batchSize, k);
      t' := Grow(t', batchSize, j, drains, true, Sched);
      t' := Grow(t', batchSize, j, drains, true, Sched);
      t' := PopAll(t', batchSize, j, drains, k + 1);
    }
  }

  /** Between the last poll of a batch and the first pop of the next. */
  lemma Turn(t: Trace, batchSize: nat, j: nat, drains: nat, woken: set<TaskId>) returns (t': Trace)
    requires Good(t, batchSize, j, drains, true) && woken <= Busy(batchSize)
    requires Last(t) == PollingAt(batchSize, batchSize, woken)
    ensures Good(t', batchSize, j, drains, true) && Last(t') == DrainingAt(batchSize, 0)
  {
    hide Good; hide Elems;
    var tasks := FirstTasks(batchSize);
    assert tasks[batchSize..] == [] && tasks[..batchSize] == tasks && tasks[0..] == tasks && tasks[..0] == [];
    assert woken + Busy(batchSize) == Busy(batchSize);
    t' := Grow(t, batchSize, j, drains, true, Sched);
    t' := Grow(t', batchSize, j, drains, true, Finish(false));
    t' := Grow(t', batchSize, j, drains, true, Sched);
    t' := Grow(t', batchSize, j, drains, true, Finish(false));
  }

  /** The end of a drain that filled the batch. */
  lemma EndDrain(t: Trace, batchSize: nat, j: nat, drains: nat) returns (t': Trace)
    requires Good(t, batchSize, j, drains, true) && batchSize > 0 && Last(t) == DrainingAt(batchSize, batchSize)
    ensures Good(t', batchSize, j, drains + 1, true) && Last(t') == PollingAt(batchSize, 0, Busy(batchSize))
  {
    hide Good;
    var tasks := FirstTasks(batchSize);
    assert tasks[batchSize..] == [] && tasks[..batchSize] == tasks && tasks[0..] == tasks && tasks[..0] == [];
    assert Elems(tasks[batchSize..]) == {} && Elems(tasks[..0]) == {} && Busy(batchSize) + {} == Busy(batchSize);
    hide Elems;
    t' := Grow(t, batchSize, j, drains, true, Sched);
    t' := Grow(t', batchSize, j, drains + 1, true, Sched);
  }

  /** A lap: the batch is polled and drained anew. */
  lemma Lap(t: Trace, batchSize: nat, j: nat, drains: nat, woken: set<TaskId>) returns (t': Trace)
    requires Good(t, batchSize, j, drains, true) && 0 < batchSize <= INLINE_CAP && woken <= Busy(batchSize)
    requires Last(t) == PollingAt(batchSize, 0, woken)
    ensures Good(t', batchSize, j, drains + 1, true) && Last(t') == PollingAt(batchSize, 0, Busy(batchSize))
  {
    hide Good; hide PollingAt; hide DrainingAt;
    t' := PollAll(t, batchSize, j, drains, 0, woken);
    t' := Turn(t', batchSize, j, drains, woken);
    t' := PopAll(t', batchSize, j, drains, 0);
    t' := EndDrain(t', batchSize, j, drains);
  }

  // ---------------------------------------------------------------------------------------
  // Getting there

  ghost function SpawnedAt(k: nat): State {
    var tasks := FirstTasks(k);
    INIT.(q := Queues([], [], tasks, Elems(tasks)), h := History(Elems(tasks), {}, {}, false))
  }

  lemma SpawnOne(k: nat, batchSize: nat)
    ensures var s := SpawnedAt(k);
      Enabled(s, Spawn(k + 1)) && Apply(s, Spawn(k + 1), batchSize) == SpawnedAt(k + 1)
  {
    var tasks := FirstTasks(k);
    assert FirstTasks(k + 1) == tasks + [k + 1];
    var before, after := Elems(tasks), Elems(tasks + [k + 1]);
    assert after == before + {k + 1};
  }

  lemma {:induction false} SpawnAll(k: nat, batchSize: nat) returns (t: Trace)
    ensures Good(t, batchSize, 0, 0, false) && Last(t) == SpawnedAt(k)
  {
    if k == 0 {
      t := Trace([INIT], []);
      assert FirstTasks(0) == [] && Elems(FirstTasks(0)) == {};
    } else {
      t := SpawnAll(k - 1, batchSize);
      hide Enabled; hide Apply; hide SpawnedAt; hide Good;
      SpawnOne(k - 1, batchSize);
      t := Grow(t, batchSize, 0, 0, false, Spawn(k));
    }
  }

  /** All of a drain. */
  lemma {:induction false} DrainOut(t: Trace, batchSize: nat, drains: nat) returns (t': Trace, drains': nat)
    requires Good(t, batchSize, 0, drains, false) && R.Draining(Last(t).pc)
    ensures Good(t', batchSize, 0, drains', false) && Last(t') == R.Undisturbed(Last(t))
    decreases R.StepsLeft(Last(t).pc), R.StagesLeft(Last(t).pc)
  {
    t', drains' := t, drains;
    if !Last(t).pc.InspectBatch? {
      var s := SchedStep(Last(t), batchSize);
      assert s == SchedStep(Last(t), 0);
      R.UndisturbedStep(Last(t));
      hide Good; hide R.Undisturbed;
      t' := Grow(t, batchSize, 0, drains, false, Sched);
      t', drains' := DrainOut(t', batchSize, drains + if Drained(Last(t), s) then 1 else 0);
    }
  }

  ghost function FirstQueues(batchSize: nat): Queues {
    Queues([], [], FirstTasks(batchSize) + [0], Busy(batchSize) + {0})
  }

  lemma FirstDrain(batchSize: nat)
    ensures R.DrainAll(FirstQueues(batchSize), batchSize) == R.Drained(FirstTasks(batchSize), Queues([], [], [0], {0}))
  {
    var tasks := FirstTasks(batchSize);
    var line := [] + [] + (tasks + [0]);
    assert line == tasks + [0] && line[..batchSize] == tasks && (tasks + [0])[batchSize..] == [0];
    var busy := Elems(tasks);
    assert 0 !in busy;
    assert busy + {0} - busy == {0};
  }

  /** The state at the first drain: the busy tasks in the main queue, with task 0 behind them. */
  ghost function FirstAt(pc: SchedPc, sig: Signals, batchSize: nat): State {
    State(pc, [], map[], FirstQueues(batchSize), sig, History(Busy(batchSize) + {0}, {}, {}, false))
  }

  lemma SpawnLast(batchSize: nat) returns (t: Trace)
    ensures Good(t, batchSize, 0, 0, false) && Last(t) == FirstAt(Outside, INIT.sig, batchSize)
  {
    t := SpawnAll(batchSize, batchSize);
    assert 0 !in Busy(batchSize);
    hide Good; hide Elems;
    t := Grow(t, batchSize, 0, 0, false, Spawn(0));
  }

  lemma Enter(batchSize: nat) returns (t: Trace)
    ensures Good(t, batchSize, 0, 0, false) && Last(t) == FirstAt(Drain(FromNext, batchSize), SIGNALS, batchSize)
  {
    t := SpawnLast(batchSize);
    hide Good; hide Elems;
    t := Grow(t, batchSize, 0, 0, false, Finish(false));
    t := Grow(t, batchSize, 0, 0, false, Sched);
    t := Grow(t, batchSize, 0, 0, false, Finish(false));
    t := Grow(t, batchSize, 0, 0, false, Finish(false));
  }

  lemma FirstLap(batchSize: nat) returns (t: Trace, drains: nat)
    ensures Good(t, batchSize, 0, drains, false)
    ensures Last(t) == At(InspectBatch, FirstTasks(batchSize), [], {0}, {}, batchSize)
  {
    t := Enter(batchSize);
    assert |t.run| == |t.acts| + 1;
    hide Good; hide Elems; hide R.DrainAll; hide R.Undisturbed;
    R.DrainBySteps(Last(t), batchSize);
    FirstDrain(batchSize);
    t, drains := DrainOut(t, batchSize, 0);
  }

  /** From here on, task 0 starves. */
  lemma Restart(t: Trace, batchSize: nat, drains: nat)
    requires Good(t, batchSize, 0, drains, false) && Starving(Last(t))
    ensures Good(t, batchSize, |t.acts|, 0, true)
  {
  }

  lemma Ready(batchSize: nat) returns (t: Trace, j: nat)
    requires batchSize > 0
    ensures Good(t, batchSize, j, 0, true) && Last(t) == PollingAt(batchSize, 0, {})
  {
    hide Good;
    var drains: nat;
    t, drains := FirstLap(batchSize);
    var tasks := FirstTasks(batchSize);
    assert tasks[0..] == tasks && tasks[..0] == [] && 0 !in tasks;
    assert Elems(tasks[..0]) == {};
    hide Elems;
    t := Grow(t, batchSize, 0, drains, false, Sched);
    j := |t.acts|;
    Restart(t, batchSize, drains);
  }

  lemma {:induction false} Laps(batchSize: nat, n: nat) returns (t: Trace, j: nat)
    requires 0 < batchSize <= INLINE_CAP
    ensures Good(t, batchSize, j, n, true)
    ensures Last(t) == PollingAt(batchSize, 0, if n == 0 then {} else Busy(batchSize))
  {
    hide Good; hide PollingAt; hide Elems;
    if n == 0 {
      t, j := Ready(batchSize);
    } else {
      t, j := Laps(batchSize, n - 1);
      t := Lap(t, batchSize, j, n - 1, if n == 1 then {} else Busy(batchSize));
    }
  }

  ghost function IdleAt(pc: SchedPc, waiting: bool): State {
    At(pc, [], [], {0}, {}, 0).(sig := SIGNALS.(waiting := waiting))
  }

  lemma ToRecheck(t: Trace, j: nat, drains: nat) returns (t': Trace)
    requires Good(t, 0, j, drains, true) && Last(t) == IdleAt(InspectBatch, false)
    ensures Good(t', 0, j, drains, true) && Last(t') == IdleAt(RecheckQueues, true)
  {
    hide Good; hide Elems;
    t' := Grow(t, 0, j, drains, true, Sched);
    t' := Grow(t', 0, j, drains, true, Sched);
    t' := Grow(t', 0, j, drains, true, Sched);
    t' := Grow(t', 0, j, drains, true, Sched);
  }

  lemma ToSpin(t: Trace, j: nat, drains: nat) returns (t': Trace)
    requires Good(t, 0, j, drains, true) && Last(t) == IdleAt(RecheckQueues, true)
    ensures Good(t', 0, j, drains, true) && Last(t') == IdleAt(SpinBeforeDrain, false)
  {
    hide Good; hide Elems;
    t' := Grow(t, 0, j, drains, true, Sched);
    t' := Grow(t', 0, j, drains, true, Sched);
    t' := Grow(t', 0, j, drains, true, Sched);
    t' := Grow(t', 0, j, drains, true, Sched);
  }

  /** With a batch of size 0 the scheduler drains nothing and does not sleep either. */
  lemma IdleLap(t: Trace, j: nat, drains: nat) returns (t': Trace)
    requires Good(t, 0, j, drains, true) && Last(t) == IdleAt(InspectBatch, false)
    ensures Good(t', 0, j, drains + 1, true) && Last(t') == IdleAt(InspectBatch, false)
  {
    hide Good; hide Elems;
    t' := ToRecheck(t, j, drains);
    t' := ToSpin(t', j, drains);
    t' := Grow(t', 0, j, drains, true, Finish(false));
    t' := Grow(t', 0, j, drains, true, Sched);
  }

  lemma {:induction false} IdleLaps(n: nat) returns (t: Trace, j: nat)
    ensures Good(t, 0, j, n, true) && Last(t) == IdleAt(InspectBatch, false)
  {
    if n == 0 {
      var drains: nat;
      t, drains := FirstLap(0);
      assert FirstTasks(0) == [];
      j := |t.acts|;
      Restart(t, 0, drains);
    } else {
      hide Good; hide IdleAt;
      t, j := IdleLaps(n - 1);
      t := IdleLap(t, j, n - 1);
    }
  }

  /** For every batch size up to that of the inline queue and every number of drains there is a run, from a
      new runtime, in which task 0 stands first in the main queue throughout those drains and is never
      served. */
  lemma SmallBatchStarvesRuns(batchSize: nat, n: nat) returns (run: seq<State>, acts: seq<Action>, j: nat)
    requires batchSize <= INLINE_CAP
    ensures IsTrace(run, acts, batchSize) && j <= |acts|
    ensures Count(run, acts, j, |acts|).drains == n && Count(run, acts, j, |acts|).pushes == 0
    ensures forall m :: j <= m < |run| ==> run[m].q.main == [0]
    ensures Before(run[j], 0, batchSize) == 0
    ensures !ServedIn(run, acts, j, |acts|, 0)
  {
    var t: Trace;
    if batchSize == 0 {
      t, j := IdleLaps(n);
    } else {
      t, j := Laps(batchSize, n);
    }
    run, acts := t.run, t.acts;
    assert Starving(run[j]);
    forall m | j <= m < |acts| ensures !Serves(run[m], acts[m], 0) {
      assert Starving(run[m]);
    }
  }

  // ---------------------------------------------------------------------------------------
  // The exact condition

  /** A task of the main queue with nothing before it, left alone by other threads, is served before more than
      `bound` drains are over. */
  ghost predicate Within(run: seq<State>, acts: seq<Action>, batchSize: nat, j: nat, k: nat, t: TaskId, bound: nat) {
    && IsTrace(run, acts, batchSize) && j <= k <= |acts| && t in run[j].q.main && Before(run[j], t, batchSize) == 0
    && Count(run, acts, j, k).pushes == 0 && Count(run, acts, j, k).drains > bound
    ==> ServedIn(run, acts, j, k, t)
  }

  ghost predicate Bound(batchSize: nat, bound: nat) {
    forall run, acts, j, k, t :: Within(run, acts, batchSize, j, k, t, bound)
  }

  /** There is a bound on how many drains such a task waits, in all runs, if and only if the batch is larger
      than the inline queue. */
  lemma BoundedIff(batchSize: nat)
    ensures (exists bound :: Bound(batchSize, bound)) <==> batchSize > INLINE_CAP
  {
    hide IsTrace; hide Before; hide ServedIn; hide Count;
    if batchSize > INLINE_CAP {
      forall run, acts, j, k, t ensures Within(run, acts, batchSize, j, k, t, 1) {
        OneLap(run, acts, batchSize, j, k, t);
      }
      assert Bound(batchSize, 1);
    } else {
      forall bound ensures !Bound(batchSize, bound) {
        Unbounded(batchSize, bound);
      }
    }
  }

  lemma OneLap(run: seq<State>, acts: seq<Action>, batchSize: nat, j: nat, k: nat, t: TaskId)
    requires batchSize > INLINE_CAP
    ensures Within(run, acts, batchSize, j, k, t, 1)
  {
    hide Before; hide ServedIn;
    if && IsTrace(run, acts, batchSize) && j <= k <= |acts| && t in run[j].q.main
       && Before(run[j], t, batchSize) == 0 && Count(run, acts, j, k).pushes == 0 && Count(run, acts, j, k).drains > 1 {
      hide Count;
      ServedWithinDrains(run, acts, batchSize, j, k, t, 1);
    }
  }

  lemma Unbounded(batchSize: nat, bound: nat)
    requires batchSize <= INLINE_CAP
    ensures !Bound(batchSize, bound)
  {
    hide IsTrace; hide Before; hide ServedIn; hide Count;
    var run, acts, j := SmallBatchStarvesRuns(batchSize, bound + 1);
    assert !Within(run, acts, batchSize, j, |acts|, 0, bound);
  }
}
