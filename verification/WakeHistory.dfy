/** What the history kept by WakeProtocol means, in terms of the actions of a run: when a task is complete, when
    a wake is outstanding, when `block_on` returns, and that what comes up is polled. */
module WakeHistory {
  import opened WakeProtocol
  import opened WaitBounds

  // ---------------------------------------------------------------------------------------
  // Completion

  /** A poll of `t` returns ready. */
  predicate Completes(s: State, a: Action, t: TaskId) {
    s.pc == Polling(t) && a == Finish(true)
  }

  lemma DoneStep(s: State, a: Action, batchSize: nat, t: TaskId)
    requires Enabled(s, a)
    ensures t in Apply(s, a, batchSize).h.done <==> t in s.h.done || Completes(s, a, t)
  {
  }

  /** A task is complete if and only if a poll of it returned ready. */
  lemma {:induction false} DoneIff(run: seq<State>, acts: seq<Action>, batchSize: nat, k: nat, t: TaskId)
    requires IsTrace(run, acts, batchSize) && k <= |acts|
    ensures t in run[k].h.done <==> exists m :: 0 <= m < k && Completes(run[m], acts[m], t)
  {
    hide Enabled; hide Apply; hide Completes;
    if k > 0 {
      DoneIff(run, acts, batchSize, k - 1, t);
      DoneStep(run[k - 1], acts[k - 1], batchSize, t);
    }
  }

  // ---------------------------------------------------------------------------------------
  // Outstanding wakes

  /** A waker of `t` takes effect: on the scheduler's thread, or at the swap of another one. */
  predicate Marks(s: State, a: Action, t: TaskId) {
    a == LocalWake(t) || (a.WakerStep? && a.th in s.threads && s.threads[a.th] == SwapQueued(t))
  }

  predicate PollBegins(s: State, s': State, t: TaskId) {
    s.pc.PollBatch? && s'.pc == Polling(t)
  }

  lemma WokenStep(s: State, a: Action, batchSize: nat, t: TaskId)
    requires Enabled(s, a)
    ensures var s' := Apply(s, a, batchSize);
      t in s'.h.woken <==> Marks(s, a, t) || (t in s.h.woken && !PollBegins(s, s', t))
  {
  }

  ghost predicate MarkedSince(run: seq<State>, acts: seq<Action>, m: nat, k: nat, t: TaskId)
    requires m < k <= |acts| < |run|
  {
    Marks(run[m], acts[m], t) && forall n :: m < n < k ==> !PollBegins(run[n], run[n + 1], t)
  }

  /** A wake of `t` is outstanding if and only if one took effect and no poll of `t` has begun since. */
  lemma {:induction false} WokenIff(run: seq<State>, acts: seq<Action>, batchSize: nat, k: nat, t: TaskId)
    requires IsTrace(run, acts, batchSize) && k <= |acts|
    ensures t in run[k].h.woken <==> exists m :: 0 <= m < k && MarkedSince(run, acts, m, k, t)
  {
    hide Enabled; hide Apply; hide Marks; hide PollBegins;
    if k > 0 {
      WokenIff(run, acts, batchSize, k - 1, t);
      WokenStep(run[k - 1], acts[k - 1], batchSize, t);
      if Marks(run[k - 1], acts[k - 1], t) {
        assert MarkedSince(run, acts, k - 1, k, t);
      } else if t in run[k].h.woken {
        var m :| 0 <= m < k - 1 && MarkedSince(run, acts, m, k - 1, t);
        assert MarkedSince(run, acts, m, k, t);
      } else if m :| 0 <= m < k && MarkedSince(run, acts, m, k, t) {
        assert m < k - 1 ==> MarkedSince(run, acts, m, k - 1, t) && !PollBegins(run[k - 1], run[k - 1 + 1], t);
      }
    }
  }

  /** A step of thread `th` at this program counter. */
  predicate StepsAt(s: State, a: Action, th: ThreadId, pc: WakerPc) {
    a == WakerStep(th) && th in s.threads && s.threads[th] == pc
  }

  predicate StandsAt(s: State, th: ThreadId, pc: WakerPc) {
    th in s.threads && s.threads[th] == pc
  }

  lemma StandsOrSteps(s: State, a: Action, batchSize: nat, th: ThreadId, pc: WakerPc)
    requires Enabled(s, a) && StandsAt(s, th, pc)
    ensures StandsAt(Apply(s, a, batchSize), th, pc) || StepsAt(s, a, th, pc)
  {
  }

  lemma CallBegins(s: State, a: Action, batchSize: nat)
    requires Enabled(s, a) && (a.CallTaskWaker? || a.CallRootWaker?)
    ensures StandsAt(Apply(s, a, batchSize), a.th, FirstAccess(a))
  {
  }

  /** Where a waker call starts. */
  function FirstAccess(a: Action): WakerPc
    requires a.CallTaskWaker? || a.CallRootWaker?
  {
    if a.CallTaskWaker? then SwapQueued(a.t) else StoreReady(a.root)
  }

  /** A waker called on another thread takes effect with that thread's next step: the swap for a task, the
      store for the root. */
  lemma {:induction false} CallTakesEffect(run: seq<State>, acts: seq<Action>, batchSize: nat, c: nat, k: nat)
    requires IsTrace(run, acts, batchSize) && c < k <= |acts| && (acts[c].CallTaskWaker? || acts[c].CallRootWaker?)
    ensures var th, pc := acts[c].th, FirstAccess(acts[c]);
      StandsAt(run[k], th, pc) || exists m :: c < m < k && StepsAt(run[m], acts[m], th, pc)
  {
    var th, pc := acts[c].th, FirstAccess(acts[c]);
    hide Enabled; hide Apply; hide StepsAt; hide StandsAt; hide FirstAccess;
    if k == c + 1 {
      CallBegins(run[c], acts[c], batchSize);
    } else {
      CallTakesEffect(run, acts, batchSize, c, k - 1);
      if StandsAt(run[k - 1], th, pc) {
        StandsOrSteps(run[k - 1], acts[k - 1], batchSize, th, pc);
      }
    }
  }

  /** Those steps mark the task, and the root if it is the present one. */
  lemma IsStepAt(s: State, a: Action, th: ThreadId, pc: WakerPc)
    requires a == WakerStep(th) && th in s.threads && s.threads[th] == pc
    ensures StepsAt(s, a, th, pc)
    ensures pc.SwapQueued? ==> Marks(s, a, pc.task)
    ensures pc == StoreReady(s.sig.root) ==> MarksRoot(s, a)
  {
  }

  /** A task with an outstanding wake, of which no poll returned ready, is in a queue, about to be pushed, just
      popped or in the batch. */
  lemma WokenIsHeld(run: seq<State>, acts: seq<Action>, batchSize: nat, m: nat, k: nat, t: TaskId)
    requires IsTrace(run, acts, batchSize) && m < k <= |acts| && MarkedSince(run, acts, m, k, t)
    requires forall n :: 0 <= n < k ==> !Completes(run[n], acts[n], t)
    ensures var s := run[k];
      || InQueue(s.q, t) || InBatch(s, t)
      || (exists th :: th in s.threads && s.threads[th] == PushRemote(t))
  {
    WokenIff(run, acts, batchSize, k, t);
    DoneIff(run, acts, batchSize, k, t);
    TraceIsRun(run, acts, batchSize);
    hide IsTrace;
    NoLostWake(run, batchSize, k, t);
  }

  /** A task that comes up in the batch is polled, unless it is complete. */
  lemma ServeIsPoll(run: seq<State>, acts: seq<Action>, batchSize: nat, m: nat, t: TaskId)
    requires IsTrace(run, acts, batchSize) && m < |acts| && Serves(run[m], acts[m], t)
    ensures t in run[m].h.done || PollBegins(run[m], run[m + 1], t)
  {
  }

  // ---------------------------------------------------------------------------------------
  // The root future

  /** A waker of the present root takes effect. */
  predicate MarksRoot(s: State, a: Action) {
    || a == LocalWakeRoot(s.sig.root)
    || (a.WakerStep? && a.th in s.threads && s.threads[a.th] == StoreReady(s.sig.root))
  }

  predicate RootPollBegins(s: State, s': State) {
    s.pc.TakeReady? && s'.pc.PollRoot?
  }

  /** `block_on` is called. */
  predicate Enters(s: State, s': State) {
    s.pc.Outside? && !s'.pc.Outside?
  }

  lemma RootStep(s: State, a: Action, batchSize: nat)
    requires Enabled(s, a)
    ensures var s' := Apply(s, a, batchSize);
      s'.sig.ready <==> MarksRoot(s, a) || Enters(s, s') || (s.sig.ready && !RootPollBegins(s, s'))
  {
    match a
    case Sched => match s.pc { case Drain(stage, budget) => case _ => }
    case Finish(ready) =>
    case WakerStep(th) =>
    case _ =>
  }

  /** `block_on` returns if and only if a poll of the root returned ready. */
  lemma ReturnIff(run: seq<State>, acts: seq<Action>, batchSize: nat, m: nat)
    requires IsTrace(run, acts, batchSize) && m < |acts|
    ensures !run[m].pc.Outside? && run[m + 1].pc.Outside? <==> run[m].pc.PollRoot? && acts[m] == Finish(true)
  {
  }

  /** The drain of this lap is over, and the root is looked at before the next. */
  function RootNext(pc: SchedPc): nat {
    if pc.PollRoot? || pc.SpinBeforeDrain? || pc.Drain? || pc.MarkDequeued? then 0 else 1
  }

  lemma RootTrack(s: State, a: Action, batchSize: nat, drains: nat)
    requires Enabled(s, a) && s.sig.ready && !s.pc.Outside? && drains <= RootNext(s.pc)
    requires !RootPollBegins(s, Apply(s, a, batchSize)) && !Returned(s, Apply(s, a, batchSize))
    ensures var s' := Apply(s, a, batchSize);
      s'.sig.ready && !s'.pc.Outside? && drains + (if Drained(s, s') then 1 else 0) <= RootNext(s'.pc)
  {
  }

  ghost predicate RootServed(run: seq<State>, i: nat, k: nat)
    requires k < |run|
  {
    exists m :: i <= m < k && (RootPollBegins(run[m], run[m + 1]) || Returned(run[m], run[m + 1]))
  }

  lemma {:induction false} RootTrackRun(run: seq<State>, acts: seq<Action>, batchSize: nat, i: nat, k: nat)
    requires IsTrace(run, acts, batchSize) && i <= k <= |acts| && run[i].sig.ready && !run[i].pc.Outside?
    requires !RootServed(run, i, k)
    ensures run[k].sig.ready && !run[k].pc.Outside? && Count(run, acts, i, k).exits == 0
    ensures Count(run, acts, i, k).drains <= RootNext(run[k].pc)
  {
    hide Enabled; hide Apply; hide RootPollBegins; hide Drained; hide Returned; hide RootNext;
    if i < k {
      assert !RootServed(run, i, k - 1);
      assert !RootPollBegins(run[k - 1], run[k - 1 + 1]) && !Returned(run[k - 1], run[k - 1 + 1]);
      RootTrackRun(run, acts, batchSize, i, k - 1);
      RootTrack(run[k - 1], acts[k - 1], batchSize, Count(run, acts, i, k - 1).drains);
    }
  }

  /** A root that is marked inside `block_on` is polled, or `block_on` returns, within two laps of the
      scheduler. */
  lemma RootIsAnswered(run: seq<State>, acts: seq<Action>, batchSize: nat, i: nat, k: nat)
    requires IsTrace(run, acts, batchSize) && i <= k <= |acts| && run[i].sig.ready && !run[i].pc.Outside?
    requires Count(run, acts, i, k).steps > 2 * LongestLap(batchSize)
    ensures RootServed(run, i, k)
  {
    assert |run| == |acts| + 1;
    hide IsTrace; hide Count; hide LongestLap; hide RootServed; hide Laps;
    if !RootServed(run, i, k) {
      RootTrackRun(run, acts, batchSize, i, k);
      var c := Count(run, acts, i, k);
      StepsInLaps(run, acts, batchSize, i, k);
      TwoLaps(batchSize, c.drains + c.exits + 1);
    }
  }

  function Laps(batchSize: nat, n: nat): nat {
    LongestLap(batchSize) * n
  }

  lemma StepsInLaps(run: seq<State>, acts: seq<Action>, batchSize: nat, i: nat, k: nat)
    requires IsTrace(run, acts, batchSize) && i <= k <= |acts|
    ensures var c := Count(run, acts, i, k); c.steps <= Laps(batchSize, c.drains + c.exits + 1)
  {
    StepsBound(run, acts, batchSize, i, k);
    hide IsTrace; hide Count;
  }

  lemma TwoLaps(batchSize: nat, n: nat)
    requires n <= 2
    ensures Laps(batchSize, n) <= 2 * LongestLap(batchSize)
  {
    match n { case 0 => case 1 => case _ => assert n == 2; }
  }

  // ---------------------------------------------------------------------------------------
  // Where wakers run on the scheduler's thread

  /** Polls, timer spins, the events of a wait and a flush may call any waker, and user code between `block_on`
      calls may as well. */
  lemma WakersMayRun(s: State, a: Action, batchSize: nat, t: TaskId)
    requires Enabled(s, a) && t in s.h.tasks && (a.WaitReturn? || (a.Finish? && (s.pc.Outside? || s.pc.PollRoot?)))
    ensures var s' := Apply(s, a, batchSize);
      a.WaitReturn? || s'.pc.SpinBeforeDrain? || s'.pc.Outside? ==> Enabled(s', LocalWake(t))
  {
  }

  // ---------------------------------------------------------------------------------------
  // Nothing to do

  predicate Idle(s: State) {
    s.batch == [] && !s.sig.ready && s.q.next == [] && s.q.remote == [] && s.q.main == []
  }

  function IdleNext(pc: SchedPc): SchedPc {
    match pc
    case InspectBatch => ClearPending
    case ClearPending => SetWaiting
    case SetWaiting => RecheckRoot
    case RecheckRoot => RecheckQueues
    case _ => SpinBeforeWait(false)
  }

  lemma IdleStep(s: State, batchSize: nat)
    requires Idle(s) && (s.pc.InspectBatch? || s.pc.ClearPending? || s.pc.SetWaiting? || s.pc.RecheckRoot? || s.pc.RecheckQueues?)
    ensures Enabled(s, Sched)
    ensures Apply(s, Sched, batchSize) == s.(pc := IdleNext(s.pc),
      sig := s.sig.(waiting := s.sig.waiting || s.pc.SetWaiting?, pending := s.sig.pending && !s.pc.ClearPending?))
  {
  }

  /** With an empty batch, empty queues and a root that is not ready, five steps of the scheduler and a timer
      spin that wakes nobody lead to the driver's wait, if no other thread steps in. */
  lemma IdleParks(s: State, batchSize: nat) returns (path: seq<State>)
    requires s.pc.InspectBatch? && Idle(s)
    ensures |path| == 7 && path[0] == s
    ensures forall i :: 0 <= i < 5 ==> Enabled(path[i], Sched) && path[i + 1] == Apply(path[i], Sched, batchSize)
    ensures Enabled(path[5], Finish(false)) && path[6] == Apply(path[5], Finish(false), batchSize)
    ensures path[6] == s.(pc := Parked, sig := s.sig.(waiting := true, pending := false))
  {
    hide Enabled; hide Apply;
    IdleStep(s, batchSize);
    var s1 := Apply(s, Sched, batchSize);
    IdleStep(s1, batchSize);
    var s2 := Apply(s1, Sched, batchSize);
    IdleStep(s2, batchSize);
    var s3 := Apply(s2, Sched, batchSize);
    IdleStep(s3, batchSize);
    var s4 := Apply(s3, Sched, batchSize);
    IdleStep(s4, batchSize);
    var s5 := Apply(s4, Sched, batchSize);
    SpinParks(s5, batchSize);
    path := [s, s1, s2, s3, s4, s5, Apply(s5, Finish(false), batchSize)];
  }

  lemma SpinParks(s: State, batchSize: nat)
    requires s.pc == SpinBeforeWait(false)
    ensures Enabled(s, Finish(false)) && Apply(s, Finish(false), batchSize) == s.(pc := Parked)
  {
  }
}
