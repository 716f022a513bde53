/** The cross-thread wake / sleep handshake of `Runtime::block_on`, as an interleaving
    transition system.

    One scheduler thread runs the `block_on` loop; any number of other threads call the
    wakers of tasks or of the root future.  Every step performs at most one access to state
    that several threads share (a task's `queued` flag, the remote queue, `ready`, `waiting`,
    `interrupt_pending`, the driver's interrupt).  State that only the scheduler thread touches
    (the inline queue, the main queue, the batch) is updated together with such an access.
    Accesses are sequentially consistent.

    A run starts with a new runtime and goes through any number of `block_on` calls, one after the other;
    between them the scheduler's thread runs user code, and other threads may be inside waker calls. */
module WakeProtocol {

  type TaskId = int
  type ThreadId = int

  /** `NEXT_TASK_INLINE_CAP` */
  const INLINE_CAP: nat := 8

  /** Program counter of a thread that is inside a waker call.  The constructor names the
      access the thread performs next. */
  datatype WakerPc =
    | SwapQueued(task: TaskId)
    | PushRemote(task: TaskId)
    | StoreReady(root: nat)
    | LoadWaiting
    | SwapPending
    | Interrupt

  /** The queue that `drain_ready` is popping from. */
  datatype Stage = FromNext | FromRemote | FromMain

  /** Program counter of the scheduler thread. */
  datatype SchedPc =
    | TakeReady
    | PollRoot
    | SpinBeforeDrain
    | Drain(stage: Stage, budget: nat)
    | MarkDequeued(popped: TaskId, stage: Stage, budget: nat)
    | InspectBatch
    | ClearPending
    | SetWaiting
    | RecheckRoot
    | RecheckQueues
    | SpinBeforeWait(woke: bool)
    | Parked
    | WaitReturned
    | StopWaiting
    | StopPending
    | PollBatch
    | Polling(current: TaskId)
    | Flushing
    | Outside      // no `block_on` in progress

  /** The three ready queues, and the tasks whose `queued` flag is set. */
  datatype Queues = Queues(next: seq<TaskId>, remote: seq<TaskId>, main: seq<TaskId>, queued: set<TaskId>)

  /** The number of the latest `block_on` call with the `ready` flag of its `BlockOnNotify`; `waiting` and
      `interrupt_pending` of the runtime; the driver's sticky interrupt. */
  datatype Signals = Signals(root: nat, ready: bool, waiting: bool, pending: bool, token: bool)

  /** The tasks spawned and completed so far, and the tasks (and the root) that a waker call has
      marked since their latest poll began. */
  datatype History = History(tasks: set<TaskId>, done: set<TaskId>, woken: set<TaskId>, rootWoken: bool)

  datatype State = State(
    pc: SchedPc,
    batch: seq<TaskId>,
    threads: map<ThreadId, WakerPc>,
    q: Queues,
    sig: Signals,
    h: History)

  datatype Action =
    | Sched
    | LocalWake(t: TaskId)
    | LocalWakeRoot(root: nat)
    | Spawn(t: TaskId)
    | Finish(ready: bool)
    | WaitReturn(consume: bool)
    | FlushConsumes
    | CallTaskWaker(th: ThreadId, t: TaskId)
    | CallRootWaker(th: ThreadId, root: nat)
    | WakerStep(th: ThreadId)

  /** A new runtime. */
  const INIT := State(Outside, [], map[], Queues([], [], [], {}), Signals(0, false, false, false, false), History({}, {}, {}, false))

  /** The scheduler thread runs user code, timer wakers or driver wakers here, all of which
      may call wakers on the scheduler's own thread. */
  predicate RunsLocalWakers(pc: SchedPc) {
    pc.PollRoot? || pc.Polling? || pc.SpinBeforeDrain? || pc.SpinBeforeWait? || pc.WaitReturned? || pc.Flushing?
    || pc.Outside?
  }

  predicate RunsUserCode(pc: SchedPc) {
    pc.PollRoot? || pc.Polling? || pc.Outside?
  }

  predicate Enabled(s: State, a: Action) {
    match a
    case Sched => !RunsLocalWakers(s.pc) && !s.pc.Parked?
    case LocalWake(t) => RunsLocalWakers(s.pc) && t in s.h.tasks
    case LocalWakeRoot(root) => RunsLocalWakers(s.pc) && root <= s.sig.root
    case Spawn(t) => RunsUserCode(s.pc) && t !in s.h.tasks
    case Finish(_) => RunsLocalWakers(s.pc)
    case WaitReturn(_) => s.pc.Parked?
    case FlushConsumes => s.pc.Flushing?
    case CallTaskWaker(th, t) => th !in s.threads && t in s.h.tasks
    case CallRootWaker(th, root) => th !in s.threads && root <= s.sig.root
    case WakerStep(th) => th in s.threads
  }

  function Apply(s: State, a: Action, batchSize: nat): State
    requires Enabled(s, a)
  {
    match a
    case Sched => SchedStep(s, batchSize)
    case LocalWake(t) => s.(pc := NoteWoke(s.pc), q := EnqueueLocal(s.q, t), h := MarkWoken(s.h, t))
    case LocalWakeRoot(root) => WakeRoot(s.(pc := NoteWoke(s.pc)), root)
    case Spawn(t) =>
      s.(q := s.q.(queued := s.q.queued + {t}, main := s.q.main + [t]), h := s.h.(tasks := s.h.tasks + {t}))
    case Finish(ready) => FinishLocal(s, ready, batchSize)
    case WaitReturn(consume) => s.(pc := WaitReturned, sig := s.sig.(token := s.sig.token && !consume))
    case FlushConsumes => s.(sig := s.sig.(token := false))
    case CallTaskWaker(th, t) => s.(threads := s.threads[th := SwapQueued(t)])
    case CallRootWaker(th, root) => s.(threads := s.threads[th := StoreReady(root)])
    case WakerStep(th) => ThreadStep(s, th)
  }

  /** The timer reports `woken_up` when its spin called any waker. */
  function NoteWoke(pc: SchedPc): SchedPc {
    if pc.SpinBeforeWait? then SpinBeforeWait(true) else pc
  }

  function MarkWoken(h: History, t: TaskId): History {
    h.(woken := h.woken + {t})
  }

  /** The flag of an earlier `block_on` is no longer looked at. */
  function WakeRoot(s: State, root: nat): State {
    if root == s.sig.root then s.(sig := s.sig.(ready := true), h := s.h.(rootWoken := true)) else s
  }

  /** `Task::enqueue_if_needed` on the scheduler's own thread. */
  function EnqueueLocal(q: Queues, t: TaskId): Queues {
    if t in q.queued then q
    else if |q.next| < INLINE_CAP then q.(queued := q.queued + {t}, next := q.next + [t])
    else q.(queued := q.queued + {t}, main := q.main + [t])
  }

  /** The end of a phase in which the scheduler thread may have called wakers. */
  function FinishLocal(s: State, ready: bool, batchSize: nat): State
    requires RunsLocalWakers(s.pc)
  {
    match s.pc
    case PollRoot => s.(pc := if ready then Outside else SpinBeforeDrain)
    case Polling(t) => s.(pc := PollBatch, h := if ready then s.h.(done := s.h.done + {t}) else s.h)
    case SpinBeforeDrain => s.(pc := Drain(FromNext, batchSize), batch := [])
    case SpinBeforeWait(woke) => s.(pc := if woke then StopWaiting else Parked)
    case WaitReturned => s.(pc := StopWaiting)
    case Flushing => s.(pc := TakeReady)
    case Outside =>
      s.(pc := TakeReady, sig := s.sig.(root := s.sig.root + 1, ready := true), h := s.h.(rootWoken := false))
  }

  /** The scheduler's own steps in `block_on`, `drain_ready` and `stop_waiting`. */
  function SchedStep(s: State, batchSize: nat): State
    requires Enabled(s, Sched)
  {
    match s.pc
    case TakeReady =>
      if s.sig.ready then s.(pc := PollRoot, sig := s.sig.(ready := false), h := s.h.(rootWoken := false))
      else s.(pc := SpinBeforeDrain)
    case Drain(stage, budget) =>
      var (pc, q) := DrainStep(s.q, stage, budget);
      s.(pc := pc, q := q)
    case MarkDequeued(t, stage, budget) =>
      s.(pc := Drain(stage, budget), q := s.q.(queued := s.q.queued - {t}), batch := s.batch + [t])
    case InspectBatch =>
      s.(pc := if s.batch != [] then PollBatch else if s.sig.ready then TakeReady else ClearPending)
    case ClearPending => s.(pc := SetWaiting, sig := s.sig.(pending := false))
    case SetWaiting => s.(pc := RecheckRoot, sig := s.sig.(waiting := true))
    case RecheckRoot => s.(pc := if s.sig.ready then StopWaiting else RecheckQueues)
    case RecheckQueues =>
      s.(pc := if s.q.next != [] || s.q.remote != [] || s.q.main != [] then StopWaiting else SpinBeforeWait(false))
    case StopWaiting => s.(pc := StopPending, sig := s.sig.(waiting := false))
    case StopPending => s.(pc := TakeReady, sig := s.sig.(pending := false))
    case PollBatch =>
      if s.batch == [] then s.(pc := Flushing)
      else if s.batch[0] in s.h.done then s.(batch := s.batch[1..])
      else s.(pc := Polling(s.batch[0]), batch := s.batch[1..], h := s.h.(woken := s.h.woken - {s.batch[0]}))
  }

  /** One pop of `drain_ready`, or the move to the next queue when this one is empty. */
  function DrainStep(q: Queues, stage: Stage, budget: nat): (SchedPc, Queues) {
    if budget == 0 then (InspectBatch, q)
    else match stage
      case FromNext =>
        if q.next == [] then (Drain(FromRemote, budget), q)
        else (MarkDequeued(q.next[0], stage, budget - 1), q.(next := q.next[1..]))
      case FromRemote =>
        if q.remote == [] then (Drain(FromMain, budget), q)
        else (MarkDequeued(q.remote[0], stage, budget - 1), q.(remote := q.remote[1..]))
      case FromMain =>
        if q.main == [] then (InspectBatch, q)
        else (MarkDequeued(q.main[0], stage, budget - 1), q.(main := q.main[1..]))
  }

  /** One access of a thread inside `Task::enqueue_if_needed` or `BlockOnNotify::wake_by_ref`. */
  function ThreadStep(s: State, th: ThreadId): State
    requires th in s.threads
  {
    match s.threads[th]
    case SwapQueued(t) =>
      if t in s.q.queued then s.(threads := s.threads[th := LoadWaiting], h := MarkWoken(s.h, t))
      else s.(threads := s.threads[th := PushRemote(t)], h := MarkWoken(s.h, t),
              q := s.q.(queued := s.q.queued + {t}))
    case PushRemote(t) => s.(threads := s.threads[th := LoadWaiting], q := s.q.(remote := s.q.remote + [t]))
    case StoreReady(root) => WakeRoot(s.(threads := s.threads[th := LoadWaiting]), root)
    case LoadWaiting => s.(threads := if s.sig.waiting then s.threads[th := SwapPending] else s.threads - {th})
    case SwapPending =>
      if s.sig.pending then s.(threads := s.threads - {th})
      else s.(threads := s.threads[th := Interrupt], sig := s.sig.(pending := true))
    case Interrupt => s.(threads := s.threads - {th}, sig := s.sig.(token := true))
  }

  // ---------------------------------------------------------------------------------------
  // Runs

  ghost predicate Step(s: State, s': State, batchSize: nat) {
    exists a :: Enabled(s, a) && s' == Apply(s, a, batchSize)
  }

  ghost predicate IsRun(run: seq<State>, batchSize: nat) {
    && |run| > 0
    && run[0] == INIT
    && forall i :: 0 <= i < |run| - 1 ==> Step(run[i], run[i + 1], batchSize)
  }

  // ---------------------------------------------------------------------------------------
  // Queue membership

  /** The threads that won the swap on `t` and are about to push it. */
  ghost function Pushers(threads: map<ThreadId, WakerPc>, t: TaskId): set<ThreadId> {
    set th | th in threads && threads[th] == PushRemote(t)
  }

  /** How often `t` occurs in a queue. */
  ghost function Occ(q: seq<TaskId>, t: TaskId): nat {
    if q == [] then 0 else Occ(q[1..], t) + if q[0] == t then 1 else 0
  }

  ghost function Popped(pc: SchedPc, t: TaskId): nat {
    if pc.MarkDequeued? && pc.popped == t then 1 else 0
  }

  /** How often `t` occurs in the three queues, in pushes under way, and as the task just popped
      whose flag is not cleared yet. */
  ghost function Held(q: Queues, threads: map<ThreadId, WakerPc>, pc: SchedPc, t: TaskId): nat {
    Occ(q.next, t) + Occ(q.remote, t) + Occ(q.main, t) + |Pushers(threads, t)| + Popped(pc, t)
  }

  /** The flag of `t` agrees with where `t` is held: it is held once if set, nowhere if clear. */
  ghost predicate FlagExact(q: Queues, threads: map<ThreadId, WakerPc>, pc: SchedPc, t: TaskId) {
    Held(q, threads, pc, t) == if t in q.queued then 1 else 0
  }

  ghost predicate QueuesOk(s: State) {
    && (forall t: TaskId :: FlagExact(s.q, s.threads, s.pc, t))
    && |s.q.next| <= INLINE_CAP
    && s.q.queued <= s.h.tasks
    && (forall th :: th in s.threads && s.threads[th].SwapQueued? ==> s.threads[th].task in s.h.tasks)
  }

  ghost function IsPush(pc: WakerPc, t: TaskId): nat {
    if pc == PushRemote(t) then 1 else 0
  }

  lemma OneMoreOneLess(p: set<ThreadId>, th: ThreadId)
    ensures |p - {th}| == |p| - if th in p then 1 else 0
    ensures |p + {th}| == |p| + if th in p then 0 else 1
  {
    if th in p {
      assert p + {th} == p;
    } else {
      assert p - {th} == p;
    }
  }

  lemma PushersUpdate(threads: map<ThreadId, WakerPc>, th: ThreadId, pc: WakerPc, t: TaskId)
    requires th in threads
    ensures |Pushers(threads[th := pc], t)| == |Pushers(threads, t)| - IsPush(threads[th], t) + IsPush(pc, t)
    ensures |Pushers(threads - {th}, t)| == |Pushers(threads, t)| - IsPush(threads[th], t)
  {
    PushersWithout(threads, th, t);
    PushersWith(threads, th, pc, t);
    OneMoreOneLess(Pushers(threads, t), th);
  }

  lemma PushersWithout(threads: map<ThreadId, WakerPc>, th: ThreadId, t: TaskId)
    ensures Pushers(threads - {th}, t) == Pushers(threads, t) - {th}
  {
    forall o ensures o in Pushers(threads - {th}, t) <==> o in Pushers(threads, t) - {th} {}
  }

  lemma PushersWith(threads: map<ThreadId, WakerPc>, th: ThreadId, pc: WakerPc, t: TaskId)
    ensures Pushers(threads[th := pc], t)
         == if pc == PushRemote(t) then Pushers(threads, t) + {th} else Pushers(threads, t) - {th}
  {
    if pc == PushRemote(t) {
      forall o ensures o in Pushers(threads[th := pc], t) <==> o in Pushers(threads, t) + {th} {}
    } else {
      forall o ensures o in Pushers(threads[th := pc], t) <==> o in Pushers(threads, t) - {th} {}
    }
  }

  lemma NoPusher(threads: map<ThreadId, WakerPc>, t: TaskId)
    requires forall th :: th in threads ==> threads[th] != PushRemote(t)
    ensures Pushers(threads, t) == {}
  {
    forall th ensures th !in Pushers(threads, t) {}
  }

  lemma PusherExists(threads: map<ThreadId, WakerPc>, t: TaskId)
    ensures |Pushers(threads, t)| > 0 <==> exists th :: th in threads && threads[th] == PushRemote(t)
  {
    if th :| th in threads && threads[th] == PushRemote(t) {
      assert th in Pushers(threads, t);
    } else {
      NoPusher(threads, t);
    }
  }

  lemma {:induction false} OccPush(q: seq<TaskId>, u: TaskId, t: TaskId)
    ensures Occ(q + [u], t) == Occ(q, t) + if u == t then 1 else 0
  {
    if q == [] {
      assert q + [u] == [u];
    } else {
      assert (q + [u])[1..] == q[1..] + [u];
      OccPush(q[1..], u, t);
    }
  }

  lemma {:induction false} OccIn(q: seq<TaskId>, t: TaskId)
    ensures Occ(q, t) > 0 <==> t in q
  {
    if q != [] {
      OccIn(q[1..], t);
    }
  }

  lemma ThreadStepFlag(s: State, th: ThreadId, t: TaskId)
    requires th in s.threads && FlagExact(s.q, s.threads, s.pc, t)
    requires s.threads[th].PushRemote? ==> FlagExact(s.q, s.threads, s.pc, s.threads[th].task)
    ensures var s' := ThreadStep(s, th); FlagExact(s'.q, s'.threads, s'.pc, t)
  {
    match s.threads[th]
    case SwapQueued(u) =>
      if u in s.q.queued {
        PushersUpdate(s.threads, th, LoadWaiting, t);
      } else {
        PushersUpdate(s.threads, th, PushRemote(u), t);
      }
    case PushRemote(u) =>
      PushersUpdate(s.threads, th, LoadWaiting, t);
      OccPush(s.q.remote, u, t);
    case StoreReady(_) => PushersUpdate(s.threads, th, LoadWaiting, t);
    case LoadWaiting => PushersUpdate(s.threads, th, SwapPending, t);
    case SwapPending => PushersUpdate(s.threads, th, Interrupt, t);
    case Interrupt => PushersUpdate(s.threads, th, Interrupt, t);
  }

  lemma DrainStepFlag(q: Queues, threads: map<ThreadId, WakerPc>, stage: Stage, budget: nat, t: TaskId)
    requires FlagExact(q, threads, Drain(stage, budget), t)
    ensures var (pc, q') := DrainStep(q, stage, budget); FlagExact(q', threads, pc, t)
  {
    if budget > 0 {
      match stage
      case FromNext => if q.next == [] {} else {}
      case FromRemote => if q.remote == [] {} else {}
      case FromMain => if q.main == [] {} else {}
    }
  }

  /** A popped task is held until its flag is cleared, so clearing the flag keeps the account. */
  lemma SchedStepFlag(s: State, batchSize: nat, t: TaskId)
    requires Enabled(s, Sched) && FlagExact(s.q, s.threads, s.pc, t)
    ensures var s' := SchedStep(s, batchSize); FlagExact(s'.q, s'.threads, s'.pc, t)
  {
    match s.pc
    case Drain(stage, budget) => DrainStepFlag(s.q, s.threads, stage, budget, t);
    case MarkDequeued(u, stage, budget) => if u == t {} else {}
    case _ =>
  }

  lemma EnqueueLocalFlag(q: Queues, threads: map<ThreadId, WakerPc>, pc: SchedPc, u: TaskId, t: TaskId)
    requires FlagExact(q, threads, pc, t) && FlagExact(q, threads, pc, u)
    ensures FlagExact(EnqueueLocal(q, u), threads, NoteWoke(pc), t)
  {
    if u in q.queued {
    } else if |q.next| < INLINE_CAP {
      OccPush(q.next, u, t);
    } else {
      OccPush(q.main, u, t);
    }
  }

  lemma CallFlag(q: Queues, threads: map<ThreadId, WakerPc>, pc: SchedPc, th: ThreadId, wpc: WakerPc, t: TaskId)
    requires th !in threads && !wpc.PushRemote? && FlagExact(q, threads, pc, t)
    ensures FlagExact(q, threads[th := wpc], pc, t)
  {
    assert Pushers(threads[th := wpc], t) == Pushers(threads, t);
  }

  lemma StepFlag(s: State, a: Action, batchSize: nat, t: TaskId)
    requires QueuesOk(s) && Enabled(s, a)
    ensures var s' := Apply(s, a, batchSize); FlagExact(s'.q, s'.threads, s'.pc, t)
  {
    assert FlagExact(s.q, s.threads, s.pc, t);
    match a
    case Sched => SchedStepFlag(s, batchSize, t);
    case LocalWake(u) =>
      assert FlagExact(s.q, s.threads, s.pc, u);
      EnqueueLocalFlag(s.q, s.threads, s.pc, u, t);
    case Spawn(u) =>
      assert FlagExact(s.q, s.threads, s.pc, u);
      OccPush(s.q.main, u, t);
    case CallTaskWaker(th, u) => CallFlag(s.q, s.threads, s.pc, th, SwapQueued(u), t);
    case CallRootWaker(th, root) => CallFlag(s.q, s.threads, s.pc, th, StoreReady(root), t);
    case WakerStep(th) =>
      if s.threads[th].PushRemote? { assert FlagExact(s.q, s.threads, s.pc, s.threads[th].task); }
      ThreadStepFlag(s, th, t);
    case _ =>
  }

  lemma QueuesStep(s: State, a: Action, batchSize: nat)
    requires QueuesOk(s) && Enabled(s, a)
    ensures QueuesOk(Apply(s, a, batchSize))
  {
    var s' := Apply(s, a, batchSize);
    forall t: TaskId ensures FlagExact(s'.q, s'.threads, s'.pc, t) {
      StepFlag(s, a, batchSize, t);
    }
  }

  // ---------------------------------------------------------------------------------------
  // No lost wake

  /** A task marked since its latest poll began is queued (in a queue, mid-push or just popped),
      in the batch awaiting its poll, or complete; a marked root is ready. */
  ghost predicate WakesKept(s: State) {
    && (forall t :: t in s.h.woken ==> t in s.h.done || t in s.q.queued || t in s.batch)
    && (s.h.rootWoken ==> s.sig.ready)
  }

  lemma WakesStep(s: State, a: Action, batchSize: nat)
    requires WakesKept(s) && Enabled(s, a)
    requires a.Finish? && s.pc.SpinBeforeDrain? ==> s.batch == []
    ensures WakesKept(Apply(s, a, batchSize))
  {
  }

  // ---------------------------------------------------------------------------------------
  // No stuck sleep

  predicate HasBatch(pc: SchedPc) {
    pc.Drain? || pc.MarkDequeued? || pc.InspectBatch? || pc.PollBatch? || pc.Polling?
  }

  /** `waiting` is set. */
  predicate Announced(pc: SchedPc) {
    pc.RecheckRoot? || pc.RecheckQueues? || pc.SpinBeforeWait? || pc.Parked? || pc.WaitReturned? || pc.StopWaiting?
  }

  /** Between the reset of `interrupt_pending` and the return from the driver nothing but the
      driver's own wait may consume an interrupt. */
  predicate InWindow(pc: SchedPc) {
    pc.SetWaiting? || pc.RecheckRoot? || pc.RecheckQueues? || pc.SpinBeforeWait? || pc.Parked?
  }

  predicate RootRechecked(pc: SchedPc) {
    pc.RecheckQueues? || QueuesRechecked(pc)
  }

  predicate QueuesRechecked(pc: SchedPc) {
    pc.Parked? || (pc.SpinBeforeWait? && !pc.woke)
  }

  ghost predicate Interrupting(threads: map<ThreadId, WakerPc>) {
    exists th :: th in threads && threads[th] == Interrupt
  }

  /** A thread that has published its wake and has not yet decided about the interrupt, or has
      decided to raise it. */
  ghost predicate Committed(threads: map<ThreadId, WakerPc>) {
    exists th :: th in threads && Undecided(threads[th])
  }

  predicate Undecided(pc: WakerPc) {
    pc.LoadWaiting? || pc.SwapPending? || pc.Interrupt?
  }

  ghost predicate Alarm(s: State) {
    s.sig.token || Committed(s.threads)
  }

  ghost predicate Handshake(s: State) {
    && (s.sig.waiting <==> Announced(s.pc))
    && (!HasBatch(s.pc) ==> s.batch == [])
    && (InWindow(s.pc) && s.sig.pending ==> s.sig.token || Interrupting(s.threads))
    && (RootRechecked(s.pc) && s.sig.ready ==> Alarm(s))
    && (QueuesRechecked(s.pc) && s.q.remote != [] ==> Alarm(s))
    && (QueuesRechecked(s.pc) ==> s.q.next == [] && s.q.main == [])
  }

  lemma SchedHandshake(s: State, batchSize: nat)
    requires Handshake(s) && Enabled(s, Sched)
    ensures Handshake(SchedStep(s, batchSize))
  {
    match s.pc
    case Drain(stage, budget) =>
    case _ =>
  }

  /** A thread leaves the handshake without interrupting only if the scheduler has not announced
      its wait, or if `interrupt_pending` was already set, in which case someone else's interrupt
      is set or on its way. */
  lemma ThreadHandshake(s: State, th: ThreadId)
    requires Handshake(s) && th in s.threads
    ensures Handshake(ThreadStep(s, th))
  {
    var s' := ThreadStep(s, th);
    OthersKept(s, th);
    match s.threads[th]
    case SwapQueued(_) =>
    case PushRemote(_) => assert s'.threads[th] == LoadWaiting;
    case StoreReady(_) => assert s'.threads[th] == LoadWaiting;
    case LoadWaiting => assert s.sig.waiting ==> s'.threads[th] == SwapPending;
    case SwapPending => assert !s.sig.pending ==> s'.threads[th] == Interrupt;
    case Interrupt =>
  }

  lemma OthersKept(s: State, th: ThreadId)
    requires th in s.threads
    ensures Interrupting(s.threads) && s.threads[th] != Interrupt ==> Interrupting(ThreadStep(s, th).threads)
    ensures Committed(s.threads) && !Undecided(s.threads[th]) ==> Committed(ThreadStep(s, th).threads)
    ensures Interrupting(s.threads) && s.threads[th] != Interrupt ==> Committed(ThreadStep(s, th).threads)
  {
    var threads' := ThreadStep(s, th).threads;
    assert forall o :: o in s.threads && o != th ==> o in threads' && threads'[o] == s.threads[o];
  }

  lemma HandshakeStep(s: State, a: Action, batchSize: nat)
    requires Handshake(s) && Enabled(s, a)
    ensures Handshake(Apply(s, a, batchSize))
  {
    var s' := Apply(s, a, batchSize);
    match a
    case Sched => SchedHandshake(s, batchSize);
    case WakerStep(th) => ThreadHandshake(s, th);
    case CallTaskWaker(th, t) =>
      assert forall o :: o in s.threads ==> o in s'.threads && s'.threads[o] == s.threads[o];
    case CallRootWaker(th, root) =>
      assert forall o :: o in s.threads ==> o in s'.threads && s'.threads[o] == s.threads[o];
    case _ =>
  }

  // ---------------------------------------------------------------------------------------
  // Every reachable state

  ghost predicate Inv(s: State) {
    QueuesOk(s) && WakesKept(s) && Handshake(s)
  }

  lemma InitInv()
    ensures Inv(INIT)
  {
    forall t: TaskId ensures FlagExact(INIT.q, INIT.threads, INIT.pc, t) {
      NoPusher(INIT.threads, t);
    }
  }

  lemma StepInv(s: State, s': State, batchSize: nat)
    requires Inv(s) && Step(s, s', batchSize)
    ensures Inv(s')
  {
    var a :| Enabled(s, a) && s' == Apply(s, a, batchSize);
    QueuesStep(s, a, batchSize);
    WakesStep(s, a, batchSize);
    HandshakeStep(s, a, batchSize);
  }

  lemma {:induction false} RunInv(run: seq<State>, batchSize: nat, i: nat)
    requires IsRun(run, batchSize) && i < |run|
    ensures Inv(run[i])
  {
    if i == 0 {
      InitInv();
    } else {
      RunInv(run, batchSize, i - 1);
      StepInv(run[i - 1], run[i], batchSize);
    }
  }

  // ---------------------------------------------------------------------------------------
  // What the protocol is for

  /** Each task is in at most one place; its flag is set exactly when it is in one of the queues,
      about to be pushed, or just popped; the inline queue never outgrows its capacity. */
  lemma QueueMembershipExact(run: seq<State>, batchSize: nat, i: nat, t: TaskId)
    requires IsRun(run, batchSize) && i < |run|
    ensures var s := run[i];
      && Occ(s.q.next, t) + Occ(s.q.remote, t) + Occ(s.q.main, t) + |Pushers(s.threads, t)| <= 1
      && (t in s.q.queued <==>
            || t in s.q.next || t in s.q.remote || t in s.q.main
            || (exists th :: th in s.threads && s.threads[th] == PushRemote(t))
            || (s.pc.MarkDequeued? && s.pc.popped == t))
      && |s.q.next| <= INLINE_CAP
  {
    var s := run[i];
    RunInv(run, batchSize, i);
    assert FlagExact(s.q, s.threads, s.pc, t);
    OccIn(s.q.next, t);
    OccIn(s.q.remote, t);
    OccIn(s.q.main, t);
    PusherExists(s.threads, t);
  }

  /** A wake that took effect after the task's latest poll began is never lost. */
  lemma NoLostWake(run: seq<State>, batchSize: nat, i: nat, t: TaskId)
    requires IsRun(run, batchSize) && i < |run| && t in run[i].h.woken
    ensures var s := run[i];
      || t in s.h.done || t in s.batch
      || t in s.q.next || t in s.q.remote || t in s.q.main
      || (exists th :: th in s.threads && s.threads[th] == PushRemote(t))
      || (s.pc.MarkDequeued? && s.pc.popped == t)
  {
    RunInv(run, batchSize, i);
    QueueMembershipExact(run, batchSize, i, t);
  }

  /** Some wake has not been answered by a poll yet. */
  ghost predicate Unserved(s: State) {
    s.h.rootWoken || exists t :: t in s.h.woken && t !in s.h.done
  }

  /** While the scheduler is parked with work published, the interrupt is set or a thread that
      published work has yet to leave the handshake. */
  lemma NoStuckSleep(run: seq<State>, batchSize: nat, i: nat)
    requires IsRun(run, batchSize) && i < |run|
    requires run[i].pc.Parked? && (run[i].q.remote != [] || run[i].sig.ready)
    ensures Alarm(run[i])
  {
    RunInv(run, batchSize, i);
  }

  /** Once no waker call is in progress, a scheduler parked with an unserved wake has its
      interrupt set. */
  lemma QuietSleepIsInterrupted(s: State)
    requires Inv(s) && s.pc.Parked? && Unserved(s) && s.threads == map[]
    ensures s.sig.token
  {
    if t :| t in s.h.woken && t !in s.h.done {
      assert FlagExact(s.q, s.threads, s.pc, t);
      assert Pushers(s.threads, t) == {};
      OccIn(s.q.remote, t);
    }
  }

  // How many more accesses a waker call may make.
  function Rank(pc: WakerPc): nat {
    match pc
    case SwapQueued(_) => 5
    case PushRemote(_) => 4
    case StoreReady(_) => 4
    case LoadWaiting => 3
    case SwapPending => 2
    case Interrupt => 1
  }

  ghost function AtLeast(threads: map<ThreadId, WakerPc>, k: nat): set<ThreadId> {
    set th | th in threads && Rank(threads[th]) >= k
  }

  ghost function TotalRank(threads: map<ThreadId, WakerPc>, k: nat): nat {
    if k == 0 then 0 else |AtLeast(threads, k)| + TotalRank(threads, k - 1)
  }

  lemma AtLeastShrinks(s: State, th: ThreadId, k: nat)
    requires th in s.threads
    ensures |AtLeast(ThreadStep(s, th).threads, k)| <= |AtLeast(s.threads, k)|
    ensures 0 < k == Rank(s.threads[th]) ==> |AtLeast(ThreadStep(s, th).threads, k)| < |AtLeast(s.threads, k)|
  {
    var before, after := AtLeast(s.threads, k), AtLeast(ThreadStep(s, th).threads, k);
    var threads' := ThreadStep(s, th).threads;
    assert th in threads' ==> Rank(threads'[th]) < Rank(s.threads[th]);
    assert forall o :: o in threads' && o != th ==> o in s.threads && threads'[o] == s.threads[o];
    if 0 < k == Rank(s.threads[th]) {
      assert after <= before - {th};
      Subset(after, before - {th});
    } else {
      assert after <= before;
      Subset(after, before);
    }
  }

  lemma {:induction false} Subset(a: set<ThreadId>, b: set<ThreadId>)
    requires a <= b
    ensures |a| <= |b|
  {
    assert b == a + (b - a);
  }

  lemma {:induction false} TotalRankDrops(s: State, th: ThreadId, k: nat)
    requires th in s.threads
    ensures TotalRank(ThreadStep(s, th).threads, k) <= TotalRank(s.threads, k)
    ensures Rank(s.threads[th]) <= k ==> TotalRank(ThreadStep(s, th).threads, k) < TotalRank(s.threads, k)
  {
    if k > 0 {
      AtLeastShrinks(s, th, k);
      TotalRankDrops(s, th, k - 1);
    }
  }

  /** A stretch of a run in which only threads inside waker calls take steps. */
  ghost predicate WakersOnly(run: seq<State>) {
    && |run| > 0
    && forall i :: 0 <= i < |run| - 1 ==> exists th :: th in run[i].threads && run[i + 1] == ThreadStep(run[i], th)
  }

  lemma UnservedKept(s: State, th: ThreadId)
    requires th in s.threads && Unserved(s)
    ensures Unserved(ThreadStep(s, th)) && ThreadStep(s, th).pc == s.pc
  {
    var s' := ThreadStep(s, th);
    if t :| t in s.h.woken && t !in s.h.done {
      assert t in s'.h.woken && t !in s'.h.done;
    }
  }

  /** Parked while a wake is unserved. */
  ghost predicate Oversleeping(s: State) {
    Inv(s) && s.pc.Parked? && Unserved(s)
  }

  lemma OversleepingStep(s: State, th: ThreadId)
    requires Oversleeping(s) && th in s.threads
    ensures Oversleeping(ThreadStep(s, th))
    ensures TotalRank(ThreadStep(s, th).threads, 5) < TotalRank(s.threads, 5)
  {
    assert Enabled(s, WakerStep(th)) && ThreadStep(s, th) == Apply(s, WakerStep(th), 0);
    StepInv(s, ThreadStep(s, th), 0);
    TotalRankDrops(s, th, 5);
    UnservedKept(s, th);
  }

  /** However the threads inside waker calls are scheduled, they finish within a number of steps
      fixed by where they stand, and when they have all left, a parked scheduler that had an
      unserved wake has its interrupt set. */
  lemma {:induction false} WakersAlwaysInterrupt(run: seq<State>, i: nat)
    requires WakersOnly(run) && i < |run| && Oversleeping(run[0])
    ensures Oversleeping(run[i])
    ensures i + TotalRank(run[i].threads, 5) <= TotalRank(run[0].threads, 5)
    ensures run[i].threads == map[] ==> run[i].sig.token
  {
    if i > 0 {
      WakersAlwaysInterrupt(run, i - 1);
      assert run[i - 1 + 1] == run[i];
      var th :| th in run[i - 1].threads && run[i] == ThreadStep(run[i - 1], th);
      OversleepingStep(run[i - 1], th);
    }
    if run[i].threads == map[] {
      QuietSleepIsInterrupted(run[i]);
    }
  }

  /** In every reachable state: a scheduler parked while a wake is unserved is interrupted by the time the
      waker calls in progress have ended, and they do end. */
  lemma SleepIsCutShort(past: seq<State>, batchSize: nat, run: seq<State>, i: nat)
    requires IsRun(past, batchSize) && past[|past| - 1].pc.Parked? && Unserved(past[|past| - 1])
    requires WakersOnly(run) && run[0] == past[|past| - 1] && i < |run|
    ensures run[i].pc.Parked? && i + TotalRank(run[i].threads, 5) <= TotalRank(run[0].threads, 5)
    ensures run[i].threads == map[] ==> run[i].sig.token
  {
    RunInv(past, batchSize, |past| - 1);
    WakersAlwaysInterrupt(run, i);
  }
}
