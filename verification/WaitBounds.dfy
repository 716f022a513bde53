/** How long a woken task waits for its poll, over the runs of WakeProtocol: counted in drains of the ready
    queues and in steps of the scheduler, with any interference from other threads. */
module WaitBounds {
  import opened WakeProtocol

  ghost predicate IsTrace(run: seq<State>, acts: seq<Action>, batchSize: nat) {
    && |run| == |acts| + 1 && run[0] == INIT
    && forall k :: 0 <= k < |acts| ==> Enabled(run[k], acts[k]) && run[k + 1] == Apply(run[k], acts[k], batchSize)
  }

  // ---------------------------------------------------------------------------------------
  // What is counted

  /** Steps of the scheduler, drains completed, returns from `block_on`, and pushes by other threads. */
  datatype Tally = Tally(steps: nat, drains: nat, exits: nat, pushes: nat)

  predicate Drained(s: State, s': State) {
    s.pc.Drain? && s'.pc.InspectBatch?
  }

  predicate Returned(s: State, s': State) {
    s.pc.PollRoot? && s'.pc.Outside?
  }

  predicate Pushed(s: State, a: Action) {
    a.WakerStep? && a.th in s.threads && s.threads[a.th].PushRemote?
  }

  function One(s: State, a: Action, s': State): Tally {
    Tally(if a.Sched? || a.Finish? || a.WaitReturn? then 1 else 0,
          if Drained(s, s') then 1 else 0,
          if Returned(s, s') then 1 else 0,
          if Pushed(s, a) then 1 else 0)
  }

  function Count(run: seq<State>, acts: seq<Action>, j: nat, k: nat): Tally
    requires j <= k <= |acts| < |run|
  {
    if j == k then Tally(0, 0, 0, 0)
    else
      var c, d := Count(run, acts, j, k - 1), One(run[k - 1], acts[k - 1], run[k]);
      Tally(c.steps + d.steps, c.drains + d.drains, c.exits + d.exits, c.pushes + d.pushes)
  }

  // ---------------------------------------------------------------------------------------
  // What a drain keeps

  /** The batch is within its size; the inline queue is emptied first, and leaves the rest of the budget. */
  predicate DrainOk(s: State, batchSize: nat) {
    && |s.q.next| <= INLINE_CAP
    && match s.pc
       case Drain(stage, budget) => |s.batch| + budget <= batchSize && StageOk(s.q, stage, budget, batchSize)
       case MarkDequeued(_, stage, budget) => |s.batch| + 1 + budget <= batchSize && StageOk(s.q, stage, budget, batchSize)
       case InspectBatch => |s.batch| <= batchSize
       case PollBatch => |s.batch| <= batchSize
       case Polling(_) => |s.batch| <= batchSize
       case _ => s.batch == []
  }

  predicate StageOk(q: Queues, stage: Stage, budget: nat, batchSize: nat) {
    if stage == FromNext then |q.next| + batchSize <= budget + INLINE_CAP
    else q.next == [] || batchSize <= INLINE_CAP
  }

  lemma DrainSched(s: State, batchSize: nat)
    requires DrainOk(s, batchSize) && Enabled(s, Sched)
    ensures DrainOk(SchedStep(s, batchSize), batchSize)
  {
    match s.pc
    case Drain(stage, budget) => match stage { case FromNext => case FromRemote => case FromMain => }
    case _ =>
  }

  lemma DrainKept(s: State, a: Action, batchSize: nat)
    requires DrainOk(s, batchSize) && Enabled(s, a)
    ensures DrainOk(Apply(s, a, batchSize), batchSize)
  {
    match a
    case Sched => DrainSched(s, batchSize);
    case _ =>
  }

  lemma {:induction false} TraceOk(run: seq<State>, acts: seq<Action>, batchSize: nat, k: nat)
    requires IsTrace(run, acts, batchSize) && k < |run|
    ensures Inv(run[k]) && DrainOk(run[k], batchSize)
  {
    if k == 0 {
      InitInv();
    } else {
      TraceOk(run, acts, batchSize, k - 1);
      hide DrainOk; hide Inv; hide Enabled; hide Apply;
      DrainKept(run[k - 1], acts[k - 1], batchSize);
      assert Step(run[k - 1], run[k], batchSize);
      StepInv(run[k - 1], run[k], batchSize);
    }
  }

  // ---------------------------------------------------------------------------------------
  // The scheduler keeps draining

  function StagesLeft(stage: Stage): nat {
    match stage case FromNext => 2 case FromRemote => 1 case FromMain => 0
  }

  /** At most so many steps of the scheduler are left to the end of the next drain, or to a return. */
  function Lap(pc: SchedPc, batch: nat, batchSize: nat): nat {
    match pc
    case Drain(stage, budget) => 2 * budget + StagesLeft(stage) + 1
    case MarkDequeued(_, stage, budget) => 2 * budget + StagesLeft(stage) + 2
    case SpinBeforeDrain => 2 * batchSize + 4
    case PollRoot => 2 * batchSize + 5
    case TakeReady => 2 * batchSize + 6
    case Outside => 2 * batchSize + 7
    case Flushing => 2 * batchSize + 7
    case StopPending => 2 * batchSize + 7
    case StopWaiting => 2 * batchSize + 8
    case WaitReturned => 2 * batchSize + 9
    case Parked => 2 * batchSize + 10
    case SpinBeforeWait(_) => 2 * batchSize + 11
    case RecheckQueues => 2 * batchSize + 12
    case RecheckRoot => 2 * batchSize + 13
    case SetWaiting => 2 * batchSize + 14
    case ClearPending => 2 * batchSize + 15
    case PollBatch => 2 * batchSize + 8 + 2 * batch
    case Polling(_) => 2 * batchSize + 9 + 2 * batch
    case InspectBatch => 2 * batchSize + 16 + 2 * batch
  }

  function LongestLap(batchSize: nat): nat {
    4 * batchSize + 16
  }

  lemma LapSched(s: State, batchSize: nat)
    requires DrainOk(s, batchSize) && Enabled(s, Sched)
    ensures !Returned(s, SchedStep(s, batchSize))
    ensures var s' := SchedStep(s, batchSize);
      1 + Lap(s'.pc, |s'.batch|, batchSize) <= Lap(s.pc, |s.batch|, batchSize) + if Drained(s, s') then LongestLap(batchSize) else 0
  {
    match s.pc
    case Drain(stage, budget) => match stage { case FromNext => case FromRemote => case FromMain => }
    case _ =>
  }

  lemma LapStep(s: State, a: Action, batchSize: nat)
    requires DrainOk(s, batchSize) && Enabled(s, a)
    ensures var s' := Apply(s, a, batchSize); var c := One(s, a, s');
      c.steps + Lap(s'.pc, |s'.batch|, batchSize)
        <= Lap(s.pc, |s.batch|, batchSize) + (if c.drains + c.exits > 0 then LongestLap(batchSize) else 0)
  {
    match a
    case Sched => LapSched(s, batchSize);
    case _ =>
  }

  lemma LapAt(run: seq<State>, acts: seq<Action>, batchSize: nat, k: nat)
    requires IsTrace(run, acts, batchSize) && k < |acts|
    ensures var c := One(run[k], acts[k], run[k + 1]);
      c.steps + LapOf(run[k + 1], batchSize)
        <= LapOf(run[k], batchSize) + (if c.drains + c.exits > 0 then LongestLap(batchSize) else 0)
  {
    TraceOk(run, acts, batchSize, k);
    hide Inv; hide Lap; hide One; hide Enabled; hide Apply; hide DrainOk; hide LongestLap;
    LapStep(run[k], acts[k], batchSize);
  }

  function LapOf(s: State, batchSize: nat): nat {
    Lap(s.pc, |s.batch|, batchSize)
  }

  /** In any stretch of a run, the scheduler's steps are bounded by the drains and the returns. */
  lemma {:induction false} LapsBound(run: seq<State>, acts: seq<Action>, batchSize: nat, j: nat, k: nat)
    requires IsTrace(run, acts, batchSize) && j <= k <= |acts|
    ensures var c := Count(run, acts, j, k);
      c.steps + LapOf(run[k], batchSize) <= LapOf(run[j], batchSize) + LongestLap(batchSize) * (c.drains + c.exits)
  {
    hide LapOf; hide LongestLap; hide One; hide Enabled; hide Apply;
    if j < k {
      LapsBound(run, acts, batchSize, j, k - 1);
      LapAt(run, acts, batchSize, k - 1);
      var c, d := Count(run, acts, j, k - 1), One(run[k - 1], acts[k - 1], run[k]);
      AddLaps(LongestLap(batchSize), c.drains + c.exits, d.drains + d.exits);
    }
  }

  lemma StepsBound(run: seq<State>, acts: seq<Action>, batchSize: nat, j: nat, k: nat)
    requires IsTrace(run, acts, batchSize) && j <= k <= |acts|
    ensures var c := Count(run, acts, j, k); c.steps <= LongestLap(batchSize) * (c.drains + c.exits + 1)
  {
    TraceOk(run, acts, batchSize, j);
    assert LapOf(run[j], batchSize) <= LongestLap(batchSize);
    hide LapOf; hide LongestLap; hide Inv; hide DrainOk; hide Count; hide IsTrace;
    LapsBound(run, acts, batchSize, j, k);
    var c := Count(run, acts, j, k);
    AddLaps(LongestLap(batchSize), c.drains + c.exits, 1);
  }

  lemma AddLaps(longest: nat, a: nat, b: nat)
    ensures longest * a + (if b > 0 then longest else 0) <= longest * (a + b)
  {
    if b > 0 {
      assert longest * (a + b) == longest * a + longest * b;
      assert longest * b >= longest;
    }
  }

  // ---------------------------------------------------------------------------------------
  // A waiting task moves up

  function Idx(q: seq<TaskId>, t: TaskId): nat
    requires t in q
  {
    if q[0] == t then 0 else 1 + Idx(q[1..], t)
  }

  lemma {:induction false} IdxPush(q: seq<TaskId>, t: TaskId, u: TaskId)
    requires t in q
    ensures t in q + [u] && Idx(q + [u], t) == Idx(q, t)
  {
    if q[0] != t {
      assert (q + [u])[1..] == q[1..] + [u];
      IdxPush(q[1..], t, u);
    }
  }

  predicate InQueue(q: Queues, t: TaskId) {
    t in q.next || t in q.remote || t in q.main
  }

  /** Popped and not polled yet. */
  predicate InBatch(s: State, t: TaskId) {
    t in s.batch || (s.pc.MarkDequeued? && s.pc.popped == t)
  }

  /** The tasks of the remote and the main queue that are drained before `t`. */
  function Ahead(q: Queues, t: TaskId): nat {
    if t in q.next then 0
    else if t in q.remote then Idx(q.remote, t)
    else if t in q.main then |q.remote| + Idx(q.main, t)
    else 0
  }

  /** What the drain under way has certainly taken from the remote and the main queue; a full share if it is
      past the remote queue and `t` is in there. */
  function Share(q: Queues, pc: SchedPc, t: TaskId, batchSize: nat): nat {
    match pc
    case Drain(stage, budget) => StageShare(q, stage, budget, t, batchSize)
    case MarkDequeued(_, stage, budget) => StageShare(q, stage, budget, t, batchSize)
    case _ => 0
  }

  function StageShare(q: Queues, stage: Stage, budget: nat, t: TaskId, batchSize: nat): nat {
    if stage == FromNext || batchSize <= INLINE_CAP then 0
    else if stage == FromMain && t in q.remote then batchSize - INLINE_CAP
    else if budget + INLINE_CAP <= batchSize then batchSize - INLINE_CAP - budget
    else 0
  }

  /** The drain that filled the batch is over. */
  function Past(pc: SchedPc): nat {
    if pc.InspectBatch? || pc.PollBatch? || pc.Polling? then 1 else 0
  }

  /** `t` comes up next in the batch. */
  predicate Serves(s: State, a: Action, t: TaskId) {
    a.Sched? && s.pc.PollBatch? && s.batch != [] && s.batch[0] == t
  }

  /** Where a task that has not been served stands after `drains` drains, if `x` stood before it. */
  ghost predicate Track(s: State, t: TaskId, batchSize: nat, drains: nat, x: nat)
    requires batchSize > INLINE_CAP
  {
    if InBatch(s, t) then (drains - Past(s.pc)) * (batchSize - INLINE_CAP) <= x
    else InQueue(s.q, t) && drains * (batchSize - INLINE_CAP) + Share(s.q, s.pc, t, batchSize) + Ahead(s.q, t) <= x
  }

  /** A task in a queue is not being pushed. */
  lemma NotPushing(s: State, th: ThreadId, t: TaskId)
    requires QueuesOk(s) && InQueue(s.q, t) && th in s.threads
    ensures s.threads[th] != PushRemote(t)
  {
    assert FlagExact(s.q, s.threads, s.pc, t);
    OccIn(s.q.next, t);
    OccIn(s.q.remote, t);
    OccIn(s.q.main, t);
    PusherExists(s.threads, t);
  }

  lemma TrackDrain(s: State, t: TaskId, batchSize: nat, drains: nat, x: nat)
    requires batchSize > INLINE_CAP && DrainOk(s, batchSize) && s.pc.Drain? && Track(s, t, batchSize, drains, x) && !InBatch(s, t)
    ensures var s' := SchedStep(s, batchSize);
      Track(s', t, batchSize, drains + if Drained(s, s') then 1 else 0, x)
  {
    var share := batchSize - INLINE_CAP;
    assert (drains + 1) * share == drains * share + share;
    match s.pc.stage
    case FromNext =>
    case FromRemote =>
    case FromMain =>
  }

  /** A task that is already in the batch stays there until it is served. */
  lemma TrackBatch(s: State, a: Action, t: TaskId, batchSize: nat, drains: nat, x: nat)
    requires batchSize > INLINE_CAP && DrainOk(s, batchSize) && Enabled(s, a) && !Serves(s, a, t)
    requires Track(s, t, batchSize, drains, x) && InBatch(s, t)
    ensures var s' := Apply(s, a, batchSize); var c := One(s, a, s');
      InBatch(s', t) && Track(s', t, batchSize, drains + c.drains, x + c.pushes)
  {
    if a.Sched? {
      match s.pc
      case MarkDequeued(u, _, _) => if u == t {} else {}
      case PollBatch => assert s.batch == [s.batch[0]] + s.batch[1..];
      case _ =>
    }
  }

  lemma AheadAfterPush(q: Queues, u: TaskId, t: TaskId)
    requires InQueue(q, t)
    ensures var q' := q.(main := q.main + [u]); InQueue(q', t) && Ahead(q', t) == Ahead(q, t)
    ensures var q' := q.(next := q.next + [u]); InQueue(q', t) && Ahead(q', t) <= Ahead(q, t)
    ensures u != t ==> var q' := q.(remote := q.remote + [u]);
      InQueue(q', t) && Ahead(q', t) <= Ahead(q, t) + 1 && (t in q'.remote <==> t in q.remote)
  {
    if t in q.main {
      IdxPush(q.main, t, u);
    }
    if t in q.remote {
      IdxPush(q.remote, t, u);
    }
  }

  lemma AheadIgnoresFlags(q: Queues, queued: set<TaskId>, t: TaskId)
    ensures Ahead(q.(queued := queued), t) == Ahead(q, t)
  {
  }

  lemma TrackLocal(s: State, a: Action, t: TaskId, batchSize: nat, drains: nat, x: nat)
    requires batchSize > INLINE_CAP && Enabled(s, a) && (a.LocalWake? || a.Spawn?)
    requires Track(s, t, batchSize, drains, x) && !InBatch(s, t)
    ensures Track(Apply(s, a, batchSize), t, batchSize, drains, x)
  {
    var u := a.t;
    AheadIgnoresFlags(s.q, s.q.queued + {u}, t);
    AheadAfterPush(s.q.(queued := s.q.queued + {u}), u, t);
    hide Ahead;
  }

  lemma TrackThread(s: State, th: ThreadId, t: TaskId, batchSize: nat, drains: nat, x: nat)
    requires batchSize > INLINE_CAP && QueuesOk(s) && th in s.threads
    requires Track(s, t, batchSize, drains, x) && !InBatch(s, t)
    ensures Track(ThreadStep(s, th), t, batchSize, drains, x + if s.threads[th].PushRemote? then 1 else 0)
  {
    match s.threads[th]
    case PushRemote(u) =>
      NotPushing(s, th, t);
      AheadAfterPush(s.q, u, t);
      hide Ahead; hide QueuesOk;
    case SwapQueued(u) =>
      AheadIgnoresFlags(s.q, s.q.queued + {u}, t);
      hide Ahead; hide QueuesOk;
    case _ =>
  }

  lemma TrackSched(s: State, t: TaskId, batchSize: nat, drains: nat, x: nat)
    requires batchSize > INLINE_CAP && DrainOk(s, batchSize) && Enabled(s, Sched) && Track(s, t, batchSize, drains, x) && !InBatch(s, t)
    ensures var s' := SchedStep(s, batchSize); Track(s', t, batchSize, drains + if Drained(s, s') then 1 else 0, x)
  {
    if s.pc.Drain? {
      TrackDrain(s, t, batchSize, drains, x);
    } else {
      hide Ahead;
      if s.pc.MarkDequeued? {
        AheadIgnoresFlags(s.q, s.q.queued - {s.pc.popped}, t);
      }
    }
  }

  lemma TrackStep(s: State, a: Action, t: TaskId, batchSize: nat, drains: nat, x: nat)
    requires batchSize > INLINE_CAP && QueuesOk(s) && DrainOk(s, batchSize) && Enabled(s, a) && !Serves(s, a, t)
    requires Track(s, t, batchSize, drains, x)
    ensures var s' := Apply(s, a, batchSize); var c := One(s, a, s');
      Track(s', t, batchSize, drains + c.drains, x + c.pushes)
  {
    hide QueuesOk; hide Ahead;
    if InBatch(s, t) {
      TrackBatch(s, a, t, batchSize, drains, x);
    } else {
      match a
      case Sched => TrackSched(s, t, batchSize, drains, x);
      case LocalWake(_) => TrackLocal(s, a, t, batchSize, drains, x);
      case Spawn(_) => TrackLocal(s, a, t, batchSize, drains, x);
      case WakerStep(th) => TrackThread(s, th, t, batchSize, drains, x);
      case _ =>
    }
  }

  /** What stands before `t` at the start of a stretch. */
  function Before(s: State, t: TaskId, batchSize: nat): nat {
    Ahead(s.q, t) + Share(s.q, s.pc, t, batchSize)
  }

  lemma TrackStart(s: State, t: TaskId, batchSize: nat)
    requires batchSize > INLINE_CAP && (InQueue(s.q, t) || InBatch(s, t))
    ensures Track(s, t, batchSize, 0, Before(s, t, batchSize))
  {
  }

  lemma TrackAt(run: seq<State>, acts: seq<Action>, batchSize: nat, k: nat, t: TaskId, drains: nat, x: nat)
    requires IsTrace(run, acts, batchSize) && k < |acts| && batchSize > INLINE_CAP
    requires !Serves(run[k], acts[k], t) && Track(run[k], t, batchSize, drains, x)
    ensures var c := One(run[k], acts[k], run[k + 1]); Track(run[k + 1], t, batchSize, drains + c.drains, x + c.pushes)
  {
    hide Track; hide QueuesOk; hide WakesKept; hide Handshake; hide DrainOk; hide Enabled; hide Apply; hide One; hide Serves;
    TraceOk(run, acts, batchSize, k);
    TrackStep(run[k], acts[k], t, batchSize, drains, x);
  }

  lemma {:induction false} TrackRun(run: seq<State>, acts: seq<Action>, batchSize: nat, j: nat, k: nat, t: TaskId)
    requires IsTrace(run, acts, batchSize) && j <= k <= |acts| && batchSize > INLINE_CAP
    requires InQueue(run[j].q, t) || InBatch(run[j], t)
    requires forall m :: j <= m < k ==> !Serves(run[m], acts[m], t)
    ensures var c := Count(run, acts, j, k); Track(run[k], t, batchSize, c.drains, Before(run[j], t, batchSize) + c.pushes)
  {
    hide Track; hide Enabled; hide Apply; hide One; hide Before; hide Serves; hide InQueue; hide InBatch;
    if j == k {
      TrackStart(run[j], t, batchSize);
    } else {
      TrackRun(run, acts, batchSize, j, k - 1, t);
      var c := Count(run, acts, j, k - 1);
      TrackAt(run, acts, batchSize, k - 1, t, c.drains, Before(run[j], t, batchSize) + c.pushes);
    }
  }

  lemma Fewer(a: int, b: int, share: int)
    requires a * share < b * share && share > 0
    ensures a < b
  {
  }

  lemma TrackBounds(s: State, t: TaskId, batchSize: nat, drains: nat, x: nat, laps: nat)
    requires batchSize > INLINE_CAP && Track(s, t, batchSize, drains, x) && laps * (batchSize - INLINE_CAP) > x
    ensures drains <= laps
  {
    hide Ahead; hide Share; hide InBatch; hide InQueue;
    Fewer(if InBatch(s, t) then drains - Past(s.pc) else drains, laps, batchSize - INLINE_CAP);
  }

  // ---------------------------------------------------------------------------------------
  // Bounds

  ghost predicate ServedIn(run: seq<State>, acts: seq<Action>, j: nat, k: nat, t: TaskId)
    requires k <= |acts| < |run|
  {
    exists m :: j <= m < k && Serves(run[m], acts[m], t)
  }

  /** Over every run, with a batch larger than the inline queue: a task in a queue or in the batch comes up
      for its poll before `laps + 1` drains are over, if `laps` shares of `batchSize` less the inline queue
      exceed what stands before it and what other threads push meanwhile.  Nothing else matters: not what the
      polled tasks wake or spawn, nor how often. */
  lemma ServedWithinDrains(run: seq<State>, acts: seq<Action>, batchSize: nat, j: nat, k: nat, t: TaskId, laps: nat)
    requires IsTrace(run, acts, batchSize) && j <= k <= |acts| && batchSize > INLINE_CAP
    requires InQueue(run[j].q, t) || InBatch(run[j], t)
    requires laps * (batchSize - INLINE_CAP) > Before(run[j], t, batchSize) + Count(run, acts, j, k).pushes
    requires Count(run, acts, j, k).drains > laps
    ensures ServedIn(run, acts, j, k, t)
  {
    assert |run| == |acts| + 1;
    hide Track; hide IsTrace; hide Before; hide Count; hide InQueue; hide InBatch; hide Serves;
    if !ServedIn(run, acts, j, k, t) {
      TrackRun(run, acts, batchSize, j, k, t);
      var c := Count(run, acts, j, k);
      TrackBounds(run[k], t, batchSize, c.drains, Before(run[j], t, batchSize) + c.pushes, laps);
    }
  }

  /** In steps of the scheduler: at most `4 * batchSize + 16` for each of `laps + 1` drains and for each
      return from `block_on`. */
  lemma ServedWithinSteps(run: seq<State>, acts: seq<Action>, batchSize: nat, j: nat, k: nat, t: TaskId, laps: nat)
    requires IsTrace(run, acts, batchSize) && j <= k <= |acts| && batchSize > INLINE_CAP
    requires InQueue(run[j].q, t) || InBatch(run[j], t)
    requires laps * (batchSize - INLINE_CAP) > Before(run[j], t, batchSize) + Count(run, acts, j, k).pushes
    requires Count(run, acts, j, k).steps > LongestLap(batchSize) * (laps + Count(run, acts, j, k).exits + 1)
    ensures ServedIn(run, acts, j, k, t)
  {
    assert |run| == |acts| + 1;
    hide IsTrace; hide Before; hide Count; hide InQueue; hide InBatch; hide ServedIn; hide LongestLap;
    var c := Count(run, acts, j, k);
    StepsBound(run, acts, batchSize, j, k);
    ManyDrains(LongestLap(batchSize), c.drains + c.exits, laps + c.exits);
    ServedWithinDrains(run, acts, batchSize, j, k, t, laps);
  }

  lemma ManyDrains(longest: nat, a: nat, b: nat)
    requires longest * (a + 1) > longest * (b + 1)
    ensures a > b
  {
    assert a <= b ==> longest * (a + 1) <= longest * (b + 1);
  }

  /** A wake that took effect after the task's latest poll began is answered within those steps, counted
      from when no thread is about to push the task. */
  lemma WakeIsAnswered(run: seq<State>, acts: seq<Action>, batchSize: nat, j: nat, k: nat, t: TaskId, laps: nat)
    requires IsTrace(run, acts, batchSize) && j <= k <= |acts| && batchSize > INLINE_CAP
    requires t in run[j].h.woken && t !in run[j].h.done
    requires forall th :: th in run[j].threads ==> run[j].threads[th] != PushRemote(t)
    requires laps * (batchSize - INLINE_CAP) > Before(run[j], t, batchSize) + Count(run, acts, j, k).pushes
    requires Count(run, acts, j, k).steps > LongestLap(batchSize) * (laps + Count(run, acts, j, k).exits + 1)
    ensures ServedIn(run, acts, j, k, t)
  {
    TraceIsRun(run, acts, batchSize);
    NoLostWake(run, batchSize, j, t);
    ServedWithinSteps(run, acts, batchSize, j, k, t, laps);
  }

  lemma TraceIsRun(run: seq<State>, acts: seq<Action>, batchSize: nat)
    requires IsTrace(run, acts, batchSize)
    ensures IsRun(run, batchSize)
  {
    hide Enabled; hide Apply;
    forall i | 0 <= i < |run| - 1 ensures Step(run[i], run[i + 1], batchSize) {
      assert Enabled(run[i], acts[i]);
    }
  }
}
