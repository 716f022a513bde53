/** The ready queues of one runtime as the scheduler thread updates them in place, and how long a
    task can wait in the main queue. */
module ReadyQueues {
  import opened Basics
  import opened WakeProtocol

  /** What one `drain_ready` takes from a queue, given the budget left. */
  function Taken(queue: seq<TaskId>, budget: nat): seq<TaskId> {
    queue[..Min(|queue|, budget)]
  }

  function Left(queue: seq<TaskId>, budget: nat): seq<TaskId> {
    queue[Min(|queue|, budget)..]
  }

  datatype Drained = Drained(batch: seq<TaskId>, rest: Queues)

  /** The batch is the longest prefix, of length at most `budget`, of the three queues laid end to
      end; what it takes is removed and its flags are cleared. */
  ghost function DrainAll(q: Queues, budget: nat): Drained {
    var line := q.next + q.remote + q.main;
    var n := Min(|line|, budget);
    var afterNext := budget - Min(|q.next|, budget);
    var afterRemote := afterNext - Min(|q.remote|, afterNext);
    Drained(line[..n],
            Queues(Left(q.next, budget), Left(q.remote, afterNext), Left(q.main, afterRemote),
                   q.queued - Elems(line[..n])))
  }

  /** The fields of `RuntimeInner` that hold ready tasks, with the tasks' `queued` flags. */
  class Runtime {
    var next: seq<TaskId>
    var remote: seq<TaskId>
    var main: seq<TaskId>
    var queued: set<TaskId>

    ghost function View(): Queues
      reads this
    {
      Queues(next, remote, main, queued)
    }

    constructor ()
      ensures View() == Queues([], [], [], {})
    {
      next, remote, main, queued := [], [], [], {};
    }

    /** A waker called on the scheduler's own thread. */
    method EnqueueIfNeeded(t: TaskId)
      modifies this
      ensures View() == EnqueueLocal(old(View()), t)
    {
      if t !in queued {
        queued := queued + {t};
        if |next| < INLINE_CAP {
          next := next + [t];
        } else {
          main := main + [t];
        }
      }
    }

    method Spawn(t: TaskId)
      modifies this
      ensures View() == SpawnLocal(old(View()), t)
    {
      queued := queued + {t};
      main := main + [t];
    }

    // The three loops of `drain_ready`: pop, clear the flag, add to the batch.

    method DrainNext(budget: nat) returns (taken: seq<TaskId>)
      modifies this`next, this`queued
      ensures taken == Taken(old(next), budget) && next == Left(old(next), budget)
      ensures queued == old(queued) - Elems(taken)
    {
      taken := [];
      while |taken| < budget && next != []
        invariant |taken| <= budget && |taken| <= |old(next)|
        invariant taken == old(next)[..|taken|] && next == old(next)[|taken|..]
        invariant queued == old(queued) - Elems(taken)
        decreases |next|
      {
        queued := queued - {next[0]};
        taken, next := taken + [next[0]], next[1..];
      }
    }

    method DrainRemote(budget: nat) returns (taken: seq<TaskId>)
      modifies this`remote, this`queued
      ensures taken == Taken(old(remote), budget) && remote == Left(old(remote), budget)
      ensures queued == old(queued) - Elems(taken)
    {
      taken := [];
      while |taken| < budget && remote != []
        invariant |taken| <= budget && |taken| <= |old(remote)|
        invariant taken == old(remote)[..|taken|] && remote == old(remote)[|taken|..]
        invariant queued == old(queued) - Elems(taken)
        decreases |remote|
      {
        queued := queued - {remote[0]};
        taken, remote := taken + [remote[0]], remote[1..];
      }
    }

    method DrainMain(budget: nat) returns (taken: seq<TaskId>)
      modifies this`main, this`queued
      ensures taken == Taken(old(main), budget) && main == Left(old(main), budget)
      ensures queued == old(queued) - Elems(taken)
    {
      taken := [];
      while |taken| < budget && main != []
        invariant |taken| <= budget && |taken| <= |old(main)|
        invariant taken == old(main)[..|taken|] && main == old(main)[|taken|..]
        invariant queued == old(queued) - Elems(taken)
        decreases |main|
      {
        queued := queued - {main[0]};
        taken, main := taken + [main[0]], main[1..];
      }
    }

    method DrainReady(batchSize: nat) returns (batch: seq<TaskId>)
      modifies this
      ensures Drained(batch, View()) == DrainAll(old(View()), batchSize)
    {
      var a := DrainNext(batchSize);
      var b := DrainRemote(batchSize - |a|);
      var c := DrainMain(batchSize - |a| - |b|);
      batch := a + b + c;
      EndToEnd(old(View()), batchSize, a, b, c);
    }
  }

  lemma EndToEnd(q: Queues, budget: nat, a: seq<TaskId>, b: seq<TaskId>, c: seq<TaskId>)
    requires a == Taken(q.next, budget) && b == Taken(q.remote, budget - |a|) && c == Taken(q.main, budget - |a| - |b|)
    ensures DrainAll(q, budget).batch == a + b + c
    ensures q.queued - Elems(a) - Elems(b) - Elems(c) == DrainAll(q, budget).rest.queued
  {
    var line := q.next + q.remote + q.main;
    var n := |a| + |b| + |c|;
    assert n == Min(|line|, budget);
    forall k | 0 <= k < n ensures (a + b + c)[k] == line[k] {}
    assert line[..n] == a + b + c;
    assert Elems(a + b + c) == Elems(a) + Elems(b) + Elems(c);
  }

  // ---------------------------------------------------------------------------------------
  // The drain of WakeProtocol, pop by pop

  predicate Draining(pc: SchedPc) {
    pc.Drain? || pc.MarkDequeued? || pc.InspectBatch?
  }

  function StepsLeft(pc: SchedPc): nat {
    match pc
    case Drain(_, budget) => 2 * budget + 1
    case MarkDequeued(_, _, budget) => 2 * budget + 2
    case _ => 0
  }

  function StagesLeft(pc: SchedPc): nat {
    if pc.Drain? && pc.stage == FromNext then 2 else if pc.Drain? && pc.stage == FromRemote then 1 else 0
  }

  /** The scheduler's steps up to the end of the drain, with no step of another thread in between. */
  function Undisturbed(s: State): State
    requires Draining(s.pc)
    decreases StepsLeft(s.pc), StagesLeft(s.pc)
  {
    if s.pc.InspectBatch? then s else Undisturbed(SchedStep(s, 0))
  }

  function QueueOf(q: Queues, stage: Stage): seq<TaskId> {
    match stage case FromNext => q.next case FromRemote => q.remote case FromMain => q.main
  }

  function WithQueue(q: Queues, stage: Stage, queue: seq<TaskId>): Queues {
    match stage case FromNext => q.(next := queue) case FromRemote => q.(remote := queue) case FromMain => q.(main := queue)
  }

  /** The state once one of the three queues has given what it can. */
  ghost function StageDone(s: State, stage: Stage, budget: nat): State {
    var queue := QueueOf(s.q, stage);
    var taken := Taken(queue, budget);
    var pc := match stage
      case FromNext => Drain(FromRemote, budget - |taken|)
      case FromRemote => Drain(FromMain, budget - |taken|)
      case FromMain => InspectBatch;
    s.(pc := pc, batch := s.batch + taken,
       q := WithQueue(s.q, stage, Left(queue, budget)).(queued := s.q.queued - Elems(taken)))
  }

  lemma ElemsCons(a: TaskId, s: seq<TaskId>, queued: set<TaskId>)
    ensures queued - Elems([a] + s) == queued - {a} - Elems(s)
  {
    forall t ensures t in Elems([a] + s) <==> t == a || t in Elems(s) {}
  }

  lemma TakenCons(queue: seq<TaskId>, budget: nat)
    requires queue != [] && budget > 0
    ensures Taken(queue, budget) == [queue[0]] + Taken(queue[1..], budget - 1)
    ensures Left(queue, budget) == Left(queue[1..], budget - 1)
  {
  }

  lemma UndisturbedStep(s: State)
    requires Draining(s.pc) && !s.pc.InspectBatch?
    ensures Draining(SchedStep(s, 0).pc) && Undisturbed(s) == Undisturbed(SchedStep(s, 0))
  {
  }

  /** One task popped, its flag cleared, and in the batch. */
  function OnePopped(s: State, stage: Stage, budget: nat): State
    requires QueueOf(s.q, stage) != [] && budget > 0
  {
    var queue := QueueOf(s.q, stage);
    s.(pc := Drain(stage, budget - 1), batch := s.batch + [queue[0]],
       q := WithQueue(s.q, stage, queue[1..]).(queued := s.q.queued - {queue[0]}))
  }

  lemma PopSteps(s: State, stage: Stage, budget: nat)
    requires s.pc == Drain(stage, budget) && QueueOf(s.q, stage) != [] && budget > 0
    ensures Undisturbed(s) == Undisturbed(OnePopped(s, stage, budget))
  {
    hide Undisturbed;
    UndisturbedStep(s);
    UndisturbedStep(SchedStep(s, 0));
    assert SchedStep(SchedStep(s, 0), 0) == OnePopped(s, stage, budget);
  }

  lemma DoneAfterPop(s: State, stage: Stage, budget: nat)
    requires QueueOf(s.q, stage) != [] && budget > 0
    ensures StageDone(OnePopped(s, stage, budget), stage, budget - 1) == StageDone(s, stage, budget)
  {
    var queue := QueueOf(s.q, stage);
    TakenCons(queue, budget);
    ElemsCons(queue[0], Taken(queue[1..], budget - 1), s.q.queued);
    assert s.batch + [queue[0]] + Taken(queue[1..], budget - 1) == s.batch + Taken(queue, budget);
    hide Taken; hide Left; hide Elems;
  }

  lemma TakenNothing(queue: seq<TaskId>, budget: nat, queued: set<TaskId>)
    requires budget == 0 || queue == []
    ensures Taken(queue, budget) == [] && Left(queue, budget) == queue && queued - Elems([]) == queued
  {
  }

  lemma WithSame(q: Queues, stage: Stage)
    ensures WithQueue(q, stage, QueueOf(q, stage)).(queued := q.queued) == q
  {
  }

  /** Where the drain stands after a queue that gave nothing. */
  function NextStage(stage: Stage, budget: nat): SchedPc {
    match stage case FromNext => Drain(FromRemote, budget) case FromRemote => Drain(FromMain, budget) case FromMain => InspectBatch
  }

  lemma NothingTaken(s: State, stage: Stage, budget: nat)
    requires budget == 0 || QueueOf(s.q, stage) == []
    ensures StageDone(s, stage, budget) == s.(pc := NextStage(stage, budget))
  {
    hide QueueOf; hide WithQueue; hide Taken; hide Left; hide Elems;
    TakenNothing(QueueOf(s.q, stage), budget, s.q.queued);
    WithSame(s.q, stage);
    assert s.batch + [] == s.batch;
  }

  lemma EndStep(s: State, stage: Stage, budget: nat)
    requires s.pc == Drain(stage, budget) && (budget == 0 || QueueOf(s.q, stage) == [])
    ensures SchedStep(s, 0) == s.(pc := if budget == 0 then InspectBatch else NextStage(stage, budget))
  {
  }

  lemma StageEnds(s: State, stage: Stage, budget: nat)
    requires s.pc == Drain(stage, budget) && (budget == 0 || QueueOf(s.q, stage) == [])
    ensures Undisturbed(s) == Undisturbed(StageDone(s, stage, budget))
  {
    hide Undisturbed; hide StageDone; hide SchedStep;
    NothingTaken(s, stage, budget);
    UndisturbedStep(s);
    EndStep(s, stage, budget);
    if budget == 0 && stage != FromMain {
      var done := s.(pc := NextStage(stage, 0));
      UndisturbedStep(done);
      EndStep(done, done.pc.stage, 0);
    }
  }

  lemma {:induction false} StageBySteps(s: State, stage: Stage, budget: nat)
    requires s.pc == Drain(stage, budget)
    ensures Undisturbed(s) == Undisturbed(StageDone(s, stage, budget))
    decreases budget
  {
    if budget == 0 || QueueOf(s.q, stage) == [] {
      StageEnds(s, stage, budget);
    } else {
      PopSteps(s, stage, budget);
      DoneAfterPop(s, stage, budget);
      hide Undisturbed; hide StageDone;
      StageBySteps(OnePopped(s, stage, budget), stage, budget - 1);
    }
  }

  /** The budget that the inline queue leaves, and that the remote queue then leaves. */
  function AfterNext(q: Queues, budget: nat): nat {
    budget - |Taken(q.next, budget)|
  }

  function AfterRemote(q: Queues, budget: nat): nat {
    AfterNext(q, budget) - |Taken(q.remote, AfterNext(q, budget))|
  }

  lemma DrainAllParts(q: Queues, budget: nat)
    ensures var a := Taken(q.next, budget); var b := Taken(q.remote, AfterNext(q, budget)); var c := Taken(q.main, AfterRemote(q, budget));
      DrainAll(q, budget) == Drained(a + b + c,
        Queues(Left(q.next, budget), Left(q.remote, AfterNext(q, budget)), Left(q.main, AfterRemote(q, budget)),
               q.queued - Elems(a) - Elems(b) - Elems(c)))
  {
    EndToEnd(q, budget, Taken(q.next, budget), Taken(q.remote, AfterNext(q, budget)), Taken(q.main, AfterRemote(q, budget)));
    hide Elems;
  }

  lemma StageAt(s: State, stage: Stage, budget: nat)
    ensures var d := StageDone(s, stage, budget); var taken := Taken(QueueOf(s.q, stage), budget);
      && d.batch == s.batch + taken && d.threads == s.threads && d.sig == s.sig && d.h == s.h
      && d.q == WithQueue(s.q, stage, Left(QueueOf(s.q, stage), budget)).(queued := s.q.queued - Elems(taken))
      && (stage == FromNext ==> d.pc == Drain(FromRemote, budget - |taken|))
      && (stage == FromRemote ==> d.pc == Drain(FromMain, budget - |taken|))
      && (stage == FromMain ==> d.pc == InspectBatch)
  {
    hide Elems; hide Left;
  }

  /** The drain of the handshake, taken step by step without interference, is `DrainAll`. */
  lemma DrainBySteps(s: State, budget: nat)
    requires s.pc == Drain(FromNext, budget) && s.batch == []
    ensures var d := DrainAll(s.q, budget); Undisturbed(s) == s.(pc := InspectBatch, batch := d.batch, q := d.rest)
  {
    hide Elems; hide DrainAll; hide StageDone; hide Taken; hide Left; hide Undisturbed;
    var s1 := StageDone(s, FromNext, budget);
    var s2 := StageDone(s1, FromRemote, AfterNext(s.q, budget));
    var s3 := StageDone(s2, FromMain, AfterRemote(s.q, budget));
    StageBySteps(s, FromNext, budget);
    StageAt(s, FromNext, budget);
    StageBySteps(s1, FromRemote, AfterNext(s.q, budget));
    StageAt(s1, FromRemote, AfterNext(s.q, budget));
    StageBySteps(s2, FromMain, AfterRemote(s.q, budget));
    StageAt(s2, FromMain, AfterRemote(s.q, budget));
    UndisturbedEnd(s3);
    DrainAllParts(s.q, budget);
  }

  lemma UndisturbedEnd(s: State)
    requires s.pc.InspectBatch?
    ensures Undisturbed(s) == s
  {
  }

  function SpawnLocal(q: Queues, t: TaskId): Queues {
    q.(queued := q.queued + {t}, main := q.main + [t])
  }

  // ---------------------------------------------------------------------------------------
  // Bounded wait

  /** What polled tasks, timers and the driver do to the queues on the scheduler's own thread. */
  datatype LocalOp = Wake(t: TaskId) | New(t: TaskId)

  function RunOps(q: Queues, ops: seq<LocalOp>): Queues
    decreases |ops|
  {
    if ops == [] then q
    else RunOps(match ops[0] case Wake(t) => EnqueueLocal(q, t) case New(t) => SpawnLocal(q, t), ops[1..])
  }

  /** The batches of successive drains, `rounds[k]` being what happens after drain `k`. */
  ghost function Batches(q: Queues, batchSize: nat, rounds: seq<seq<LocalOp>>): seq<seq<TaskId>>
    decreases |rounds|
  {
    if rounds == [] then []
    else
      var d := DrainAll(q, batchSize);
      [d.batch] + Batches(RunOps(d.rest, rounds[0]), batchSize, rounds[1..])
  }

  lemma {:induction false} OpsOnlyAppend(q: Queues, ops: seq<LocalOp>)
    requires |q.next| <= INLINE_CAP
    ensures var q' := RunOps(q, ops);
      |q'.next| <= INLINE_CAP && q.main <= q'.main && q'.remote == q.remote
    decreases |ops|
  {
    if ops != [] {
      var q1 := match ops[0] case Wake(t) => EnqueueLocal(q, t) case New(t) => SpawnLocal(q, t);
      assert q.main <= q1.main;
      OpsOnlyAppend(q1, ops[1..]);
    }
  }

  /** With no cross-thread wakes and a batch larger than the inline queue, the task at index `i` of
      the main queue is in one of the next `n` batches as soon as n * (batchSize - 8) exceeds `i`,
      whatever the polled tasks wake or spawn. */
  lemma {:induction false} BoundedWait(q: Queues, batchSize: nat, rounds: seq<seq<LocalOp>>, i: nat)
    requires batchSize > INLINE_CAP && |q.next| <= INLINE_CAP && q.remote == []
    requires i < |q.main| && |rounds| * (batchSize - INLINE_CAP) > i
    ensures exists k :: 0 <= k < |Batches(q, batchSize, rounds)| && q.main[i] in Batches(q, batchSize, rounds)[k]
    decreases |rounds|
  {
    var bs := Batches(q, batchSize, rounds);
    assert rounds != [];
    if |q.next| + i < batchSize {
      FrontIsDrained(q, batchSize, i);
      assert bs[0] == DrainAll(q, batchSize).batch;
    } else {
      var c := batchSize - |q.next|;
      var q1 := RunOps(DrainAll(q, batchSize).rest, rounds[0]);
      MovesUp(q, batchSize, rounds[0], i);
      var tail := rounds[1..];
      assert |tail| * (batchSize - INLINE_CAP) == |rounds| * (batchSize - INLINE_CAP) - (batchSize - INLINE_CAP);
      BoundedWait(q1, batchSize, tail, i - c);
      var k :| 0 <= k < |Batches(q1, batchSize, tail)| && q1.main[i - c] in Batches(q1, batchSize, tail)[k];
      assert bs[k + 1] == Batches(q1, batchSize, tail)[k];
    }
  }

  lemma FrontIsDrained(q: Queues, batchSize: nat, i: nat)
    requires q.remote == [] && i < |q.main| && |q.next| + i < batchSize
    ensures q.main[i] in DrainAll(q, batchSize).batch
  {
    var line := q.next + q.remote + q.main;
    assert line[|q.next| + i] == q.main[i];
    assert DrainAll(q, batchSize).batch[|q.next| + i] == q.main[i];
  }

  lemma MovesUp(q: Queues, batchSize: nat, ops: seq<LocalOp>, i: nat)
    requires |q.next| <= INLINE_CAP < batchSize && q.remote == [] && i < |q.main| && |q.next| + i >= batchSize
    ensures var q1 := RunOps(DrainAll(q, batchSize).rest, ops); var c := batchSize - |q.next|;
      |q1.next| <= INLINE_CAP && q1.remote == [] && i - c < |q1.main| && q1.main[i - c] == q.main[i]
  {
    var rest, c := DrainAll(q, batchSize).rest, batchSize - |q.next|;
    assert rest.main == q.main[c..];
    OpsOnlyAppend(rest, ops);
  }
}
