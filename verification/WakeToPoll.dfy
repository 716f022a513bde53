/** From a waker call on any thread to the poll of its task: the handshake of WakeProtocol and the bounds of
    WaitBounds joined. */
module WakeToPoll {
  import opened WakeProtocol
  import opened WaitBounds

  /** The accesses made inside waker calls, and the calls begun, over a stretch of a run. */
  function WakerSteps(acts: seq<Action>, j: nat, k: nat): nat
    requires j <= k <= |acts|
  {
    if j == k then 0 else WakerSteps(acts, j, k - 1) + if acts[k - 1].WakerStep? then 1 else 0
  }

  function CallsBegun(acts: seq<Action>, j: nat, k: nat): nat
    requires j <= k <= |acts|
  {
    if j == k then 0 else CallsBegun(acts, j, k - 1) + if Begins(acts[k - 1]) then 1 else 0
  }

  predicate Begins(a: Action) {
    a.CallTaskWaker? || a.CallRootWaker?
  }

  // ---------------------------------------------------------------------------------------
  // Waker calls end

  lemma {:induction false} RankOfNew(threads: map<ThreadId, WakerPc>, th: ThreadId, pc: WakerPc, k: nat)
    requires th !in threads
    ensures TotalRank(threads[th := pc], k) <= TotalRank(threads, k) + k
  {
    if k > 0 {
      RankOfNew(threads, th, pc, k - 1);
      var before, after := AtLeast(threads, k), AtLeast(threads[th := pc], k);
      assert after <= before + {th};
      Subset(after, before + {th});
    }
  }

  lemma RankStep(s: State, a: Action, batchSize: nat)
    requires Enabled(s, a)
    ensures (if a.WakerStep? then 1 else 0) + TotalRank(Apply(s, a, batchSize).threads, 5)
      <= TotalRank(s.threads, 5) + if Begins(a) then 5 else 0
  {
    match a
    case WakerStep(th) => TotalRankDrops(s, th, 5);
    case CallTaskWaker(th, t) => RankOfNew(s.threads, th, SwapQueued(t), 5);
    case CallRootWaker(th, root) => RankOfNew(s.threads, th, StoreReady(root), 5);
    case _ =>
  }

  /** The calls in progress and five accesses for each new one bound what is done inside waker calls. */
  lemma {:induction false} RankBound(run: seq<State>, acts: seq<Action>, batchSize: nat, j: nat, k: nat)
    requires IsTrace(run, acts, batchSize) && j <= k <= |acts|
    ensures WakerSteps(acts, j, k) + TotalRank(run[k].threads, 5) <= TotalRank(run[j].threads, 5) + 5 * CallsBegun(acts, j, k)
  {
    hide Enabled; hide Apply; hide TotalRank; hide Begins;
    if j < k {
      RankBound(run, acts, batchSize, j, k - 1);
      RankStep(run[k - 1], acts[k - 1], batchSize);
    }
  }

  // ---------------------------------------------------------------------------------------
  // A wake is kept until the task comes up

  lemma WokenStep(s: State, a: Action, batchSize: nat, t: TaskId)
    requires Enabled(s, a) && !Serves(s, a, t)
    ensures t in s.h.woken ==> t in Apply(s, a, batchSize).h.woken
    ensures t in s.h.done ==> t in Apply(s, a, batchSize).h.done
  {
  }

  lemma {:induction false} WokenKept(run: seq<State>, acts: seq<Action>, batchSize: nat, j: nat, k: nat, t: TaskId)
    requires IsTrace(run, acts, batchSize) && j <= k <= |acts| && !ServedIn(run, acts, j, k, t)
    ensures t in run[j].h.woken ==> t in run[k].h.woken
    ensures t in run[j].h.done ==> t in run[k].h.done
  {
    hide Enabled; hide Apply; hide Serves;
    if j < k {
      assert !ServedIn(run, acts, j, k - 1, t) && !Serves(run[k - 1], acts[k - 1], t);
      WokenKept(run, acts, batchSize, j, k - 1, t);
      WokenStep(run[k - 1], acts[k - 1], batchSize, t);
    }
  }

  // ---------------------------------------------------------------------------------------
  // The run cannot come to rest

  /** Something is bound to happen: an access inside a waker call, a step of the scheduler, or the return of a
      wait whose interrupt is set. */
  predicate CanMove(s: State) {
    s.threads != map[] || (!s.pc.Outside? && (s.pc.Parked? ==> s.sig.token))
  }

  lemma NotAtRest(s: State, t: TaskId)
    requires Inv(s) && t in s.h.woken && t !in s.h.done && !s.pc.Outside?
    ensures CanMove(s)
  {
    if s.threads == map[] && s.pc.Parked? {
      QuietSleepIsInterrupted(s);
    }
  }

  /** The steps the scheduler may take before the task has come up. */
  function Allowance(batchSize: nat, laps: nat, exits: nat): nat {
    LongestLap(batchSize) * (laps + exits + 1)
  }

  lemma SwapMarks(run: seq<State>, acts: seq<Action>, batchSize: nat, c: nat, th: ThreadId, t: TaskId)
    requires IsTrace(run, acts, batchSize) && c < |acts| && acts[c] == WakerStep(th)
    requires th in run[c].threads && run[c].threads[th] == SwapQueued(t)
    ensures t in run[c + 1].h.woken
  {
    assert run[c + 1] == ThreadStep(run[c], th);
  }

  lemma StepsWhileUnserved(run: seq<State>, acts: seq<Action>, batchSize: nat, i: nat, k: nat, t: TaskId, laps: nat)
    requires IsTrace(run, acts, batchSize) && i <= k <= |acts| && batchSize > INLINE_CAP
    requires t in run[i].h.woken && t !in run[i].h.done && !ServedIn(run, acts, i, k, t)
    requires forall o :: o in run[i].threads ==> run[i].threads[o] != PushRemote(t)
    requires laps * (batchSize - INLINE_CAP) > Before(run[i], t, batchSize) + Count(run, acts, i, k).pushes
    ensures Count(run, acts, i, k).steps <= Allowance(batchSize, laps, Count(run, acts, i, k).exits)
  {
    assert |run| == |acts| + 1;
    hide IsTrace; hide Count; hide LongestLap; hide Before; hide ServedIn;
    if Count(run, acts, i, k).steps > Allowance(batchSize, laps, Count(run, acts, i, k).exits) {
      WakeIsAnswered(run, acts, batchSize, i, k, t, laps);
    }
  }

  lemma MovesAtEnd(run: seq<State>, acts: seq<Action>, batchSize: nat, k: nat, t: TaskId)
    requires IsTrace(run, acts, batchSize) && k < |run| && t in run[k].h.woken && t !in run[k].h.done
    ensures run[k].pc.Outside? || CanMove(run[k])
  {
    TraceOk(run, acts, batchSize, k);
    hide IsTrace; hide Inv; hide CanMove; hide DrainOk;
    if !run[k].pc.Outside? {
      NotAtRest(run[k], t);
    }
  }

  /** A waker call on any thread marks a task at its swap.  Once nobody is about to push that task, it has come
      up for its poll or is complete, or else the moves made since are bounded and, inside `block_on`, another one
      is to come.  So if moves go on being made, the task is polled. */
  lemma CallIsAnswered(run: seq<State>, acts: seq<Action>, batchSize: nat, c: nat, i: nat, k: nat, th: ThreadId, t: TaskId, laps: nat)
    requires IsTrace(run, acts, batchSize) && c < i <= k <= |acts| && batchSize > INLINE_CAP
    requires acts[c] == WakerStep(th) && th in run[c].threads && run[c].threads[th] == SwapQueued(t)
    requires forall o :: o in run[i].threads ==> run[i].threads[o] != PushRemote(t)
    requires laps * (batchSize - INLINE_CAP) > Before(run[i], t, batchSize) + Count(run, acts, i, k).pushes
    ensures || ServedIn(run, acts, c + 1, k, t)
            || t in run[k].h.done
            || (&& Count(run, acts, i, k).steps + WakerSteps(acts, i, k)
                     <= Allowance(batchSize, laps, Count(run, acts, i, k).exits)
                        + TotalRank(run[i].threads, 5) + 5 * CallsBegun(acts, i, k)
                && (run[k].pc.Outside? || CanMove(run[k])))
  {
    assert |run| == |acts| + 1;
    hide IsTrace; hide TotalRank; hide Count; hide Allowance; hide Before; hide ServedIn; hide CanMove; hide WakerSteps; hide CallsBegun;
    if !ServedIn(run, acts, c + 1, k, t) && t !in run[k].h.done {
      SwapMarks(run, acts, batchSize, c, th, t);
      NotServedParts(run, acts, batchSize, c + 1, i, k, t);
      WokenKept(run, acts, batchSize, c + 1, i, t);
      WokenKept(run, acts, batchSize, i, k, t);
      MovesAtEnd(run, acts, batchSize, k, t);
      RankBound(run, acts, batchSize, i, k);
      StepsWhileUnserved(run, acts, batchSize, i, k, t, laps);
    }
  }

  lemma NotServedParts(run: seq<State>, acts: seq<Action>, batchSize: nat, j: nat, i: nat, k: nat, t: TaskId)
    requires IsTrace(run, acts, batchSize) && j <= i <= k <= |acts| && !ServedIn(run, acts, j, k, t)
    ensures !ServedIn(run, acts, j, i, t) && !ServedIn(run, acts, i, k, t)
  {
    hide Serves;
  }
}
