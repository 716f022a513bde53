/** Completion operations: the completion slab of driver/uring.rs, the operations that use it (op/read.rs
    stands for all of them), and the kernel, which owns the buffer of every submission that is in flight.

    A submission is in flight from the push of its entry until its completion is drained.  Each one has a
    serial number of its own, although slab tokens are reused. */
module UringOps {
  import opened Basics

  type Buffer = int

  datatype Completion = Completion(waiter: Option<Waker>, completed: Option<int>, ignored: Option<Buffer>)

  datatype Submission = Submission(token: nat, buffer: Buffer)

  /** `owner` gives the submission an occupied slab token was issued for; `results` and `delivered` are
      history: what the kernel posted, and which submissions had their result returned. */
  datatype Slab = Slab(comps: map<nat, Completion>, flying: map<nat, Submission>, owner: map<nat, nat>,
                       results: map<nat, int>, delivered: set<nat>, next: nat)

  /** A live operation: the token it waits on, its buffer, its latest submission and its latest waker. */
  datatype ReadOp = ReadOp(token: Option<nat>, buffer: Buffer, serial: nat, waker: Waker)

  /** `orphans` is history: the submissions whose operation was dropped, while it waited, where its own runtime
      was not the current one. */
  datatype System = System(slab: Slab, ops: map<nat, ReadOp>, orphans: set<nat>)

  // ---------------------------------------------------------------------------------------
  // The driver's calls

  function Submit(s: Slab, key: nat, buffer: Buffer, waker: Waker): Slab {
    s.(comps := s.comps[key := Completion(Some(waker), None, None)],
       flying := s.flying[s.next := Submission(key, buffer)],
       owner := s.owner[key := s.next],
       next := s.next + 1)
  }

  /** The result waiting under a token, if any. */
  function Result(s: Slab, token: nat): Option<int> {
    if token in s.comps then s.comps[token].completed else None
  }

  /** `get_completion_result`: a result is handed out by removing it. */
  function TakeResult(s: Slab, token: nat): Slab {
    if Result(s, token).Some? then
      s.(comps := s.comps - {token}, delivered := s.delivered + if token in s.owner then {s.owner[token]} else {})
    else s
  }

  function SetWaker(s: Slab, token: nat, waker: Waker): Slab {
    if token in s.comps then s.(comps := s.comps[token := s.comps[token].(waiter := Some(waker))]) else s
  }

  function Ignore(s: Slab, token: nat, buffer: Buffer): Slab {
    if token in s.comps then s.(comps := s.comps[token := s.comps[token].(ignored := Some(buffer))]) else s
  }

  /** The drain of one completion: an abandoned entry is removed, dropping the buffer it held. */
  function Complete(s: Slab, serial: nat, result: int): Slab
    requires serial in s.flying
  {
    var token := s.flying[serial].token;
    s.(flying := s.flying - {serial},
       results := s.results[serial := result],
       comps := if token !in s.comps then s.comps
                else if s.comps[token].ignored.Some? then s.comps - {token}
                else s.comps[token := s.comps[token].(completed := Some(result), waiter := None)])
  }

  /** The waker that a completion yields. */
  function Yields(s: Slab, serial: nat): Option<Waker>
    requires serial in s.flying
  {
    var token := s.flying[serial].token;
    if token in s.comps then s.comps[token].waiter else None
  }

  // ---------------------------------------------------------------------------------------
  // The operation's life

  /** `poll_completion`.  `key` is the slab's vacant key and `ok` says whether the entry could be built
      and pushed, both used only when the operation has no token. */
  function PollOp(s: System, id: nat, waker: Waker, key: nat, ok: bool): System
    requires id in s.ops
  {
    var op := s.ops[id];
    if op.token.Some? then
      if Result(s.slab, op.token.value).Some? then
        s.(slab := TakeResult(s.slab, op.token.value), ops := s.ops[id := op.(token := None)])
      else
        s.(slab := SetWaker(s.slab, op.token.value, waker), ops := s.ops[id := op.(waker := waker)])
    else if ok then
      s.(slab := Submit(s.slab, key, op.buffer, waker), ops := s.ops[id := ReadOp(Some(key), op.buffer, s.slab.next, waker)])
    else s
  }

  /** What that poll returns: a posted result, or nothing while pending or on a failed submission. */
  function PollResult(s: System, id: nat): Option<int>
    requires id in s.ops
  {
    if s.ops[id].token.Some? then Result(s.slab, s.ops[id].token.value) else None
  }

  /** `Drop`: an operation that waits leaves its buffer with the driver if its own runtime is the current one
      (`inside`); otherwise the buffer goes with the operation. */
  function DropOp(s: System, id: nat, inside: bool): System
    requires id in s.ops
  {
    var op := s.ops[id];
    System(if op.token.Some? && inside then Ignore(s.slab, op.token.value, op.buffer) else s.slab,
           s.ops - {id},
           if op.token.Some? && !inside then s.orphans + {op.serial} else s.orphans)
  }

  datatype Step =
    | DoNew(id: nat, buffer: Buffer)
    | DoPoll(id: nat, waker: Waker, key: nat, ok: bool)
    | DoDrop(id: nat, inside: bool)
    | DoComplete(serial: nat, result: int)

  predicate Possible(s: System, step: Step) {
    match step
    case DoNew(id, _) => id !in s.ops
    case DoPoll(id, _, key, _) => id in s.ops && key !in s.slab.comps
    case DoDrop(id, _) => id in s.ops
    case DoComplete(serial, _) => serial in s.slab.flying
  }

  function Do(s: System, step: Step): System
    requires Possible(s, step)
  {
    match step
    case DoNew(id, buffer) => s.(ops := s.ops[id := ReadOp(None, buffer, 0, 0)])
    case DoPoll(id, waker, key, ok) => PollOp(s, id, waker, key, ok)
    case DoDrop(id, inside) => DropOp(s, id, inside)
    case DoComplete(serial, result) => s.(slab := Complete(s.slab, serial, result))
  }

  // ---------------------------------------------------------------------------------------
  // Invariant

  /** A submission in flight has its token to itself, and no result yet. */
  ghost predicate FlyingOk(s: Slab, serial: nat) {
    serial in s.flying ==>
      && serial < s.next && serial !in s.results && serial !in s.delivered
      && var token := s.flying[serial].token;
         token in s.comps && s.comps[token].completed.None? && token in s.owner && s.owner[token] == serial
  }

  /** An entry without a result is in flight; an entry with one has what was posted for its own
      submission, which was not handed out before. */
  ghost predicate EntryOk(s: Slab, token: nat) {
    token in s.comps ==>
      && token in s.owner && s.owner[token] < s.next && s.owner[token] !in s.delivered
      && var serial := s.owner[token];
         (match s.comps[token].completed
          case None => serial in s.flying && s.flying[serial].token == token
          case Some(r) => serial !in s.flying && serial in s.results && s.results[serial] == r)
  }

  /** Occupied tokens belong to different submissions. */
  ghost predicate OwnersDiffer(s: Slab) {
    forall a, b :: a in s.comps && b in s.comps && a in s.owner && b in s.owner && s.owner[a] == s.owner[b] ==> a == b
  }

  ghost predicate SlabOk(s: Slab) {
    && (forall serial: nat :: FlyingOk(s, serial))
    && (forall token: nat :: EntryOk(s, token))
    && OwnersDiffer(s)
    && (forall serial :: serial in s.results ==> serial < s.next)
    && (forall serial :: serial in s.delivered ==> serial < s.next)
  }

  /** A waiting operation owns its entry, which is not abandoned; while the submission is in flight the
      kernel writes to this operation's buffer and the latest waker is registered. */
  ghost predicate OpOk(s: System, id: nat) {
    id in s.ops && s.ops[id].token.Some? ==>
      var op := s.ops[id];
      var token := op.token.value;
      && token in s.slab.comps && token in s.slab.owner && s.slab.owner[token] == op.serial
      && s.slab.comps[token].ignored.None?
      && (s.slab.comps[token].completed.None? ==>
            && s.slab.comps[token].waiter == Some(op.waker)
            && op.serial in s.slab.flying && s.slab.flying[op.serial].buffer == op.buffer)
  }

  /** The buffer of a submission in flight is with its operation or with the driver, unless it was orphaned;
      then it is with neither. */
  ghost predicate BufferHeld(s: System, serial: nat) {
    serial in s.slab.flying ==>
      var sub := s.slab.flying[serial];
      && sub.token in s.slab.comps
      && if serial in s.orphans then s.slab.comps[sub.token].ignored.None? && !Owned(s.ops, sub.token)
         else s.slab.comps[sub.token].ignored == Some(sub.buffer) || Owned(s.ops, sub.token)
  }

  ghost predicate Owned(ops: map<nat, ReadOp>, token: nat) {
    exists id :: id in ops && ops[id].token == Some(token)
  }

  ghost predicate Inv(s: System) {
    && SlabOk(s.slab)
    && (forall id: nat :: OpOk(s, id))
    && (forall a, b :: a in s.ops && b in s.ops && s.ops[a].token.Some? && s.ops[a].token == s.ops[b].token ==> a == b)
    && (forall serial: nat :: BufferHeld(s, serial))
    && (forall serial :: serial in s.orphans ==> serial < s.slab.next)
  }

  // ---------------------------------------------------------------------------------------
  // Each call keeps the slab

  lemma SubmitSlab(s: Slab, key: nat, buffer: Buffer, waker: Waker)
    requires SlabOk(s) && key !in s.comps
    ensures SlabOk(Submit(s, key, buffer, waker))
  {
    var s' := Submit(s, key, buffer, waker);
    forall serial: nat ensures FlyingOk(s', serial) {
      assert FlyingOk(s, serial);
    }
    forall token: nat ensures EntryOk(s', token) {
      assert EntryOk(s, token);
    }
    forall a, b | a in s'.comps && b in s'.comps && a in s'.owner && b in s'.owner && s'.owner[a] == s'.owner[b] ensures a == b {
      assert EntryOk(s, a) && EntryOk(s, b);
    }
  }

  lemma TakeSlab(s: Slab, token: nat)
    requires SlabOk(s)
    ensures SlabOk(TakeResult(s, token))
  {
    var s' := TakeResult(s, token);
    forall serial: nat ensures FlyingOk(s', serial) {
      assert FlyingOk(s, serial) && EntryOk(s, token);
    }
    forall t: nat ensures EntryOk(s', t) {
      assert EntryOk(s, t) && EntryOk(s, token);
    }
    assert EntryOk(s, token);
  }

  /** Changes of waker and abandonment do not matter to the slab's accounts. */
  lemma EditSlab(s: Slab, token: nat, c: Completion)
    requires SlabOk(s) && token in s.comps && c.completed == s.comps[token].completed
    ensures SlabOk(s.(comps := s.comps[token := c]))
  {
    var s' := s.(comps := s.comps[token := c]);
    forall serial: nat ensures FlyingOk(s', serial) {
      assert FlyingOk(s, serial);
    }
    forall t: nat ensures EntryOk(s', t) {
      assert EntryOk(s, t);
    }
  }

  lemma CompleteSlab(s: Slab, serial: nat, result: int)
    requires SlabOk(s) && serial in s.flying
    ensures SlabOk(Complete(s, serial, result))
  {
    var s' := Complete(s, serial, result);
    assert FlyingOk(s, serial);
    forall k: nat ensures FlyingOk(s', k) {
      assert FlyingOk(s, k);
    }
    forall t: nat ensures EntryOk(s', t) {
      assert EntryOk(s, t);
    }
  }

  // ---------------------------------------------------------------------------------------
  // Each step keeps operations and buffers

  lemma NewStep(s: System, id: nat, buffer: Buffer)
    requires Inv(s) && id !in s.ops
    ensures Inv(Do(s, DoNew(id, buffer)))
  {
    var s' := Do(s, DoNew(id, buffer));
    forall o: nat ensures OpOk(s', o) {
      assert OpOk(s, o);
    }
    forall serial: nat ensures BufferHeld(s', serial) {
      assert BufferHeld(s, serial);
      if serial in s.slab.flying {
        OwnedWithout(s.ops, s'.ops, id, s.slab.flying[serial].token);
        KeepsHolder(s, s', serial);
      }
    }
  }

  /** Nothing changes for a submission whose token is owned as before. */
  lemma KeepsHolder(s: System, s': System, serial: nat)
    requires BufferHeld(s, serial) && serial in s'.slab.flying && serial in s.slab.flying
    requires s'.slab.flying[serial] == s.slab.flying[serial] && (serial in s'.orphans <==> serial in s.orphans)
    requires var token := s.slab.flying[serial].token;
      && token in s'.slab.comps && token in s.slab.comps
      && s'.slab.comps[token].ignored == s.slab.comps[token].ignored
      && (Owned(s'.ops, token) <==> Owned(s.ops, token))
    ensures BufferHeld(s', serial)
  {
  }

  /** An operation that does not have the token does not matter to who owns it. */
  lemma OwnedWithout(ops: map<nat, ReadOp>, ops': map<nat, ReadOp>, id: nat, token: nat)
    requires forall o :: o != id ==> (o in ops <==> o in ops') && (o in ops ==> ops[o].token == ops'[o].token)
    requires (id in ops && ops[id].token == Some(token)) <==> (id in ops' && ops'[id].token == Some(token))
    ensures Owned(ops', token) <==> Owned(ops, token)
  {
    if o :| o in ops && ops[o].token == Some(token) {
      assert o in ops' && ops'[o].token == Some(token);
    }
    if o :| o in ops' && ops'[o].token == Some(token) {
      assert o in ops && ops[o].token == Some(token);
    }
  }

  lemma DropStep(s: System, id: nat, inside: bool)
    requires Inv(s) && id in s.ops
    ensures Inv(DropOp(s, id, inside))
  {
    var s' := DropOp(s, id, inside);
    var op := s.ops[id];
    assert OpOk(s, id);
    if op.token.Some? {
      var token := op.token.value;
      assert EntryOk(s.slab, token);
      EditSlab(s.slab, token, s.slab.comps[token].(ignored := Some(op.buffer)));
    }
    forall o: nat ensures OpOk(s', o) {
      assert OpOk(s, o);
    }
    forall serial: nat ensures BufferHeld(s', serial) {
      DropHeld(s, id, inside, serial);
    }
  }

  lemma DropHeld(s: System, id: nat, inside: bool, serial: nat)
    requires Inv(s) && id in s.ops
    ensures BufferHeld(DropOp(s, id, inside), serial)
  {
    var s', op := DropOp(s, id, inside), s.ops[id];
    assert BufferHeld(s, serial) && FlyingOk(s.slab, serial) && OpOk(s, id);
    if serial in s.slab.flying {
      var token := s.slab.flying[serial].token;
      if op.token != Some(token) {
        OwnedWithout(s.ops, s'.ops, id, token);
        KeepsHolder(s, s', serial);
      } else {
        assert Owned(s.ops, token) && op.serial == serial;
        assert !Owned(s'.ops, token);
      }
    }
  }

  lemma CompleteStep(s: System, serial: nat, result: int)
    requires Inv(s) && serial in s.slab.flying
    ensures Inv(Do(s, DoComplete(serial, result)))
  {
    var s' := Do(s, DoComplete(serial, result));
    CompleteSlab(s.slab, serial, result);
    assert FlyingOk(s.slab, serial);
    forall o: nat ensures OpOk(s', o) {
      assert OpOk(s, o);
    }
    forall k: nat ensures BufferHeld(s', k) {
      assert BufferHeld(s, k) && FlyingOk(s.slab, k);
    }
  }

  lemma TakeStep(s: System, id: nat)
    requires Inv(s) && id in s.ops && s.ops[id].token.Some? && Result(s.slab, s.ops[id].token.value).Some?
    ensures Inv(s.(slab := TakeResult(s.slab, s.ops[id].token.value), ops := s.ops[id := s.ops[id].(token := None)]))
  {
    var token := s.ops[id].token.value;
    var s' := s.(slab := TakeResult(s.slab, token), ops := s.ops[id := s.ops[id].(token := None)]);
    TakeSlab(s.slab, token);
    assert EntryOk(s.slab, token);
    forall o: nat ensures OpOk(s', o) {
      assert OpOk(s, o);
    }
    forall k: nat ensures BufferHeld(s', k) {
      assert BufferHeld(s, k) && FlyingOk(s.slab, k);
      if k in s.slab.flying {
        OwnedWithout(s.ops, s'.ops, id, s.slab.flying[k].token);
        KeepsHolder(s, s', k);
      }
    }
  }

  lemma RepollStep(s: System, id: nat, waker: Waker)
    requires Inv(s) && id in s.ops && s.ops[id].token.Some? && Result(s.slab, s.ops[id].token.value).None?
    ensures Inv(s.(slab := SetWaker(s.slab, s.ops[id].token.value, waker), ops := s.ops[id := s.ops[id].(waker := waker)]))
  {
    var token := s.ops[id].token.value;
    var s' := s.(slab := SetWaker(s.slab, token, waker), ops := s.ops[id := s.ops[id].(waker := waker)]);
    assert OpOk(s, id);
    EditSlab(s.slab, token, s.slab.comps[token].(waiter := Some(waker)));
    forall o: nat ensures OpOk(s', o) {
      assert OpOk(s, o);
    }
    forall k: nat ensures BufferHeld(s', k) {
      assert BufferHeld(s, k) && FlyingOk(s.slab, k);
      if k in s.slab.flying {
        OwnedWithout(s.ops, s'.ops, id, s.slab.flying[k].token);
        KeepsHolder(s, s', k);
      }
    }
  }

  lemma SubmitStep(s: System, id: nat, waker: Waker, key: nat)
    requires Inv(s) && id in s.ops && s.ops[id].token.None? && key !in s.slab.comps
    ensures Inv(s.(slab := Submit(s.slab, key, s.ops[id].buffer, waker),
                   ops := s.ops[id := ReadOp(Some(key), s.ops[id].buffer, s.slab.next, waker)]))
  {
    var op' := ReadOp(Some(key), s.ops[id].buffer, s.slab.next, waker);
    var s' := s.(slab := Submit(s.slab, key, s.ops[id].buffer, waker), ops := s.ops[id := op']);
    SubmitSlab(s.slab, key, s.ops[id].buffer, waker);
    forall o: nat ensures OpOk(s', o) {
      assert OpOk(s, o);
      if o in s.ops && o != id && s.ops[o].token.Some? {
        assert EntryOk(s.slab, s.ops[o].token.value);
      }
    }
    forall a, b | a in s'.ops && b in s'.ops && s'.ops[a].token.Some? && s'.ops[a].token == s'.ops[b].token ensures a == b {
      assert OpOk(s, a) && OpOk(s, b);
    }
    forall k: nat ensures BufferHeld(s', k) {
      assert BufferHeld(s, k) && FlyingOk(s.slab, k);
      if k == s.slab.next {
        assert s'.ops[id].token == Some(key);
      } else if k in s.slab.flying {
        OwnedWithout(s.ops, s'.ops, id, s.slab.flying[k].token);
        KeepsHolder(s, s', k);
      }
    }
  }

  lemma StepInv(s: System, step: Step)
    requires Inv(s) && Possible(s, step)
    ensures Inv(Do(s, step))
  {
    hide Inv;
    match step
    case DoNew(id, buffer) => NewStep(s, id, buffer);
    case DoPoll(id, waker, key, ok) =>
      if s.ops[id].token.Some? {
        if Result(s.slab, s.ops[id].token.value).Some? {
          TakeStep(s, id);
        } else {
          RepollStep(s, id, waker);
        }
      } else if ok {
        SubmitStep(s, id, waker, key);
      }
    case DoDrop(id, inside) => DropStep(s, id, inside);
    case DoComplete(serial, result) => CompleteStep(s, serial, result);
  }

  const EMPTY := System(Slab(map[], map[], map[], map[], {}, 0), map[], {})

  ghost predicate IsRun(run: seq<System>, steps: seq<Step>) {
    && |run| == |steps| + 1 && run[0] == EMPTY
    && forall k :: 0 <= k < |steps| ==> Possible(run[k], steps[k]) && run[k + 1] == Do(run[k], steps[k])
  }

  lemma {:induction false} RunInv(run: seq<System>, steps: seq<Step>, k: nat)
    requires IsRun(run, steps) && k < |run|
    ensures Inv(run[k])
  {
    if k > 0 {
      RunInv(run, steps, k - 1);
      StepInv(run[k - 1], steps[k - 1]);
    }
  }

  // ---------------------------------------------------------------------------------------
  // Ownership

  /** A token the slab may hand out is not the token of any submission whose completion has not been
      drained. */
  lemma TokenNotReissued(run: seq<System>, steps: seq<Step>, k: nat, key: nat, serial: nat)
    requires IsRun(run, steps) && k < |run| && key !in run[k].slab.comps && serial in run[k].slab.flying
    ensures run[k].slab.flying[serial].token != key
  {
    RunInv(run, steps, k);
    assert FlyingOk(run[k].slab, serial);
  }

  /** A poll that returns a result returns what the kernel posted for the very submission of that
      operation, and does so for the first time. */
  lemma ResultIsOwnAndOnce(run: seq<System>, steps: seq<Step>, k: nat, id: nat)
    requires IsRun(run, steps) && k < |run| && id in run[k].ops && PollResult(run[k], id).Some?
    ensures var s, op := run[k].slab, run[k].ops[id];
      op.serial in s.results && PollResult(run[k], id) == Some(s.results[op.serial]) && op.serial !in s.delivered
  {
    RunInv(run, steps, k);
    assert OpOk(run[k], id);
    assert EntryOk(run[k].slab, run[k].ops[id].token.value);
  }

  /** Handed out once, a submission's result is never handed out again. */
  lemma {:induction false} DeliveredForGood(run: seq<System>, steps: seq<Step>, j: nat, k: nat, serial: nat)
    requires IsRun(run, steps) && j <= k < |run| && serial in run[j].slab.delivered
    ensures serial in run[k].slab.delivered
    ensures forall id :: id in run[k].ops && PollResult(run[k], id).Some? ==> run[k].ops[id].serial != serial
  {
    hide Do;
    if j < k {
      DeliveredForGood(run, steps, j, k - 1, serial);
      DeliveredGrows(run[k - 1], steps[k - 1]);
    }
    forall id | id in run[k].ops && PollResult(run[k], id).Some? ensures run[k].ops[id].serial != serial {
      ResultIsOwnAndOnce(run, steps, k, id);
    }
  }

  lemma DeliveredGrows(s: System, step: Step)
    requires Possible(s, step)
    ensures s.slab.delivered <= Do(s, step).slab.delivered
  {
  }

  /** The buffer of a submission is with its own operation, or with the driver. */
  ghost predicate Safe(s: System, serial: nat)
    requires serial in s.slab.flying
  {
    var sub := s.slab.flying[serial];
    || (exists id :: id in s.ops && s.ops[id].token == Some(sub.token) && s.ops[id].buffer == sub.buffer)
    || (sub.token in s.slab.comps && s.slab.comps[sub.token].ignored == Some(sub.buffer))
  }

  /** While the kernel may write to a buffer, the operation or the driver keeps it, if and only if the
      operation was not dropped, waiting, outside its runtime. */
  lemma BufferOutlivesSubmission(run: seq<System>, steps: seq<Step>, k: nat, serial: nat)
    requires IsRun(run, steps) && k < |run| && serial in run[k].slab.flying
    ensures Safe(run[k], serial) <==> serial !in run[k].orphans
  {
    RunInv(run, steps, k);
    var s := run[k];
    var sub := s.slab.flying[serial];
    assert BufferHeld(s, serial) && FlyingOk(s.slab, serial);
    if serial !in s.orphans && s.slab.comps[sub.token].ignored != Some(sub.buffer) {
      var id :| id in s.ops && s.ops[id].token == Some(sub.token);
      assert OpOk(s, id);
      assert id in s.ops && s.ops[id].token == Some(sub.token) && s.ops[id].buffer == sub.buffer;
    }
  }

  /** A run that gets there: a read is submitted, and dropped where no runtime is entered. */
  lemma OrphanReached(buffer: Buffer, waker: Waker) returns (run: seq<System>, steps: seq<Step>)
    ensures IsRun(run, steps) && steps == [DoNew(0, buffer), DoPoll(0, waker, 0, true), DoDrop(0, false)]
    ensures 0 in run[3].slab.flying && run[3].slab.flying[0].buffer == buffer && !Safe(run[3], 0)
  {
    steps := [DoNew(0, buffer), DoPoll(0, waker, 0, true), DoDrop(0, false)];
    var s1 := Do(EMPTY, steps[0]);
    var s2 := Do(s1, steps[1]);
    assert s2.slab.flying == map[0 := Submission(0, buffer)] && s2.ops[0].token == Some(0) && s2.ops[0].serial == 0;
    run := [EMPTY, s1, s2, Do(s2, steps[2])];
    assert 0 in run[3].orphans;
    BufferOutlivesSubmission(run, steps, 3, 0);
  }

  /** An operation of another runtime, dropped while this one is current, abandons whatever entry has its
      token here: the operation that waits on that entry never gets its result, and loses its token. */
  lemma ForeignDropStrands(run: seq<System>, steps: seq<Step>, k: nat, id: nat, data: Buffer, result: int)
    requires IsRun(run, steps) && k < |run| && id in run[k].ops && run[k].ops[id].token.Some? && PollResult(run[k], id).None?
    ensures var s, op := run[k], run[k].ops[id];
      var s' := s.(slab := Ignore(s.slab, op.token.value, data));
      && op.serial in s'.slab.flying
      && PollResult(Do(s', DoComplete(op.serial, result)), id).None?
      && op.token.value !in Do(s', DoComplete(op.serial, result)).slab.comps
  {
    RunInv(run, steps, k);
    assert OpOk(run[k], id);
    assert EntryOk(run[k].slab, run[k].ops[id].token.value);
  }

  /** A buffer abandoned while its submission is in flight is released by the drain of that very
      completion: the entry that held it goes, and with it the token. */
  lemma DrainReleasesBuffer(run: seq<System>, steps: seq<Step>, k: nat, token: nat, result: int)
    requires IsRun(run, steps) && k < |run| && token in run[k].slab.comps
    requires run[k].slab.comps[token].ignored.Some? && run[k].slab.comps[token].completed.None?
    ensures var s := run[k].slab;
      && token in s.owner && s.owner[token] in s.flying
      && token !in Complete(s, s.owner[token], result).comps
      && forall other :: other in s.flying && other != s.owner[token] ==> token in Complete(s, other, result).comps
  {
    RunInv(run, steps, k);
    assert EntryOk(run[k].slab, token);
    forall other | other in run[k].slab.flying && other != run[k].slab.owner[token]
      ensures token in Complete(run[k].slab, other, result).comps
    {
      assert FlyingOk(run[k].slab, other);
    }
  }

  /** An operation left pending is in flight under its latest waker: draining its completion yields that
      waker, and the next poll returns what was posted. */
  lemma PendingIsWoken(run: seq<System>, steps: seq<Step>, k: nat, id: nat, result: int)
    requires IsRun(run, steps) && k < |run| && id in run[k].ops && run[k].ops[id].token.Some? && PollResult(run[k], id).None?
    ensures var s, op := run[k], run[k].ops[id];
      && op.serial in s.slab.flying && s.slab.flying[op.serial].token == op.token.value
      && Yields(s.slab, op.serial) == Some(op.waker)
      && PollResult(Do(s, DoComplete(op.serial, result)), id) == Some(result)
  {
    RunInv(run, steps, k);
    assert OpOk(run[k], id);
    assert EntryOk(run[k].slab, run[k].ops[id].token.value);
  }

  // ---------------------------------------------------------------------------------------
  // What the history means

  predicate Concerns(step: Step, id: nat) {
    (step.DoPoll? || step.DoDrop? || step.DoNew?) && step.id == id
  }

  /** A drain touches one entry: it stores the result and takes the waiter, or removes an abandoned entry. */
  lemma CompleteExact(s: Slab, serial: nat, result: int, token: nat)
    requires serial in s.flying && s.flying[serial].token in s.comps
    ensures var s', own := Complete(s, serial, result), s.flying[serial].token;
      && serial !in s'.flying
      && (token != own ==> (token in s'.comps <==> token in s.comps) && (token in s.comps ==> s'.comps[token] == s.comps[token]))
      && (own in s'.comps <==> s.comps[own].ignored.None?)
      && (own in s'.comps ==> s'.comps[own] == Completion(None, Some(result), None))
  {
  }

  /** What a poll that leaves the operation waiting records. */
  lemma PollRecords(s: System, step: Step)
    requires Possible(s, step) && step.DoPoll? && Do(s, step).ops[step.id].token.Some?
    ensures Do(s, step).ops[step.id].waker == step.waker && Do(s, step).ops[step.id].buffer == s.ops[step.id].buffer
    ensures PollResult(s, step.id).None?
  {
  }

  lemma OthersLeave(s: System, step: Step, id: nat)
    requires Possible(s, step) && id in s.ops && !Concerns(step, id)
    ensures id in Do(s, step).ops && Do(s, step).ops[id] == s.ops[id]
  {
  }

  /** From a poll that leaves the operation waiting, until it is polled again or dropped: it waits in flight
      under the waker of that very poll, or its completion has been drained and yielded that waker. */
  lemma {:induction false} LatestWakerKept(run: seq<System>, steps: seq<Step>, j: nat, k: nat)
    requires IsRun(run, steps) && j < k < |run| && steps[j].DoPoll? && run[j + 1].ops[steps[j].id].token.Some?
    requires forall m :: j < m < k ==> !Concerns(steps[m], steps[j].id)
    ensures var id := steps[j].id;
      && id in run[k].ops && run[k].ops[id] == run[j + 1].ops[id] && run[k].ops[id].waker == steps[j].waker
      && (PollResult(run[k], id).None? ==>
            run[k].ops[id].serial in run[k].slab.flying && Yields(run[k].slab, run[k].ops[id].serial) == Some(steps[j].waker))
      && (PollResult(run[k], id).Some? ==> exists m :: j < m < k && YieldedAt(run[m], steps[m], run[k].ops[id].serial, steps[j].waker))
  {
    var id := steps[j].id;
    if k == j + 1 {
      PollRecords(run[j], steps[j]);
      FreshlyPending(run, steps, j);
    } else {
      LatestWakerKept(run, steps, j, k - 1);
      OthersLeave(run[k - 1], steps[k - 1], id);
      ResultArrives(run, steps, k - 1, id);
    }
    if PollResult(run[k], id).None? {
      PendingIsWoken(run, steps, k, id, 0);
    }
  }

  ghost predicate YieldedAt(s: System, step: Step, serial: nat, waker: Waker) {
    step.DoComplete? && step.serial == serial && serial in s.slab.flying && Yields(s.slab, serial) == Some(waker)
  }

  lemma FreshlyPending(run: seq<System>, steps: seq<Step>, j: nat)
    requires IsRun(run, steps) && j < |steps| && steps[j].DoPoll? && run[j + 1].ops[steps[j].id].token.Some?
    ensures PollResult(run[j + 1], steps[j].id).None?
  {
  }

  /** A waiting operation's result appears in the very step that drains its completion, and stays. */
  lemma ResultArrives(run: seq<System>, steps: seq<Step>, k: nat, id: nat)
    requires IsRun(run, steps) && k < |steps| && id in run[k].ops && run[k].ops[id].token.Some? && !Concerns(steps[k], id)
    ensures id in run[k + 1].ops && run[k + 1].ops[id] == run[k].ops[id]
    ensures PollResult(run[k], id).None? && PollResult(run[k + 1], id).Some? ==>
      YieldedAt(run[k], steps[k], run[k].ops[id].serial, run[k].ops[id].waker)
    ensures PollResult(run[k], id).Some? ==> PollResult(run[k + 1], id) == PollResult(run[k], id)
  {
    RunInv(run, steps, k);
    var s, op := run[k], run[k].ops[id];
    assert OpOk(s, id) && EntryOk(s.slab, op.token.value);
    if steps[k].DoComplete? {
      assert FlyingOk(s.slab, steps[k].serial);
    } else if !steps[k].DoNew? {
      assert OpOk(s, steps[k].id);
    }
  }

  /** The results on record are those the kernel posted. */
  lemma {:induction false} ResultsExact(run: seq<System>, steps: seq<Step>, k: nat, serial: nat, result: int)
    requires IsRun(run, steps) && k < |run|
    ensures serial in run[k].slab.results && run[k].slab.results[serial] == result
      <==> exists m :: 0 <= m < k && steps[m] == DoComplete(serial, result)
  {
    hide Do; hide Inv; hide Possible;
    if k > 0 {
      ResultsExact(run, steps, k - 1, serial, result);
      RunInv(run, steps, k - 1);
      ResultsStep(run[k - 1], steps[k - 1], serial, result);
    }
  }

  lemma ResultsStep(s: System, step: Step, serial: nat, result: int)
    requires Inv(s) && Possible(s, step)
    ensures serial in Do(s, step).slab.results && Do(s, step).slab.results[serial] == result
      <==> (serial in s.slab.results && s.slab.results[serial] == result) || step == DoComplete(serial, result)
  {
    if step.DoComplete? {
      assert FlyingOk(s.slab, step.serial);
    }
  }

  /** The step returns the result of a submission. */
  predicate Delivers(s: System, step: Step, serial: nat) {
    step.DoPoll? && step.id in s.ops && PollResult(s, step.id).Some? && s.ops[step.id].serial == serial
  }

  lemma DeliveredStep(s: System, step: Step, serial: nat)
    requires Inv(s) && Possible(s, step)
    ensures serial in Do(s, step).slab.delivered <==> serial in s.slab.delivered || Delivers(s, step, serial)
  {
    if step.DoPoll? {
      assert OpOk(s, step.id);
    }
  }

  lemma {:induction false} DeliveredExact(run: seq<System>, steps: seq<Step>, k: nat, serial: nat)
    requires IsRun(run, steps) && k < |run|
    ensures serial in run[k].slab.delivered <==> exists m :: 0 <= m < k && Delivers(run[m], steps[m], serial)
  {
    hide Do; hide Inv; hide Delivers; hide Possible;
    if k > 0 {
      DeliveredExact(run, steps, k - 1, serial);
      RunInv(run, steps, k - 1);
      DeliveredStep(run[k - 1], steps[k - 1], serial);
    }
  }

  /** No two polls return the result of one submission, and the result returned is what the kernel posted
      for it. */
  lemma EachResultOnce(run: seq<System>, steps: seq<Step>, m: nat, n: nat, serial: nat)
    requires IsRun(run, steps) && m <= n < |steps| && Delivers(run[m], steps[m], serial) && Delivers(run[n], steps[n], serial)
    ensures m == n
    ensures exists i :: 0 <= i < n && steps[i] == DoComplete(serial, PollResult(run[n], steps[n].id).value)
  {
    DeliveredExact(run, steps, n, serial);
    ResultIsOwnAndOnce(run, steps, n, steps[n].id);
    ResultsExact(run, steps, n, serial, PollResult(run[n], steps[n].id).value);
  }

  predicate Orphans(s: System, step: Step, serial: nat) {
    step.DoDrop? && !step.inside && step.id in s.ops && s.ops[step.id].token.Some? && s.ops[step.id].serial == serial
  }

  /** A submission is orphaned if and only if its operation was dropped, waiting, where its runtime was not the
      current one. */
  lemma {:induction false} OrphansExact(run: seq<System>, steps: seq<Step>, k: nat, serial: nat)
    requires IsRun(run, steps) && k < |run|
    ensures serial in run[k].orphans <==> exists m :: 0 <= m < k && Orphans(run[m], steps[m], serial)
  {
    if k > 0 {
      OrphansExact(run, steps, k - 1, serial);
      assert serial in run[k].orphans <==> serial in run[k - 1].orphans || Orphans(run[k - 1], steps[k - 1], serial);
    }
  }
}
