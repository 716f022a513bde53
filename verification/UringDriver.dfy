/** `UringDriver` of driver/uring.rs: the two slabs, updated in place.  The kernel's side of UringPolls and
    UringOps is ghost state. */
module UringDriverClass {
  import opened Basics
  import UringKeys
  import P = UringPolls
  import O = UringOps

  /** One entry of the completion queue. */
  datatype Cqe = Cqe(key: nat, result: int)

  /** What an entry completes. */
  datatype Origin = Interrupted | TimedOut | OfPoll(serial: nat) | OfOp(serial: nat)

  function PollKind(write: bool): UringKeys.Kind {
    if write then UringKeys.PollWrite else UringKeys.PollRead
  }

  /** The entry carries the key that its submission was pushed with.  Slab tokens stay below the last
      62-bit one. */
  ghost predicate Genuine(cqe: Cqe, origin: Origin, polls: map<nat, P.Poll>, ops: map<nat, O.Submission>) {
    match origin
    case Interrupted => cqe.key == UringKeys.INTERRUPT_KEY
    case TimedOut => cqe.key == UringKeys.TIMEOUT_KEY
    case OfPoll(serial) =>
      && serial in polls && polls[serial].token < UringKeys.TOKENS - 1
      && cqe.key == UringKeys.Encode(polls[serial].token, PollKind(polls[serial].write))
    case OfOp(serial) =>
      && serial in ops && ops[serial].token < UringKeys.TOKENS - 1
      && cqe.key == UringKeys.Encode(ops[serial].token, UringKeys.Completion)
  }

  /** A batch of entries, each completing something else. */
  ghost predicate GenuineAll(cqes: seq<Cqe>, origins: seq<Origin>, polls: map<nat, P.Poll>, ops: map<nat, O.Submission>) {
    && |cqes| == |origins|
    && (forall k :: 0 <= k < |cqes| ==> Genuine(cqes[k], origins[k], polls, ops))
    && (forall j, k :: 0 <= j < k < |cqes| && (origins[j].OfPoll? || origins[j].OfOp?) ==> origins[j] != origins[k])
  }

  // What draining does, entry by entry.

  ghost function PollsAfter(s: P.State, origin: Origin): P.State {
    if origin.OfPoll? && origin.serial in s.flying then P.Complete(s, origin.serial) else s
  }

  ghost function SlabAfter(s: O.Slab, origin: Origin, result: int): O.Slab {
    if origin.OfOp? && origin.serial in s.flying then O.Complete(s, origin.serial, result) else s
  }

  ghost function PollsAfterAll(s: P.State, origins: seq<Origin>): P.State {
    if origins == [] then s else PollsAfter(PollsAfterAll(s, origins[..|origins| - 1]), origins[|origins| - 1])
  }

  ghost function SlabAfterAll(s: O.Slab, origins: seq<Origin>, cqes: seq<Cqe>): O.Slab
    requires |cqes| == |origins|
  {
    if origins == [] then s
    else SlabAfter(SlabAfterAll(s, origins[..|origins| - 1], cqes[..|cqes| - 1]), origins[|origins| - 1], cqes[|cqes| - 1].result)
  }

  /** The waker that draining one entry calls. */
  ghost function Wakes(polls: P.State, slab: O.Slab, origin: Origin): seq<Waker> {
    match origin
    case OfPoll(serial) => if serial in polls.flying then AsSeq(P.Yields(polls, serial)) else []
    case OfOp(serial) => if serial in slab.flying then AsSeq(O.Yields(slab, serial)) else []
    case _ => []
  }

  /** The wakers of a whole batch, in the order of its entries. */
  ghost function WakesAll(polls: P.State, slab: O.Slab, origins: seq<Origin>, cqes: seq<Cqe>): seq<Waker>
    requires |cqes| == |origins|
  {
    if origins == [] then []
    else
      var k := |origins| - 1;
      WakesAll(polls, slab, origins[..k], cqes[..k])
      + Wakes(PollsAfterAll(polls, origins[..k]), SlabAfterAll(slab, origins[..k], cqes[..k]), origins[k])
  }

  function AsSeq(w: Option<Waker>): seq<Waker> {
    if w.Some? then [w.value] else []
  }

  class UringDriver {
    var registrations: map<nat, P.Reg>
    var completions: map<nat, O.Completion>
    ghost var polls: P.State     // with `registrations` as its `regs`
    ghost var slab: O.Slab       // with `completions` as its `comps`

    // Equations, so that callers see each invariant as a unit.
    ghost predicate Valid()
      reads this
    {
      polls.regs == registrations && slab.comps == completions && P.Inv(polls) == true && O.SlabOk(slab) == true
    }

    constructor ()
      ensures Valid() && polls == P.State(map[], map[], map[], map[], 0) && slab == O.EMPTY.slab
    {
      registrations, completions := map[], map[];
      polls, slab := P.State(map[], map[], map[], map[], 0), O.EMPTY.slab;
    }

    /** `key` is the slab's vacant key. */
    method RegisterHandleWithMode(key: nat, poll: bool)
      requires Valid() && key !in registrations
      modifies this`registrations, this`polls
      ensures Valid() && polls == P.Register(old(polls), key, poll)
    {
      P.StepInv(polls, P.DoRegister(key, poll));
      hide P.Inv; hide O.SlabOk;
      registrations := registrations[key := if poll then P.PollMode(P.IDLE, P.IDLE) else P.CompletionMode];
      polls := P.Register(polls, key, poll);
    }

    method DeregisterHandle(token: nat) returns (found: bool)
      requires Valid()
      modifies this`registrations, this`polls
      ensures Valid() && found == (token in old(registrations)) && polls == P.Deregister(old(polls), token)
      ensures token !in registrations
    {
      P.StepInv(polls, P.DoDeregister(token));
      hide P.Inv; hide O.SlabOk;
      found := token in registrations;
      registrations := registrations - {token};
      polls := P.Deregister(polls, token);
    }

    /** `pushed` is the outcome of the push, if one is made. */
    method SubmitPoll(token: nat, waker: Waker, interest: Sides, pushed: bool) returns (ok: bool)
      requires Valid() && (interest.r || interest.w)
      modifies this`registrations, this`polls
      ensures Valid()
      ensures ok <==> P.IsPoll(old(polls), token) && (pushed || P.GetArm(old(registrations)[token], interest.w).armed)
      ensures polls == if P.IsPoll(old(polls), token) then P.SubmitPoll(old(polls), token, waker, interest, pushed) else old(polls)
    {
      hide P.Inv; hide O.SlabOk;
      if token !in registrations || registrations[token].CompletionMode? {
        return false;
      }
      P.StepInv(polls, P.DoSubmitPoll(token, waker, interest, pushed));
      polls := P.SubmitPoll(polls, token, waker, interest, pushed);
      var write := interest.w;
      var reg := registrations[token];
      reg := if write then reg.(write := reg.write.(waiter := Some(waker))) else reg.(read := reg.read.(waiter := Some(waker)));
      var mustPush := !(write && reg.write.armed) && !(!write && reg.read.armed);
      if mustPush {
        reg := if write then reg.(write := reg.write.(armed := true)) else reg.(read := reg.read.(armed := true));
        if !pushed {
          reg := if write then reg.(write := P.Arm(None, false)) else reg.(read := P.Arm(None, false));
          registrations := registrations[token := reg];
          return false;
        }
      }
      registrations := registrations[token := reg];
      return true;
    }

    /** `ok`: the entry could be built and pushed.  Returns the token to wait on. */
    method SubmitCompletion(key: nat, waker: Waker, ok: bool, ghost buffer: O.Buffer) returns (token: Option<nat>)
      requires Valid() && key !in completions
      modifies this`completions, this`slab
      ensures Valid() && token == (if ok then Some(key) else None)
      ensures slab == if ok then O.Submit(old(slab), key, buffer, waker) else old(slab)
    {
      if !ok {
        return None;
      }
      O.SubmitSlab(slab, key, buffer, waker);
      hide P.Inv; hide O.SlabOk;
      completions := completions[key := O.Completion(Some(waker), None, None)];
      slab := O.Submit(slab, key, buffer, waker);
      return Some(key);
    }

    method GetCompletionResult(token: nat) returns (result: Option<int>)
      requires Valid()
      modifies this`completions, this`slab
      ensures Valid() && result == O.Result(old(slab), token) && slab == O.TakeResult(old(slab), token)
    {
      O.TakeSlab(slab, token);
      hide P.Inv; hide O.SlabOk;
      result := if token in completions then completions[token].completed else None;
      if result.Some? {
        completions := completions - {token};
      }
      slab := O.TakeResult(slab, token);
    }

    method SetCompletionWaker(token: nat, waker: Waker)
      requires Valid()
      modifies this`completions, this`slab
      ensures Valid() && slab == O.SetWaker(old(slab), token, waker)
    {
      hide P.Inv; hide O.SlabOk;
      if token in completions {
        O.EditSlab(slab, token, completions[token].(waiter := Some(waker)));
        completions := completions[token := completions[token].(waiter := Some(waker))];
        slab := O.SetWaker(slab, token, waker);
      }
    }

    method IgnoreCompletion(token: nat, data: O.Buffer)
      requires Valid()
      modifies this`completions, this`slab
      ensures Valid() && slab == O.Ignore(old(slab), token, data)
    {
      hide P.Inv; hide O.SlabOk;
      if token in completions {
        O.EditSlab(slab, token, completions[token].(ignored := Some(data)));
        completions := completions[token := completions[token].(ignored := Some(data))];
        slab := O.Ignore(slab, token, data);
      }
    }

    /** One entry of the completion queue. */
    method DrainOne(cqe: Cqe, ghost origin: Origin) returns (wakers: seq<Waker>, interrupt: bool)
      requires Valid() && Genuine(cqe, origin, polls.flying, slab.flying)
      modifies this
      ensures Valid()
      ensures polls == PollsAfter(old(polls), origin) && slab == SlabAfter(old(slab), origin, cqe.result)
      ensures wakers == Wakes(old(polls), old(slab), origin) && (interrupt <==> origin.Interrupted?)
    {
      Routing(cqe, origin, polls.flying, slab.flying);
      hide P.Inv; hide O.SlabOk; hide UringKeys.Encode;
      wakers, interrupt := [], false;
      if cqe.key == UringKeys.INTERRUPT_KEY {
        return [], true;
      } else if cqe.key == UringKeys.TIMEOUT_KEY {
        return;
      }
      var token := UringKeys.DecodeToken(cqe.key);
      var kind := UringKeys.DecodeBits(cqe.key);
      if kind == UringKeys.KindBits(UringKeys.PollRead) || kind == UringKeys.KindBits(UringKeys.PollWrite) {
        P.StepInv(polls, P.DoComplete(origin.serial));
        var write := kind == UringKeys.KindBits(UringKeys.PollWrite);
        if token in registrations && registrations[token].PollMode? {
          var reg := registrations[token];
          wakers := AsSeq(if write then reg.write.waiter else reg.read.waiter);
          registrations := registrations[token := if write then reg.(write := P.Arm(None, false)) else reg.(read := P.Arm(None, false))];
        }
        polls := P.Complete(polls, origin.serial);
        return;
      }
      O.CompleteSlab(slab, origin.serial, cqe.result);
      if token in completions {
        var c := completions[token];
        wakers := AsSeq(c.waiter);
        completions := completions[token := c.(completed := Some(cqe.result), waiter := None)];
        if c.ignored.Some? {
          completions := completions - {token};
        }
      }
      slab := O.Complete(slab, origin.serial, cqe.result);
    }

    /** `drain_cq`: every waker is collected, in the order of the entries, before any is called. */
    method DrainCq(cqes: seq<Cqe>, ghost origins: seq<Origin>) returns (wakers: seq<Waker>, interrupt: bool)
      requires Valid() && GenuineAll(cqes, origins, polls.flying, slab.flying)
      modifies this
      ensures Valid()
      ensures polls == PollsAfterAll(old(polls), origins) && slab == SlabAfterAll(old(slab), origins, cqes)
      ensures wakers == WakesAll(old(polls), old(slab), origins, cqes)
      ensures interrupt <==> Interrupted in origins
    {
      hide P.Inv; hide O.SlabOk; hide Genuine; hide PollsAfter; hide SlabAfter; hide Wakes;
      wakers, interrupt := [], false;
      for i := 0 to |cqes|
        invariant Valid()
        invariant forall k :: i <= k < |cqes| ==> Genuine(cqes[k], origins[k], polls.flying, slab.flying)
        invariant polls == PollsAfterAll(old(polls), origins[..i]) && slab == SlabAfterAll(old(slab), origins[..i], cqes[..i])
        invariant wakers == WakesAll(old(polls), old(slab), origins[..i], cqes[..i])
        invariant interrupt <==> Interrupted in origins[..i]
      {
        forall k | i < k < |cqes|
          ensures Genuine(cqes[k], origins[k], PollsAfter(polls, origins[i]).flying, SlabAfter(slab, origins[i], cqes[i].result).flying)
        {
          StaysGenuine(cqes[k], origins[k], origins[i], polls, slab, cqes[i].result);
        }
        var ws, interrupted := DrainOne(cqes[i], origins[i]);
        assert origins[..i + 1][..i] == origins[..i] && cqes[..i + 1][..i] == cqes[..i];
        wakers, interrupt := wakers + ws, interrupt || interrupted;
      }
      assert origins[..|cqes|] == origins && cqes[..|cqes|] == cqes;
    }
  }

  /** Draining one entry leaves the others genuine. */
  lemma StaysGenuine(cqe: Cqe, origin: Origin, drained: Origin, polls: P.State, slab: O.Slab, result: int)
    requires Genuine(cqe, origin, polls.flying, slab.flying)
    requires (drained.OfPoll? || drained.OfOp?) ==> drained != origin
    ensures Genuine(cqe, origin, PollsAfter(polls, drained).flying, SlabAfter(slab, drained, result).flying)
  {
  }

  /** A genuine key leads back to what it was made for, and to nothing else. */
  lemma Routing(cqe: Cqe, origin: Origin, polls: map<nat, P.Poll>, ops: map<nat, O.Submission>)
    requires Genuine(cqe, origin, polls, ops)
    ensures cqe.key == UringKeys.INTERRUPT_KEY <==> origin.Interrupted?
    ensures cqe.key == UringKeys.TIMEOUT_KEY <==> origin.TimedOut?
    ensures origin.OfPoll? ==>
      UringKeys.DecodeToken(cqe.key) == polls[origin.serial].token
      && UringKeys.DecodeBits(cqe.key) == UringKeys.KindBits(PollKind(polls[origin.serial].write))
    ensures origin.OfOp? ==>
      UringKeys.DecodeToken(cqe.key) == ops[origin.serial].token
      && UringKeys.DecodeBits(cqe.key) == UringKeys.KindBits(UringKeys.Completion)
  {
    match origin
    case OfPoll(serial) =>
      UringKeys.KeyRoundTrip(polls[serial].token, PollKind(polls[serial].write));
      UringKeys.ReservedIff(polls[serial].token, PollKind(polls[serial].write));
    case OfOp(serial) =>
      UringKeys.KeyRoundTrip(ops[serial].token, UringKeys.Completion);
      UringKeys.ReservedIff(ops[serial].token, UringKeys.Completion);
    case _ =>
  }

  /** Draining the completion of a pending operation calls the waker of its latest poll. */
  lemma CompletionWakes(run: seq<O.System>, steps: seq<O.Step>, j: nat, k: nat, polls: P.State)
    requires O.IsRun(run, steps) && j < k < |run| && steps[j].DoPoll? && run[j + 1].ops[steps[j].id].token.Some?
    requires forall m :: j < m < k ==> !O.Concerns(steps[m], steps[j].id)
    ensures steps[j].id in run[k].ops
    ensures O.PollResult(run[k], steps[j].id).None? ==>
      Wakes(polls, run[k].slab, OfOp(run[k].ops[steps[j].id].serial)) == [steps[j].waker]
  {
    O.LatestWakerKept(run, steps, j, k);
    hide O.IsRun;
  }

  /** Draining the completion of the latest poll of a side calls the waker of the latest call that asked for
      that side, if nobody was woken since. */
  lemma PollWakes(run: seq<P.State>, steps: seq<P.Step>, j: nat, k: nat, slab: O.Slab)
    requires P.IsRun(run, steps) && j < k < |run| && P.Submits(run[j], steps[j])
    requires forall m :: j < m < k ==> !P.Replaces(steps[m], steps[j].token, steps[j].interest.w)
    ensures var last := if steps[j].interest.w then run[k].lastWrite else run[k].lastRead;
      || (steps[j].token in last && Wakes(run[k], slab, OfPoll(last[steps[j].token])) == [steps[j].waker])
      || exists m :: j < m < k && P.YieldedAt(run[m], steps[m], steps[j].waker)
  {
    P.LatestWakerKept(run, steps, j, k);
    if P.WaiterAt(run[k], steps[j].token, steps[j].interest.w).Some? {
      P.LatestPollYields(run, steps, k, steps[j].token, steps[j].interest.w);
    }
    hide P.IsRun;
  }
}
