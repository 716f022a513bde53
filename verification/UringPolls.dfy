/** The one-shot polls of driver/uring.rs next to the kernel, which holds every poll pushed and not yet
    drained under a serial number of its own, and completes each exactly once, in any order. */
module UringPolls {
  import opened Basics

  /** One side of a poll registration. */
  datatype Arm = Arm(waiter: Option<Waker>, armed: bool)

  /** `HandleRegistration` */
  datatype Reg = CompletionMode | PollMode(read: Arm, write: Arm)

  datatype Poll = Poll(token: nat, write: bool, mask: Sides)

  /** `lastRead` and `lastWrite` are history: the serial of the poll most recently pushed by the
      present registration of a token. */
  datatype State = State(regs: map<nat, Reg>, flying: map<nat, Poll>, lastRead: map<nat, nat>, lastWrite: map<nat, nat>, next: nat)

  const IDLE := Arm(None, false)

  function Register(s: State, token: nat, poll: bool): State {
    s.(regs := s.regs[token := if poll then PollMode(IDLE, IDLE) else CompletionMode],
       lastRead := s.lastRead - {token}, lastWrite := s.lastWrite - {token})
  }

  /** The polls in flight stay in flight until the kernel has completed them. */
  function Deregister(s: State, token: nat): State {
    s.(regs := s.regs - {token})
  }

  predicate IsPoll(s: State, token: nat) {
    token in s.regs && s.regs[token].PollMode?
  }

  function GetArm(reg: Reg, write: bool): Arm
    requires reg.PollMode?
  {
    if write then reg.write else reg.read
  }

  function SetArm(reg: Reg, write: bool, arm: Arm): Reg
    requires reg.PollMode?
  {
    if write then reg.(write := arm) else reg.(read := arm)
  }

  /** `pushed` is the outcome of pushing a submission, if one is pushed.  An interest that includes
      writability goes to the write side. */
  function SubmitPoll(s: State, token: nat, waker: Waker, interest: Sides, pushed: bool): State
    requires IsPoll(s, token)
  {
    var write := interest.w;
    var reg := s.regs[token];
    if GetArm(reg, write).armed then
      s.(regs := s.regs[token := SetArm(reg, write, Arm(Some(waker), true))])
    else if pushed then
      State(s.regs[token := SetArm(reg, write, Arm(Some(waker), true))],
            s.flying[s.next := Poll(token, write, interest)],
            if write then s.lastRead else s.lastRead[token := s.next],
            if write then s.lastWrite[token := s.next] else s.lastWrite,
            s.next + 1)
    else
      s.(regs := s.regs[token := SetArm(reg, write, IDLE)])
  }

  /** The completion of a poll, whichever registration pushed it: the token's side is disarmed and its
      waiter woken. */
  function Complete(s: State, serial: nat): State
    requires serial in s.flying
  {
    var p := s.flying[serial];
    var s := s.(flying := s.flying - {serial});
    if IsPoll(s, p.token) then s.(regs := s.regs[p.token := SetArm(s.regs[p.token], p.write, IDLE)]) else s
  }

  /** The waiter of a side, if there is one. */
  function WaiterAt(s: State, token: nat, write: bool): Option<Waker> {
    if IsPoll(s, token) then GetArm(s.regs[token], write).waiter else None
  }

  /** The waker that a completion yields. */
  function Yields(s: State, serial: nat): Option<Waker>
    requires serial in s.flying
  {
    WaiterAt(s, s.flying[serial].token, s.flying[serial].write)
  }

  // ---------------------------------------------------------------------------------------
  // No waiter stranded

  /** The poll numbered `serial` watches this side of this token. */
  predicate Watches(flying: map<nat, Poll>, serial: nat, token: nat, write: bool) {
    && serial in flying && flying[serial].token == token && flying[serial].write == write
    && (if write then flying[serial].mask.w else flying[serial].mask.r)
  }

  /** A waiter implies an armed side, and an armed side that its latest poll is in flight. */
  predicate ArmOk(arm: Arm, flying: map<nat, Poll>, last: map<nat, nat>, token: nat, write: bool) {
    && (arm.waiter.Some? ==> arm.armed)
    && (arm.armed ==> token in last && Watches(flying, last[token], token, write))
  }

  predicate RegOk(s: State, token: nat) {
    IsPoll(s, token) ==>
      && ArmOk(s.regs[token].read, s.flying, s.lastRead, token, false)
      && ArmOk(s.regs[token].write, s.flying, s.lastWrite, token, true)
  }

  ghost predicate Inv(s: State) {
    && (forall token: nat :: RegOk(s, token))
    && (forall serial :: serial in s.flying ==> serial < s.next)
  }

  lemma SubmitPollOk(s: State, token: nat, waker: Waker, interest: Sides, pushed: bool, t: nat)
    requires Inv(s) && IsPoll(s, token) && (interest.r || interest.w)
    ensures RegOk(SubmitPoll(s, token, waker, interest, pushed), t)
  {
    assert RegOk(s, t);
    var s' := SubmitPoll(s, token, waker, interest, pushed);
    assert forall serial :: serial in s.flying ==> serial in s'.flying && s'.flying[serial] == s.flying[serial];
  }

  lemma CompleteOk(s: State, serial: nat, t: nat)
    requires Inv(s) && serial in s.flying
    ensures RegOk(Complete(s, serial), t)
  {
    assert RegOk(s, t);
    if IsPoll(s, t) {
      assert forall k :: k in s.flying && k != serial ==> k in Complete(s, serial).flying;
    }
  }

  datatype Step =
    | DoRegister(token: nat, poll: bool)
    | DoDeregister(token: nat)
    | DoSubmitPoll(token: nat, waker: Waker, interest: Sides, pushed: bool)
    | DoComplete(serial: nat)

  predicate Possible(s: State, step: Step) {
    match step
    case DoRegister(token, _) => token !in s.regs
    case DoDeregister(_) => true
    case DoSubmitPoll(token, _, interest, _) => IsPoll(s, token) && (interest.r || interest.w)
    case DoComplete(serial) => serial in s.flying
  }

  function Do(s: State, step: Step): State
    requires Possible(s, step)
  {
    match step
    case DoRegister(token, poll) => Register(s, token, poll)
    case DoDeregister(token) => Deregister(s, token)
    case DoSubmitPoll(token, waker, interest, pushed) => SubmitPoll(s, token, waker, interest, pushed)
    case DoComplete(serial) => Complete(s, serial)
  }

  lemma StepInv(s: State, step: Step)
    requires Inv(s) && Possible(s, step)
    ensures Inv(Do(s, step))
  {
    var s' := Do(s, step);
    forall t: nat ensures RegOk(s', t) {
      assert RegOk(s, t);
      match step
      case DoSubmitPoll(token, waker, interest, pushed) => SubmitPollOk(s, token, waker, interest, pushed, t);
      case DoComplete(serial) => CompleteOk(s, serial, t);
      case _ =>
    }
  }

  ghost predicate IsRun(run: seq<State>, steps: seq<Step>) {
    && |run| == |steps| + 1
    && run[0] == State(map[], map[], map[], map[], 0)
    && forall k :: 0 <= k < |steps| ==> Possible(run[k], steps[k]) && run[k + 1] == Do(run[k], steps[k])
  }

  lemma {:induction false} RunInv(run: seq<State>, steps: seq<Step>, k: nat)
    requires IsRun(run, steps) && k < |run|
    ensures Inv(run[k])
  {
    if k > 0 {
      RunInv(run, steps, k - 1);
      StepInv(run[k - 1], steps[k - 1]);
    }
  }

  /** Over every run, even when completions left over from a deregistered handle hit a token in use
      again: whoever waits has a poll of the present registration in flight that watches its side. */
  lemma NoWaiterStranded(run: seq<State>, steps: seq<Step>, k: nat, token: nat, write: bool)
    requires IsRun(run, steps) && k < |run| && IsPoll(run[k], token) && GetArm(run[k].regs[token], write).waiter.Some?
    ensures var last := if write then run[k].lastWrite else run[k].lastRead;
      token in last && Watches(run[k].flying, last[token], token, write)
  {
    RunInv(run, steps, k);
    assert RegOk(run[k], token);
  }

  /** The poll in flight watches all of the interest just submitted if and only if the side was not
      armed before, or was armed with a mask that covers it. */
  lemma MixedInterest(s: State, token: nat, waker: Waker, interest: Sides)
    requires Inv(s) && IsPoll(s, token) && interest.w
    ensures var s' := SubmitPoll(s, token, waker, interest, true);
      token in s'.lastWrite && s'.lastWrite[token] in s'.flying
      && ((interest.r ==> s'.flying[s'.lastWrite[token]].mask.r)
          <==> !s.regs[token].write.armed || (interest.r ==> s.flying[s.lastWrite[token]].mask.r))
  {
    assert RegOk(s, token);
  }

  /** A run that leaves such an interest uncovered: a write poll is armed, then both sides are asked for. */
  lemma MixedInterestReached(waker: Waker) returns (run: seq<State>, steps: seq<Step>)
    ensures IsRun(run, steps) && |steps| == 3 && steps[2] == DoSubmitPoll(0, waker, Sides(true, true), true)
    ensures forall serial :: serial in run[3].flying ==> !run[3].flying[serial].mask.r
  {
    steps := [DoRegister(0, true), DoSubmitPoll(0, waker, Sides(false, true), true), DoSubmitPoll(0, waker, Sides(true, true), true)];
    var s0 := State(map[], map[], map[], map[], 0);
    var s1 := Do(s0, steps[0]);
    var s2 := Do(s1, steps[1]);
    run := [s0, s1, s2, Do(s2, steps[2])];
  }

  // ---------------------------------------------------------------------------------------
  // Who is woken

  /** A completion takes the waiter it yields, from the side of its poll, and no other. */
  lemma CompleteTakes(s: State, serial: nat, token: nat, write: bool)
    requires serial in s.flying
    ensures WaiterAt(Complete(s, serial), token, write) ==
      if s.flying[serial].token == token && s.flying[serial].write == write then None else WaiterAt(s, token, write)
    ensures IsPoll(Complete(s, serial), token) == IsPoll(s, token)
  {
  }

  /** The call succeeds: a poll is pushed, or one is in flight already. */
  predicate Submits(s: State, step: Step) {
    step.DoSubmitPoll? && IsPoll(s, step.token) && (step.pushed || GetArm(s.regs[step.token], step.interest.w).armed)
  }

  /** The step asks for this side of the token, or takes the token away. */
  predicate Replaces(step: Step, token: nat, write: bool) {
    match step
    case DoSubmitPoll(t, _, interest, _) => t == token && interest.w == write
    case DoDeregister(t) => t == token
    case _ => false
  }

  ghost predicate YieldedAt(s: State, step: Step, waker: Waker) {
    step.DoComplete? && step.serial in s.flying && Yields(s, step.serial) == Some(waker)
  }

  lemma WaiterStep(s: State, step: Step, token: nat, write: bool)
    requires Possible(s, step) && IsPoll(s, token) && !Replaces(step, token, write)
    ensures IsPoll(Do(s, step), token)
    ensures WaiterAt(Do(s, step), token, write) == WaiterAt(s, token, write)
      || (WaiterAt(Do(s, step), token, write) == None
          && (WaiterAt(s, token, write).Some? ==> YieldedAt(s, step, WaiterAt(s, token, write).value)))
  {
    if step.DoComplete? {
      CompleteTakes(s, step.serial, token, write);
      hide Complete;
    }
  }

  /** From a successful `submit_poll` on, until that side is asked for again or the handle is deregistered, the
      side's waiter is the waker of that call, or a completion has yielded it. */
  lemma {:induction false} LatestWakerKept(run: seq<State>, steps: seq<Step>, j: nat, k: nat)
    requires IsRun(run, steps) && j < k < |run| && Submits(run[j], steps[j])
    requires forall m :: j < m < k ==> !Replaces(steps[m], steps[j].token, steps[j].interest.w)
    ensures IsPoll(run[k], steps[j].token)
    ensures var waiter := WaiterAt(run[k], steps[j].token, steps[j].interest.w);
      && (waiter.Some? ==> waiter == Some(steps[j].waker))
      && (waiter.None? ==> exists m :: j < m < k && YieldedAt(run[m], steps[m], steps[j].waker))
  {
    if k > j + 1 {
      LatestWakerKept(run, steps, j, k - 1);
      hide Do; hide YieldedAt; hide Replaces; hide Submits;
      WaiterStep(run[k - 1], steps[k - 1], steps[j].token, steps[j].interest.w);
    }
  }

  /** The completion of the latest poll of a side on which somebody waits yields that waiter. */
  lemma LatestPollYields(run: seq<State>, steps: seq<Step>, k: nat, token: nat, write: bool)
    requires IsRun(run, steps) && k < |run| && WaiterAt(run[k], token, write).Some?
    ensures var last := if write then run[k].lastWrite else run[k].lastRead;
      token in last && last[token] in run[k].flying && Yields(run[k], last[token]) == WaiterAt(run[k], token, write)
  {
    NoWaiterStranded(run, steps, k, token, write);
  }
}
