/** The readiness driver of driver/mio.rs next to an edge-triggered kernel.

    The kernel keeps, per registered handle, the sides it watches, the sides that are ready, and the
    sides for which an event is still to be delivered.  A registration queues an event for every side
    that is watched and ready; so does a side becoming ready while watched.  Delivering an event
    reports at least the sides that are queued and still ready, and clears the queue. */
module MioSpec {
  import opened Basics

  function Both(a: Sides, b: Sides): Sides {
    Sides(a.r && b.r, a.w && b.w)
  }

  function Either(a: Sides, b: Sides): Sides {
    Sides(a.r || b.r, a.w || b.w)
  }

  /** `interest_contains` */
  predicate Contains(current: Sides, needed: Sides) {
    (!needed.r || current.r) && (!needed.w || current.w)
  }

  const NO_SIDES := Sides(false, false)

  datatype Registration = Registration(fd: int, waiterRead: Option<Waker>, waiterWrite: Option<Waker>, interest: Option<Sides>)

  datatype Watch = Watch(interest: Sides, ready: Sides, queued: Sides)

  datatype Driver = Driver(regs: map<nat, Registration>, count: int, kernel: map<nat, Watch>)

  /** One event of a poll: the interrupt token, or the flags reported for a registered token. */
  datatype Event =
    | Interrupted
    | Io(token: nat, readable: bool, writable: bool, readClosed: bool, writeClosed: bool, error: bool)

  /** The sides an event is for. */
  function SidesOf(e: Event): Sides
    requires e.Io?
  {
    Sides(e.readable || e.readClosed || e.error, e.writable || e.writeClosed || e.error)
  }

  function Waiting(reg: Registration): Sides {
    Sides(reg.waiterRead.Some?, reg.waiterWrite.Some?)
  }

  // ---------------------------------------------------------------------------------------
  // The driver's calls.  `ok` is the outcome of the system call, where there is one.

  function Register(d: Driver, token: nat, fd: int, interest: Sides, ready: Sides): Driver {
    d.(regs := d.regs[token := Registration(fd, None, None, Some(interest))],
       kernel := d.kernel[token := Watch(interest, ready, Both(interest, ready))])
  }

  function Deregister(d: Driver, token: nat): Driver {
    if token !in d.regs then d
    else
      var w := Waiting(d.regs[token]);
      var freed := (if w.r then 1 else 0) + (if w.w then 1 else 0);
      Driver(d.regs - {token}, d.count - freed, d.kernel - {token})
  }

  /** The cached interest does not cover the sides asked for and still waited for. */
  predicate MustRearm(reg: Registration, interest: Sides) {
    reg.interest.None? || !Contains(reg.interest.value, Either(interest, Waiting(reg)))
  }

  function Rearm(watch: Watch, wanted: Sides): Watch {
    Watch(wanted, watch.ready, Both(wanted, watch.ready))
  }

  function SubmitPoll(d: Driver, token: nat, waker: Waker, interest: Sides): Driver
    requires token in d.regs && token in d.kernel
  {
    var reg := d.regs[token];
    var wanted := Either(interest, Waiting(reg));
    var reg' := Registration(reg.fd,
                             if interest.r then Some(waker) else reg.waiterRead,
                             if interest.w then Some(waker) else reg.waiterWrite,
                             if MustRearm(reg, interest) then Some(wanted) else reg.interest);
    Driver(d.regs[token := reg'],
           d.count + (if interest.r && reg.waiterRead.None? then 1 else 0) + (if interest.w && reg.waiterWrite.None? then 1 else 0),
           if MustRearm(reg, interest) then d.kernel[token := Rearm(d.kernel[token], wanted)] else d.kernel)
  }

  /** What `wait_timeout` does for one event. */
  function Handle(d: Driver, e: Event): Driver {
    if e.Interrupted? || e.token !in d.regs then d
    else
      var reg := d.regs[e.token];
      var s := SidesOf(e);
      var woken := (if s.r && reg.waiterRead.Some? then 1 else 0) + (if s.w && reg.waiterWrite.Some? then 1 else 0);
      d.(regs := d.regs[e.token := Registration(reg.fd, if s.r then None else reg.waiterRead,
                                                if s.w then None else reg.waiterWrite, None)],
         count := d.count - woken)
  }

  /** The wakers it calls. */
  function Wakes(d: Driver, e: Event): seq<Waker> {
    if e.Interrupted? || e.token !in d.regs then []
    else
      var reg := d.regs[e.token];
      (if SidesOf(e).r && reg.waiterRead.Some? then [reg.waiterRead.value] else [])
      + (if SidesOf(e).w && reg.waiterWrite.Some? then [reg.waiterWrite.value] else [])
  }

  /** The kernel forgets what it has delivered. */
  function Delivered(kernel: map<nat, Watch>, e: Event): map<nat, Watch> {
    if e.Io? && e.token in kernel then kernel[e.token := kernel[e.token].(queued := NO_SIDES)] else kernel
  }

  /** What an event reports of a side: readiness, a closed half, or an error, which stands for both. */
  predicate Reports(e: Event, s: Side)
    requires e.Io?
  {
    if s.Read? then e.readable || e.readClosed || e.error else e.writable || e.writeClosed || e.error
  }

  /** The kernel reports at least what is queued and still ready. */
  predicate Honest(kernel: map<nat, Watch>, e: Event) {
    e.Io? && e.token in kernel ==>
      var k := kernel[e.token];
      forall s: Side :: k.queued.Has(s) && k.ready.Has(s) ==> Reports(e, s)
  }

  function HandleAll(d: Driver, events: seq<Event>): Driver {
    if events == [] then d
    else
      var last := events[|events| - 1];
      var d1 := HandleAll(d, events[..|events| - 1]);
      Handle(d1, last).(kernel := Delivered(d1.kernel, last))
  }

  function WakesAll(d: Driver, events: seq<Event>): seq<Waker> {
    if events == [] then []
    else WakesAll(d, events[..|events| - 1]) + Wakes(HandleAll(d, events[..|events| - 1]), events[|events| - 1])
  }

  /** A poll reports each handle at most once. */
  predicate HonestAll(kernel: map<nat, Watch>, events: seq<Event>) {
    && (forall k :: 0 <= k < |events| ==> Honest(kernel, events[k]))
    && (forall j, k :: 0 <= j < k < |events| && events[j].Io? && events[k].Io? ==> events[j].token != events[k].token)
  }

  // ---------------------------------------------------------------------------------------
  // What readiness does on its own

  function Rise(d: Driver, token: nat, s: Side): Driver {
    if token !in d.kernel then d
    else
      var k := d.kernel[token];
      d.(kernel := d.kernel[token := match s
        case Read => Watch(k.interest, k.ready.(r := true), k.queued.(r := k.queued.r || k.interest.r))
        case Write => Watch(k.interest, k.ready.(w := true), k.queued.(w := k.queued.w || k.interest.w))])
  }

  function Fall(d: Driver, token: nat, s: Side): Driver {
    if token !in d.kernel then d
    else
      var k := d.kernel[token];
      d.(kernel := d.kernel[token := match s
        case Read => k.(ready := k.ready.(r := false))
        case Write => k.(ready := k.ready.(w := false))])
  }

  // ---------------------------------------------------------------------------------------
  // No side waits in vain

  /** A waiting side is watched, and if it is ready its event is still to come.  Likewise for every
      side of a cached interest, which is the interest the kernel has. */
  ghost predicate Served(reg: Registration, k: Watch) {
    && (forall s: Side :: Waiting(reg).Has(s) ==> k.interest.Has(s) && (k.ready.Has(s) ==> k.queued.Has(s)))
    && (reg.interest.Some? ==>
          && k.interest == reg.interest.value
          && (forall s: Side :: k.interest.Has(s) && k.ready.Has(s) ==> k.queued.Has(s)))
  }

  ghost function Readers(regs: map<nat, Registration>): set<nat> {
    set t | t in regs && regs[t].waiterRead.Some?
  }

  ghost function Writers(regs: map<nat, Registration>): set<nat> {
    set t | t in regs && regs[t].waiterWrite.Some?
  }

  ghost predicate Inv(d: Driver) {
    && d.regs.Keys == d.kernel.Keys
    && (forall t :: t in d.regs ==> Served(d.regs[t], d.kernel[t]))
    && d.count == |Readers(d.regs)| + |Writers(d.regs)|
  }

  /** The waiter slots after one registration changed. */
  lemma SlotsAfter(regs: map<nat, Registration>, token: nat, reg: Registration)
    ensures Readers(regs[token := reg]) == if reg.waiterRead.Some? then Readers(regs) + {token} else Readers(regs) - {token}
    ensures Writers(regs[token := reg]) == if reg.waiterWrite.Some? then Writers(regs) + {token} else Writers(regs) - {token}
    ensures Readers(regs - {token}) == Readers(regs) - {token}
    ensures Writers(regs - {token}) == Writers(regs) - {token}
  {
  }

  lemma Card(s: set<nat>, x: nat)
    ensures |s + {x}| == |s| + if x in s then 0 else 1
    ensures |s - {x}| == |s| - if x in s then 1 else 0
  {
    if x in s {
      assert s + {x} == s;
    } else {
      assert s - {x} == s;
    }
  }

  lemma CountAfter(regs: map<nat, Registration>, token: nat, reg: Registration)
    requires token in regs
    ensures |Readers(regs[token := reg])|
         == |Readers(regs)| - (if regs[token].waiterRead.Some? then 1 else 0) + (if reg.waiterRead.Some? then 1 else 0)
    ensures |Writers(regs[token := reg])|
         == |Writers(regs)| - (if regs[token].waiterWrite.Some? then 1 else 0) + (if reg.waiterWrite.Some? then 1 else 0)
    ensures |Readers(regs - {token})| == |Readers(regs)| - if regs[token].waiterRead.Some? then 1 else 0
    ensures |Writers(regs - {token})| == |Writers(regs)| - if regs[token].waiterWrite.Some? then 1 else 0
  {
    SlotsAfter(regs, token, reg);
    Card(Readers(regs), token);
    Card(Writers(regs), token);
  }

  lemma RegisterInv(d: Driver, token: nat, fd: int, interest: Sides, ready: Sides)
    requires Inv(d) && token !in d.regs
    ensures Inv(Register(d, token, fd, interest, ready))
  {
    hide Readers; hide Writers;
    var d' := Register(d, token, fd, interest, ready);
    NewHasNoWaiter(d.regs, token, d'.regs[token]);
    forall t | t in d'.regs ensures Served(d'.regs[t], d'.kernel[t]) {
      if t != token {
        assert Served(d.regs[t], d.kernel[t]);
      }
    }
  }

  lemma NewHasNoWaiter(regs: map<nat, Registration>, token: nat, reg: Registration)
    requires token !in regs && reg.waiterRead.None? && reg.waiterWrite.None?
    ensures Readers(regs[token := reg]) == Readers(regs) && Writers(regs[token := reg]) == Writers(regs)
  {
    SlotsAfter(regs, token, reg);
  }

  lemma DeregisterInv(d: Driver, token: nat)
    requires Inv(d)
    ensures Inv(Deregister(d, token))
  {
    if token in d.regs {
      CountAfter(d.regs, token, d.regs[token]);
    }
  }

  /** Re-arming with every side still waited for keeps the other side served; not re-arming is safe
      because the cached interest says that no event was delivered since the kernel armed it. */
  lemma SubmitPollServed(reg: Registration, k: Watch, waker: Waker, interest: Sides)
    requires Served(reg, k)
    ensures var d := SubmitPoll(Driver(map[0 := reg], 0, map[0 := k]), 0, waker, interest);
      Served(d.regs[0], d.kernel[0])
  {
  }

  lemma SubmitPollInv(d: Driver, token: nat, waker: Waker, interest: Sides)
    requires Inv(d) && token in d.regs && token in d.kernel
    ensures Inv(SubmitPoll(d, token, waker, interest))
  {
    var d' := SubmitPoll(d, token, waker, interest);
    SubmitPollServed(d.regs[token], d.kernel[token], waker, interest);
    CountAfter(d.regs, token, d'.regs[token]);
    assert d'.regs == d.regs[token := d'.regs[token]];
  }

  lemma HandleInv(d: Driver, e: Event)
    requires Inv(d) && Honest(d.kernel, e)
    ensures Inv(Handle(d, e).(kernel := Delivered(d.kernel, e)))
  {
    if e.Io? && e.token in d.regs {
      var d' := Handle(d, e).(kernel := Delivered(d.kernel, e));
      CountAfter(d.regs, e.token, d'.regs[e.token]);
      HandleServed(d.regs[e.token], d.kernel[e.token], e);
      assert d'.regs == d.regs[e.token := d'.regs[e.token]];
    }
  }

  /** The sides an event leaves waiting are not ready, or they would have been reported. */
  lemma HandleServed(reg: Registration, k: Watch, e: Event)
    requires Served(reg, k) && e.Io? && Honest(map[e.token := k], e)
    ensures Served(Registration(reg.fd, if SidesOf(e).r then None else reg.waiterRead,
                                if SidesOf(e).w then None else reg.waiterWrite, None), k.(queued := NO_SIDES))
  {
    assert k.queued.Has(Read) && k.ready.Has(Read) ==> Reports(e, Read);
    assert k.queued.Has(Write) && k.ready.Has(Write) ==> Reports(e, Write);
    assert Waiting(reg).Has(Read) ==> k.interest.Has(Read) && (k.ready.Has(Read) ==> k.queued.Has(Read));
    assert Waiting(reg).Has(Write) ==> k.interest.Has(Write) && (k.ready.Has(Write) ==> k.queued.Has(Write));
  }

  /** Handling events leaves the kernel's view of the other handles alone. */
  lemma {:induction false} OthersUntouched(d: Driver, events: seq<Event>, t: nat)
    requires t in d.kernel && forall k :: 0 <= k < |events| && events[k].Io? ==> events[k].token != t
    ensures t in HandleAll(d, events).kernel && HandleAll(d, events).kernel[t] == d.kernel[t]
  {
    if events != [] {
      OthersUntouched(d, events[..|events| - 1], t);
    }
  }

  lemma {:induction false} SameHandles(d: Driver, events: seq<Event>)
    ensures HandleAll(d, events).kernel.Keys == d.kernel.Keys
  {
    if events != [] {
      SameHandles(d, events[..|events| - 1]);
    }
  }

  lemma {:induction false} HandleAllInv(d: Driver, events: seq<Event>)
    requires Inv(d) && HonestAll(d.kernel, events)
    ensures Inv(HandleAll(d, events))
  {
    hide Inv;
    if events != [] {
      var front, last := events[..|events| - 1], events[|events| - 1];
      assert forall k :: 0 <= k < |front| ==> front[k] == events[k];
      HandleAllInv(d, front);
      SameHandles(d, front);
      if last.Io? && last.token in d.kernel {
        OthersUntouched(d, front, last.token);
      }
      assert Honest(d.kernel, events[|events| - 1]);
      HandleInv(HandleAll(d, front), last);
    }
  }

  lemma RiseServed(reg: Registration, k: Watch, s: Side)
    requires Served(reg, k)
    ensures Served(reg, Rise(Driver(map[0 := reg], 0, map[0 := k]), 0, s).kernel[0])
    ensures Served(reg, Fall(Driver(map[0 := reg], 0, map[0 := k]), 0, s).kernel[0])
  {
    forall x: Side
      ensures Waiting(reg).Has(x) ==> k.interest.Has(x) && (k.ready.Has(x) ==> k.queued.Has(x))
      ensures reg.interest.Some? ==> (k.interest.Has(x) && k.ready.Has(x) ==> k.queued.Has(x))
    {}
  }

  lemma RiseInv(d: Driver, token: nat, s: Side)
    requires Inv(d)
    ensures Inv(Rise(d, token, s)) && Inv(Fall(d, token, s))
  {
    if token in d.kernel {
      RiseServed(d.regs[token], d.kernel[token], s);
    }
  }

  // ---------------------------------------------------------------------------------------
  // Runs

  /** A call of the driver, or a change of readiness. */
  datatype Step =
    | DoRegister(token: nat, fd: int, interest: Sides, ready: Sides)
    | DoDeregister(token: nat)
    | DoSubmitPoll(token: nat, waker: Waker, interest: Sides)
    | DoWait(events: seq<Event>)
    | DoRise(token: nat, side: Side)
    | DoFall(token: nat, side: Side)

  predicate Possible(d: Driver, step: Step) {
    match step
    case DoRegister(token, _, _, _) => token !in d.regs
    case DoSubmitPoll(token, _, _) => token in d.regs && token in d.kernel
    case DoWait(events) => HonestAll(d.kernel, events)
    case _ => true
  }

  function Do(d: Driver, step: Step): Driver
    requires Possible(d, step)
  {
    match step
    case DoRegister(token, fd, interest, ready) => Register(d, token, fd, interest, ready)
    case DoDeregister(token) => Deregister(d, token)
    case DoSubmitPoll(token, waker, interest) => SubmitPoll(d, token, waker, interest)
    case DoWait(events) => HandleAll(d, events)
    case DoRise(token, side) => Rise(d, token, side)
    case DoFall(token, side) => Fall(d, token, side)
  }

  const EMPTY := Driver(map[], 0, map[])

  ghost predicate IsRun(run: seq<Driver>, steps: seq<Step>) {
    && |run| == |steps| + 1 && run[0] == EMPTY
    && forall k :: 0 <= k < |steps| ==> Possible(run[k], steps[k]) && run[k + 1] == Do(run[k], steps[k])
  }

  lemma EmptyInv()
    ensures Inv(EMPTY)
  {
    assert Readers(map[]) == {} && Writers(map[]) == {};
  }

  lemma {:induction false} RunInv(run: seq<Driver>, steps: seq<Step>, k: nat)
    requires IsRun(run, steps) && k < |run|
    ensures Inv(run[k])
  {
    hide Inv;
    if k == 0 {
      EmptyInv();
    } else {
      RunInv(run, steps, k - 1);
      var d := run[k - 1];
      match steps[k - 1]
      case DoRegister(token, fd, interest, ready) => RegisterInv(d, token, fd, interest, ready);
      case DoDeregister(token) => DeregisterInv(d, token);
      case DoSubmitPoll(token, waker, interest) => SubmitPollInv(d, token, waker, interest);
      case DoWait(events) => HandleAllInv(d, events);
      case DoRise(token, side) => RiseInv(d, token, side);
      case DoFall(token, side) => RiseInv(d, token, side);
    }
  }

  /** Over every run: a side that waits is watched by the kernel, and if it is ready, an event for it
      is still to be delivered, whatever the other side does. */
  lemma NoSideStranded(run: seq<Driver>, steps: seq<Step>, k: nat, token: nat, s: Side)
    requires IsRun(run, steps) && k < |run| && token in run[k].regs && Waiting(run[k].regs[token]).Has(s)
    ensures token in run[k].kernel && run[k].kernel[token].interest.Has(s)
    ensures run[k].kernel[token].ready.Has(s) ==> run[k].kernel[token].queued.Has(s)
  {
    RunInv(run, steps, k);
    assert Served(run[k].regs[token], run[k].kernel[token]);
  }

  function Slot(reg: Registration, s: Side): Option<Waker> {
    if s.Read? then reg.waiterRead else reg.waiterWrite
  }

  /** The waker in a slot, if there is one. */
  function SlotAt(d: Driver, token: nat, s: Side): Option<Waker> {
    if token in d.regs then Slot(d.regs[token], s) else None
  }

  /** An honest delivery for a handle with a waiting, ready side takes that side's waiter and calls it. */
  lemma DeliveryWakes(run: seq<Driver>, steps: seq<Step>, k: nat, e: Event, s: Side)
    requires IsRun(run, steps) && k < |run| && e.Io? && Honest(run[k].kernel, e)
    requires e.token in run[k].regs && e.token in run[k].kernel
    requires Waiting(run[k].regs[e.token]).Has(s) && run[k].kernel[e.token].ready.Has(s)
    ensures !Waiting(Handle(run[k], e).regs[e.token]).Has(s)
    ensures SlotAt(run[k], e.token, s).Some? && SlotAt(run[k], e.token, s).value in Wakes(run[k], e)
  {
    NoSideStranded(run, steps, k, e.token, s);
  }

  /** `waiter_count` is the number of occupied waiter slots, so `should_flush` is exact. */
  lemma CountExact(run: seq<Driver>, steps: seq<Step>, k: nat)
    requires IsRun(run, steps) && k < |run|
    ensures run[k].count == |Readers(run[k].regs)| + |Writers(run[k].regs)|
    ensures run[k].count > 0 <==> exists t :: t in run[k].regs && (Waiting(run[k].regs[t]).r || Waiting(run[k].regs[t]).w)
  {
    RunInv(run, steps, k);
    var regs := run[k].regs;
    if t :| t in regs && (Waiting(regs[t]).r || Waiting(regs[t]).w) {
      assert t in Readers(regs) || t in Writers(regs);
    } else {
      forall t ensures t !in Readers(regs) && t !in Writers(regs) {}
      assert Readers(regs) == {} && Writers(regs) == {};
    }
  }

  /** The cache spares system calls: after a registration, exactly the interests within it need no re-arming;
      and after a call, the same call needs none until an event comes. */
  lemma CacheSpares(d: Driver, token: nat, fd: int, interest: Sides, ready: Sides, asked: Sides, waker: Waker)
    ensures MustRearm(Register(d, token, fd, interest, ready).regs[token], asked) <==> !Contains(interest, asked)
    ensures token in d.regs && token in d.kernel ==> !MustRearm(SubmitPoll(d, token, waker, asked).regs[token], asked)
  {
  }

  // ---------------------------------------------------------------------------------------
  // Who is woken

  /** The slot held this waker before and is empty after. */
  predicate Emptied(d: Driver, d': Driver, token: nat, s: Side, waker: Waker) {
    SlotAt(d, token, s) == Some(waker) && SlotAt(d', token, s) == None
  }

  ghost predicate EmptiedSome(d: Driver, d': Driver, waker: Waker) {
    exists token: nat, s: Side :: Emptied(d, d', token, s, waker)
  }

  /** An event empties the slots of the sides it is for, and calls exactly the wakers they held. */
  lemma HandleWakes(d: Driver, e: Event, token: nat, s: Side)
    ensures SlotAt(Handle(d, e), token, s) == SlotAt(d, token, s)
      || (SlotAt(Handle(d, e), token, s) == None && SlotAt(d, token, s).Some? && SlotAt(d, token, s).value in Wakes(d, e))
    ensures token in Handle(d, e).regs <==> token in d.regs
  {
  }

  /** An occupied slot is emptied if and only if the event is for its handle and reports its side; the other
      side keeps waiting. */
  lemma EventTakes(d: Driver, e: Event, token: nat, s: Side)
    requires SlotAt(d, token, s).Some?
    ensures SlotAt(Handle(d, e), token, s) == if e.Io? && e.token == token && Reports(e, s) then None else SlotAt(d, token, s)
  {
  }

  lemma WakesHeld(d: Driver, e: Event, waker: Waker)
    requires waker in Wakes(d, e)
    ensures e.Io? && exists s: Side :: Emptied(d, Handle(d, e), e.token, s, waker)
  {
    var reg := d.regs[e.token];
    if SidesOf(e).r && reg.waiterRead == Some(waker) {
      assert Emptied(d, Handle(d, e), e.token, Read, waker);
    } else {
      assert Emptied(d, Handle(d, e), e.token, Write, waker);
    }
  }

  /** Handling events leaves a slot as it was, or empties it and calls its waker. */
  lemma {:induction false} SlotOrWoken(d: Driver, events: seq<Event>, token: nat, s: Side)
    ensures token in HandleAll(d, events).regs <==> token in d.regs
    ensures SlotAt(HandleAll(d, events), token, s) == SlotAt(d, token, s)
      || (SlotAt(HandleAll(d, events), token, s) == None && SlotAt(d, token, s).Some? && SlotAt(d, token, s).value in WakesAll(d, events))
  {
    if events != [] {
      var front := events[..|events| - 1];
      SlotOrWoken(d, front, token, s);
      hide Handle; hide Wakes;
      HandleWakes(HandleAll(d, front), events[|events| - 1], token, s);
    }
  }

  /** Every waker called was in a slot that is now empty. */
  lemma {:induction false} WokenWasWaiting(d: Driver, events: seq<Event>, waker: Waker) returns (token: nat, s: Side)
    requires waker in WakesAll(d, events)
    ensures Emptied(d, HandleAll(d, events), token, s, waker)
  {
    var front, last := events[..|events| - 1], events[|events| - 1];
    hide Handle; hide Wakes;
    if waker in WakesAll(d, front) {
      token, s := WokenWasWaiting(d, front, waker);
    } else {
      WakesHeld(HandleAll(d, front), last, waker);
      token :| token == last.token;
      s :| Emptied(HandleAll(d, front), Handle(HandleAll(d, front), last), token, s, waker);
      SlotOrWoken(d, front, token, s);
    }
    SlotOrWoken(d, events, token, s);
    HandleWakes(HandleAll(d, front), last, token, s);
  }

  /** As many wakers are called as slots are emptied. */
  lemma {:induction false} WokenCount(d: Driver, events: seq<Event>)
    ensures HandleAll(d, events).count == d.count - |WakesAll(d, events)|
  {
    if events != [] {
      WokenCount(d, events[..|events| - 1]);
    }
  }

  /** A wait wakes exactly the tasks whose slots it empties: as many as `waiter_count` falls, each from a slot
      that is now empty, and none is left out. */
  lemma WaitWakesExactly(run: seq<Driver>, steps: seq<Step>, k: nat, token: nat, s: Side, waker: Waker)
    requires IsRun(run, steps) && k < |steps| && steps[k].DoWait?
    ensures |WakesAll(run[k], steps[k].events)| == run[k].count - run[k + 1].count
    ensures Emptied(run[k], run[k + 1], token, s, waker) ==> waker in WakesAll(run[k], steps[k].events)
    ensures waker in WakesAll(run[k], steps[k].events) ==> EmptiedSome(run[k], run[k + 1], waker)
  {
    var d, events := run[k], steps[k].events;
    WokenCount(d, events);
    SlotOrWoken(d, events, token, s);
    if waker in WakesAll(d, events) {
      var t, s' := WokenWasWaiting(d, events, waker);
    }
  }

  /** The step asks for this side of the token, or takes the token away. */
  predicate Replaces(step: Step, token: nat, s: Side) {
    match step
    case DoSubmitPoll(t, _, interest) => t == token && interest.Has(s)
    case DoDeregister(t) => t == token
    case _ => false
  }

  predicate WokenAt(d: Driver, step: Step, waker: Waker) {
    step.DoWait? && waker in WakesAll(d, step.events)
  }

  lemma SlotStep(d: Driver, step: Step, token: nat, s: Side)
    requires Possible(d, step) && token in d.regs && !Replaces(step, token, s)
    ensures token in Do(d, step).regs
    ensures SlotAt(Do(d, step), token, s) == SlotAt(d, token, s)
      || (SlotAt(Do(d, step), token, s) == None && SlotAt(d, token, s).Some? && WokenAt(d, step, SlotAt(d, token, s).value))
  {
    if step.DoWait? {
      SlotOrWoken(d, step.events, token, s);
      hide HandleAll; hide WakesAll;
    }
  }

  /** From a `submit_poll` on, until that side is asked for again or the handle is deregistered, the side's
      slot holds the waker of that call, or a wait has called it. */
  lemma {:induction false} LatestWakerKept(run: seq<Driver>, steps: seq<Step>, j: nat, k: nat, s: Side)
    requires IsRun(run, steps) && j < k < |run| && steps[j].DoSubmitPoll? && steps[j].interest.Has(s)
    requires forall m :: j < m < k ==> !Replaces(steps[m], steps[j].token, s)
    ensures steps[j].token in run[k].regs
    ensures SlotAt(run[k], steps[j].token, s) == Some(steps[j].waker)
      || exists m :: j < m < k && WokenAt(run[m], steps[m], steps[j].waker)
    ensures SlotAt(run[k], steps[j].token, s).Some? ==> SlotAt(run[k], steps[j].token, s) == Some(steps[j].waker)
  {
    var token, waker := steps[j].token, steps[j].waker;
    if k > j + 1 {
      LatestWakerKept(run, steps, j, k - 1, s);
      hide Do; hide WokenAt; hide Replaces;
      SlotStep(run[k - 1], steps[k - 1], token, s);
    }
  }
}
