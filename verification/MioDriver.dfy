/** `MioDriver` of driver/mio.rs, updated in place; the kernel is ghost state. */
module MioDriverClass {
  import opened Basics
  import opened MioSpec

  class MioDriver {
    var registrations: map<nat, Registration>
    var waiterCount: int
    ghost var kernel: map<nat, Watch>

    // An equation, so that callers see the invariant as a unit.
    ghost predicate Valid()
      reads this
    {
      Inv(Model()) == true
    }

    ghost function Model(): Driver
      reads this
    {
      Driver(registrations, waiterCount, kernel)
    }

    constructor ()
      ensures Valid() && Model() == EMPTY
    {
      registrations, waiterCount, kernel := map[], 0, map[];
      EmptyInv();
    }

    /** `key` is the vacant slab key; `ok` the outcome of the kernel's registration, which finds the
        handle `ready`. */
    method RegisterHandle(key: nat, fd: int, interest: Sides, ok: bool, ghost ready: Sides) returns (token: Option<nat>)
      requires Valid() && key !in registrations
      modifies this
      ensures Valid()
      ensures token == if ok then Some(key) else None
      ensures Model() == if ok then Register(old(Model()), key, fd, interest, ready) else old(Model())
      ensures ok ==> key in registrations && registrations[key].fd == fd
    {
      hide Inv;
      RegisterInv(Model(), key, fd, interest, ready);
      ghost var before := registrations;
      registrations := registrations[key := Registration(fd, None, None, Some(interest))];
      if !ok {
        registrations := registrations - {key};
        assert registrations == before;
        return None;
      }
      kernel := kernel[key := Watch(interest, ready, Both(interest, ready))];
      return Some(key);
    }

    /** `ok` is the outcome of the kernel's deregistration. */
    method DeregisterHandle(token: nat, ok: bool) returns (done: bool)
      requires Valid()
      modifies this
      ensures Valid()
      ensures done <==> token in old(registrations) && ok
      ensures Model() == if done then Deregister(old(Model()), token) else old(Model())
      ensures done ==> token !in registrations
    {
      hide Inv;
      if token !in registrations || !ok {
        return false;
      }
      DeregisterInv(Model(), token);
      kernel := kernel - {token};
      var r := registrations[token];
      registrations := registrations - {token};
      var waiting := (if r.waiterRead.Some? then 1 else 0) + (if r.waiterWrite.Some? then 1 else 0);
      waiterCount := waiterCount - waiting;
      return true;
    }

    /** Stores the waker unless the slot already wakes the same task. */
    method UpdateWaiter(slot: Option<Waker>, waker: Waker) returns (slot': Option<Waker>)
      modifies this`waiterCount
      ensures slot' == Some(waker)
      ensures waiterCount == old(waiterCount) + if slot.None? then 1 else 0
    {
      slot' := slot;
      var wasNone := slot.None?;
      if !(slot.Some? && slot.value == waker) {
        slot' := Some(waker);
      }
      if wasNone {
        waiterCount := waiterCount + 1;
      }
    }

    /** `ok` is the outcome of the kernel's re-registration, if one is made. */
    method SubmitPoll(token: nat, waker: Waker, interest: Sides, ok: bool) returns (done: bool)
      requires Valid()
      modifies this
      ensures Valid()
      ensures done <==> token in old(registrations) && (ok || !MustRearm(old(registrations)[token], interest))
      ensures token in old(registrations) ==> token in old(kernel)
      ensures Model() == if done then MioSpec.SubmitPoll(old(Model()), token, waker, interest) else old(Model())
    {
      if token !in registrations {
        return false;
      }
      hide Inv;
      SubmitPollInv(Model(), token, waker, interest);
      var r := registrations[token];
      var wanted := interest;
      if r.waiterRead.Some? {
        wanted := wanted.(r := true);
      }
      if r.waiterWrite.Some? {
        wanted := wanted.(w := true);
      }
      if r.interest.None? || !Contains(r.interest.value, wanted) {
        if !ok {
          return false;
        }
        kernel := kernel[token := Rearm(kernel[token], wanted)];
        r := r.(interest := Some(wanted));
      }
      if interest.w {
        var slot := UpdateWaiter(r.waiterWrite, waker);
        r := r.(waiterWrite := slot);
      }
      if interest.r {
        var slot := UpdateWaiter(r.waiterRead, waker);
        r := r.(waiterRead := slot);
      }
      registrations := registrations[token := r];
      return true;
    }

    /** Wakes the side the event is for; the other keeps waiting. */
    method HandleEvent(e: Event) returns (woken: seq<Waker>)
      modifies this
      ensures Model() == Handle(old(Model()), e).(kernel := Delivered(old(kernel), e))
      ensures woken == Wakes(old(Model()), e)
    {
      woken := [];
      if e.Io? && e.token in registrations {
        var r := registrations[e.token].(interest := None);
        if SidesOf(e).r && r.waiterRead.Some? {
          woken := woken + [r.waiterRead.value];
          waiterCount := waiterCount - 1;
          r := r.(waiterRead := None);
        }
        if SidesOf(e).w && r.waiterWrite.Some? {
          woken := woken + [r.waiterWrite.value];
          waiterCount := waiterCount - 1;
          r := r.(waiterWrite := None);
        }
        registrations := registrations[e.token := r];
      }
      kernel := Delivered(kernel, e);
    }

    /** Processes what one poll of the kernel returned, and returns the wakers it called. */
    method WaitTimeout(events: seq<Event>) returns (woken: seq<Waker>)
      requires Valid() && HonestAll(kernel, events)
      modifies this
      ensures Valid() && Model() == HandleAll(old(Model()), events)
      ensures woken == WakesAll(old(Model()), events)
    {
      hide Inv; hide Handle; hide Wakes; hide Delivered;
      HandleAllInv(Model(), events);
      woken := [];
      for k := 0 to |events|
        invariant Model() == HandleAll(old(Model()), events[..k])
        invariant woken == WakesAll(old(Model()), events[..k])
      {
        assert events[..k + 1][..k] == events[..k];
        var w := HandleEvent(events[k]);
        woken := woken + w;
      }
      assert events[..|events|] == events;
    }
  }
}
