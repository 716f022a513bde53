/** What the timing wheel of timer.rs does, without slots, levels or heap: a table of live timers
    in which each timer remembers the tick at which it was last placed.

    Ticks, delays and generations are unbounded here; in the program they are u64. */
module WheelSpec {
  import opened Basics

  /** `SLOTS_PER_LEVEL` */
  const SLOTS: nat := 64

  datatype Handle = Handle(index: nat, generation: nat)

  datatype LiveTimer = LiveTimer(waker: Waker, expiration: nat, generation: nat, placed: nat)

  datatype Wheel = Wheel(now: nat, issued: nat, live: map<nat, LiveTimer>)

  /** `expiration.saturating_sub(now)` */
  function Delay(expiration: nat, now: nat): nat {
    if expiration <= now then 0 else expiration - now
  }

  /** Some tick from `start` to `start + ticks`, both included, falls on `slot`. */
  ghost predicate Swept(start: nat, ticks: nat, slot: nat) {
    exists t: nat :: start <= t <= start + ticks && t % SLOTS == slot
  }

  /** The timers an advance looks at: those whose delay, when placed, exceeded level 0, and those
      whose delay, when placed, names a level-0 slot that the advance sweeps. */
  ghost predicate Touched(t: LiveTimer, start: nat, ticks: nat) {
    Delay(t.expiration, t.placed) >= SLOTS || Swept(start, ticks, Delay(t.expiration, t.placed))
  }

  function Insert(w: Wheel, index: nat, waker: Waker, expiration: nat): Wheel {
    w.(issued := w.issued + 1, live := w.live[index := LiveTimer(waker, expiration, w.issued + 1, w.now)])
  }

  /** `h` names a live timer. */
  predicate Names(w: Wheel, h: Handle) {
    h.index in w.live && w.live[h.index].generation == h.generation
  }

  function Remove(w: Wheel, h: Handle): Wheel {
    if Names(w, h) then w.(live := w.live - {h.index}) else w
  }

  ghost predicate Fires(w: Wheel, ticks: nat, i: nat) {
    && ticks > 0 && i in w.live
    && w.live[i].expiration <= w.now + ticks
    && Touched(w.live[i], w.now, ticks)
  }

  ghost function Settled(w: Wheel, ticks: nat, i: nat): LiveTimer
    requires i in w.live
  {
    if ticks > 0 && Touched(w.live[i], w.now, ticks) then w.live[i].(placed := w.now + ticks) else w.live[i]
  }

  ghost function Advance(w: Wheel, ticks: nat): Wheel {
    Wheel(w.now + ticks, w.issued, map i | i in w.live && !Fires(w, ticks, i) :: Settled(w, ticks, i))
  }

  ghost function Fired(w: Wheel, ticks: nat): set<nat> {
    set i | i in w.live && Fires(w, ticks, i)
  }

  // ---------------------------------------------------------------------------------------
  // Runs

  datatype Op =
    | DoInsert(index: nat, waker: Waker, expiration: nat)
    | DoRemove(handle: Handle)
    | DoAdvance(ticks: nat)

  /** A vacant slab key, and an expiration that is not already past. */
  predicate Allowed(w: Wheel, op: Op) {
    op.DoInsert? ==> op.index !in w.live && op.expiration >= w.now
  }

  ghost function Apply(w: Wheel, op: Op): Wheel {
    match op
    case DoInsert(index, waker, expiration) => Insert(w, index, waker, expiration)
    case DoRemove(handle) => Remove(w, handle)
    case DoAdvance(ticks) => Advance(w, ticks)
  }

  const EMPTY := Wheel(0, 0, map[])

  ghost predicate IsRun(run: seq<Wheel>, ops: seq<Op>) {
    && |run| == |ops| + 1
    && run[0] == EMPTY
    && forall k :: 0 <= k < |ops| ==> Allowed(run[k], ops[k]) && run[k + 1] == Apply(run[k], ops[k])
  }

  // ---------------------------------------------------------------------------------------
  // The firing window

  /** Since it was placed, no advance has swept the timer's slot. */
  ghost predicate Unswept(t: LiveTimer, now: nat) {
    && t.placed <= now
    && t.placed <= t.expiration
    && (t.placed < now ==>
          && Delay(t.expiration, t.placed) < SLOTS
          && !Swept(t.placed, now - t.placed, Delay(t.expiration, t.placed)))
  }

  ghost predicate WindowInv(w: Wheel) {
    forall i :: i in w.live ==> Unswept(w.live[i], w.now)
  }

  lemma SweptJoin(start: nat, a: nat, b: nat, slot: nat)
    requires Swept(start, a + b, slot)
    ensures Swept(start, a, slot) || Swept(start + a, b, slot)
  {
    var t: nat :| start <= t <= start + a + b && t % SLOTS == slot;
    if t <= start + a {
      assert Swept(start, a, slot);
    }
  }

  lemma AdvanceKeepsUnswept(t: LiveTimer, now: nat, ticks: nat)
    requires Unswept(t, now) && !Touched(t, now, ticks)
    ensures Unswept(t, now + ticks)
  {
    var d := Delay(t.expiration, t.placed);
    if Swept(t.placed, now - t.placed + ticks, d) {
      SweptJoin(t.placed, now - t.placed, ticks, d);
    }
  }

  lemma StepWindow(w: Wheel, op: Op)
    requires WindowInv(w) && Allowed(w, op)
    ensures WindowInv(Apply(w, op))
  {
    match op
    case DoAdvance(ticks) =>
      var w' := Advance(w, ticks);
      forall i | i in w'.live ensures Unswept(w'.live[i], w'.now) {
        assert Unswept(w.live[i], w.now);
        if ticks > 0 && !Touched(w.live[i], w.now, ticks) {
          AdvanceKeepsUnswept(w.live[i], w.now, ticks);
        }
      }
    case _ =>
  }

  lemma {:induction false} RunWindow(run: seq<Wheel>, ops: seq<Op>, k: nat)
    requires IsRun(run, ops) && k < |run|
    ensures WindowInv(run[k])
  {
    if k > 0 {
      RunWindow(run, ops, k - 1);
      StepWindow(run[k - 1], ops[k - 1]);
    }
  }

  /** Any 63 consecutive steps pass over every slot. */
  lemma FullTurn(start: nat, ticks: nat, slot: nat)
    requires slot < SLOTS && ticks >= SLOTS - 1
    ensures Swept(start, ticks, slot)
  {
    NextOnSlot(start, slot);
    var t := start + (slot + SLOTS - start % SLOTS) % SLOTS;
    assert t <= start + ticks;
  }

  /** Over every run: a live timer is at most 62 ticks overdue. */
  lemma FiringWindow(run: seq<Wheel>, ops: seq<Op>, k: nat, i: nat)
    requires IsRun(run, ops) && k < |run| && i in run[k].live
    ensures run[k].now <= run[k].live[i].expiration + SLOTS - 2
  {
    RunWindow(run, ops, k);
    var t := run[k].live[i];
    assert Unswept(t, run[k].now);
    if t.placed + SLOTS - 1 <= run[k].now {
      FullTurn(t.placed, run[k].now - t.placed, Delay(t.expiration, t.placed));
    }
  }

  /** An advance by at least a full turn leaves nothing due, whatever the delays. */
  lemma FullTurnFiresAllDue(w: Wheel, ticks: nat, i: nat)
    requires ticks >= SLOTS - 1 && i in Advance(w, ticks).live
    ensures Advance(w, ticks).live[i].expiration > w.now + ticks
  {
    var t := w.live[i];
    if Delay(t.expiration, t.placed) < SLOTS {
      FullTurn(w.now, ticks, Delay(t.expiration, t.placed));
    }
  }

  // ---------------------------------------------------------------------------------------
  // When a timer fires exactly

  /** How many ticks after its placement a level-0 timer's slot is first swept. */
  function Gap(t: LiveTimer): nat {
    (Delay(t.expiration, t.placed) + SLOTS - t.placed % SLOTS) % SLOTS
  }

  lemma GapIsFirst(t: LiveTimer, u: nat)
    requires Delay(t.expiration, t.placed) < SLOTS
    ensures (t.placed + Gap(t)) % SLOTS == Delay(t.expiration, t.placed)
    ensures t.placed <= u && u % SLOTS == Delay(t.expiration, t.placed) ==> t.placed + Gap(t) <= u
  {
    var d := Delay(t.expiration, t.placed);
    NextOnSlot(t.placed, d);
    if t.placed <= u && u % SLOTS == d {
      SameTick(t.placed, t.placed + Gap(t), u);
    }
  }

  lemma NextOnSlot(start: nat, slot: nat)
    requires slot < SLOTS
    ensures (start + (slot + SLOTS - start % SLOTS) % SLOTS) % SLOTS == slot
  {
  }

  /** Of two ticks on one slot, one within a turn of `start` comes no later. */
  lemma SameTick(start: nat, t: nat, u: nat)
    requires start <= t < start + SLOTS && start <= u && t % SLOTS == u % SLOTS
    ensures t <= u
  {
  }

  /** Exactly when an advance returns a timer, in every state of every run: it must be due, and either its
      delay when last placed exceeded level 0 or the advance reaches the first sweep of its slot. */
  lemma FiresExactly(w: Wheel, ticks: nat, i: nat)
    requires WindowInv(w) && i in w.live && ticks > 0
    ensures var t := w.live[i];
      Fires(w, ticks, i) <==>
        t.expiration <= w.now + ticks && (Delay(t.expiration, t.placed) >= SLOTS || t.placed + Gap(t) <= w.now + ticks)
  {
    if Delay(w.live[i].expiration, w.live[i].placed) < SLOTS {
      SweptExactly(w, ticks, i);
    }
  }

  /** The slot of a timer on level 0 is swept by exactly those advances that reach its first sweep. */
  lemma SweptExactly(w: Wheel, ticks: nat, i: nat)
    requires WindowInv(w) && i in w.live && Delay(w.live[i].expiration, w.live[i].placed) < SLOTS
    ensures var t := w.live[i]; Swept(w.now, ticks, Delay(t.expiration, t.placed)) <==> t.placed + Gap(t) <= w.now + ticks
  {
    var t := w.live[i];
    var d := Delay(t.expiration, t.placed);
    var u := t.placed + Gap(t);
    assert Unswept(t, w.now);
    GapIsFirst(t, u);
    if Swept(w.now, ticks, d) {
      var v: nat :| w.now <= v <= w.now + ticks && v % SLOTS == d;
      GapIsFirst(t, v);
    }
  }

  /** A timer that is not due yet is returned by whichever single advance makes it due if and only if its
      delay when last placed exceeded level 0 or its slot comes round by its expiration. */
  lemma OnTimeIff(w: Wheel, i: nat)
    requires WindowInv(w) && i in w.live && w.now < w.live[i].expiration
    ensures var t := w.live[i];
      (forall ticks: nat :: ticks > 0 && w.now + ticks >= t.expiration ==> Fires(w, ticks, i))
      <==> Delay(t.expiration, t.placed) >= SLOTS || t.placed + Gap(t) <= t.expiration
  {
    var t := w.live[i];
    forall ticks: nat | ticks > 0
      ensures Fires(w, ticks, i) <==>
        t.expiration <= w.now + ticks && (Delay(t.expiration, t.placed) >= SLOTS || t.placed + Gap(t) <= w.now + ticks)
    {
      FiresExactly(w, ticks, i);
    }
    assert Fires(w, t.expiration - w.now, i) <==> Delay(t.expiration, t.placed) >= SLOTS || t.placed + Gap(t) <= t.expiration;
  }

  // ---------------------------------------------------------------------------------------
  // Which timers are prompt, in terms of the call that inserts them

  ghost function ApplyAll(w: Wheel, ops: seq<Op>): Wheel {
    if ops == [] then w else Apply(ApplyAll(w, ops[..|ops| - 1]), ops[|ops| - 1])
  }

  ghost predicate AllowedFrom(w: Wheel, ops: seq<Op>) {
    ops == [] || (AllowedFrom(w, ops[..|ops| - 1]) && Allowed(ApplyAll(w, ops[..|ops| - 1]), ops[|ops| - 1]))
  }

  /** Operations after which the tick has not come to `expiration` yet, none of them cancelling `h`. */
  ghost predicate Approach(w: Wheel, h: Handle, expiration: nat, ops: seq<Op>) {
    AllowedFrom(w, ops) && DoRemove(h) !in ops && ApplyAll(w, ops).now < expiration
  }

  ghost predicate ReturnsAt(w: Wheel, h: Handle, expiration: nat, ops: seq<Op>, ticks: nat) {
    Approach(w, h, expiration, ops) && ApplyAll(w, ops).now + ticks >= expiration ==>
      Names(ApplyAll(w, ops), h) && Fires(ApplyAll(w, ops), ticks, h.index)
  }

  /** After any such operations, the advance that reaches `expiration` returns the timer of `h`. */
  ghost predicate Prompt(w: Wheel, h: Handle, expiration: nat) {
    forall ops: seq<Op>, ticks: nat :: ReturnsAt(w, h, expiration, ops, ticks)
  }

  /** Inserted on a multiple of 64 with a delay below 64, or one tick after a multiple of 64 for the next tick. */
  predicate PromptDelay(now: nat, delay: nat) {
    (now % SLOTS == 0 && delay < SLOTS) || (now % SLOTS == 1 && delay == 1)
  }

  /** In every reachable wheel, a timer inserted for a later tick is returned by the advance that reaches
      that tick, whatever happens in between, if and only if its insertion meets `PromptDelay`. */
  lemma PromptIff(run: seq<Wheel>, ops: seq<Op>, k: nat, index: nat, waker: Waker, delay: nat)
    requires IsRun(run, ops) && k < |run| && index !in run[k].live && delay >= 1
    ensures var w := run[k]; var h := Handle(index, w.issued + 1);
      Prompt(Insert(w, index, waker, w.now + delay), h, w.now + delay) <==> PromptDelay(w.now, delay)
  {
    RunWindow(run, ops, k);
    var w := run[k];
    StepWindow(w, DoInsert(index, waker, w.now + delay));
    var w1 := Insert(w, index, waker, w.now + delay);
    var h := Handle(index, w.issued + 1);
    if PromptDelay(w.now, delay) {
      PromptIf(w1, h, delay);
    } else {
      NotPrompt(w1, h, delay);
    }
  }

  /** `h` names a timer placed at `placed` that expires at `expiration`. */
  predicate PlacedFor(w: Wheel, h: Handle, placed: nat, expiration: nat) {
    Names(w, h) && w.live[h.index].placed == placed && w.live[h.index].expiration == expiration
  }

  lemma PromptGap(t: LiveTimer)
    requires t.placed < t.expiration && PromptDelay(t.placed, t.expiration - t.placed)
    ensures Gap(t) == if t.placed % SLOTS == 0 then t.expiration - t.placed else 0
  {
  }

  lemma StaysPlaced(w: Wheel, op: Op, h: Handle, placed: nat, expiration: nat)
    requires WindowInv(w) && Allowed(w, op) && op != DoRemove(h) && PlacedFor(w, h, placed, expiration)
    requires placed < expiration && PromptDelay(placed, expiration - placed) && Apply(w, op).now < expiration
    ensures PlacedFor(Apply(w, op), h, placed, expiration)
  {
    if op.DoAdvance? && op.ticks > 0 {
      PromptGap(w.live[h.index]);
      assert Unswept(w.live[h.index], w.now);
      SweptExactly(w, op.ticks, h.index);
    }
  }

  lemma {:induction false} ApproachKeeps(w: Wheel, h: Handle, placed: nat, expiration: nat, ops: seq<Op>)
    requires WindowInv(w) && PlacedFor(w, h, placed, expiration) && Approach(w, h, expiration, ops)
    requires placed < expiration && PromptDelay(placed, expiration - placed)
    ensures WindowInv(ApplyAll(w, ops)) && PlacedFor(ApplyAll(w, ops), h, placed, expiration)
  {
    if ops != [] {
      var front, last := ops[..|ops| - 1], ops[|ops| - 1];
      assert last in ops && forall op :: op in front ==> op in ops;
      assert ApplyAll(w, front).now <= ApplyAll(w, ops).now;
      ApproachKeeps(w, h, placed, expiration, front);
      StepWindow(ApplyAll(w, front), last);
      StaysPlaced(ApplyAll(w, front), last, h, placed, expiration);
    }
  }

  lemma PromptIf(w: Wheel, h: Handle, delay: nat)
    requires WindowInv(w) && delay >= 1 && PlacedFor(w, h, w.now, w.now + delay) && PromptDelay(w.now, delay)
    ensures Prompt(w, h, w.now + delay)
  {
    var expiration := w.now + delay;
    forall ops: seq<Op>, ticks: nat ensures ReturnsAt(w, h, expiration, ops, ticks) {
      if Approach(w, h, expiration, ops) && ApplyAll(w, ops).now + ticks >= expiration {
        ApproachKeeps(w, h, w.now, expiration, ops);
        PromptGap(ApplyAll(w, ops).live[h.index]);
        FiresExactly(ApplyAll(w, ops), ticks, h.index);
      }
    }
  }

  /** A timer placed `k` ticks before its expiration, further than `k` beyond a multiple of 64, is left in
      the wheel by the advance to its expiration. */
  lemma LeftBehind(w: Wheel, h: Handle, k: nat)
    requires WindowInv(w) && 0 < k < SLOTS && PlacedFor(w, h, w.now, w.now + k) && w.now % SLOTS > k
    ensures !Fires(w, k, h.index)
  {
    FiresExactly(w, k, h.index);
  }

  lemma PlacedAfresh(w: Wheel, h: Handle, expiration: nat, ticks: nat)
    requires Names(w, h) && w.live[h.index].expiration == expiration && 0 < ticks && w.now + ticks < expiration
    requires Touched(w.live[h.index], w.now, ticks)
    ensures PlacedFor(Advance(w, ticks), h, w.now + ticks, expiration)
  {
  }

  lemma OneAdvance(w: Wheel, h: Handle, delay: nat, ticks: nat)
    requires ticks < delay
    ensures ApplyAll(w, [DoAdvance(ticks)]) == Advance(w, ticks)
    ensures Approach(w, h, w.now + delay, [DoAdvance(ticks)])
  {
    var ops := [DoAdvance(ticks)];
    assert ops[..0] == [] && AllowedFrom(w, []);
  }

  /** Two advances that leave a timer behind: the first places it afresh `k` ticks before its expiration. */
  lemma SplitAdvance(w: Wheel, h: Handle, delay: nat, k: nat)
    requires WindowInv(w) && PlacedFor(w, h, w.now, w.now + delay) && 0 < k < delay && k < SLOTS
    requires Touched(w.live[h.index], w.now, delay - k) && (w.now + delay - k) % SLOTS > k
    ensures !Prompt(w, h, w.now + delay)
  {
    var ops := [DoAdvance(delay - k)];
    var w1 := Advance(w, delay - k);
    StepWindow(w, ops[0]);
    PlacedAfresh(w, h, w.now + delay, delay - k);
    LeftBehind(w1, h, k);
    hide Touched; hide Fires; hide WindowInv; hide PlacedFor;
    OneAdvance(w, h, delay, delay - k);
    assert !ReturnsAt(w, h, w.now + delay, ops, k);
  }

  /** How long before its expiration to place a timer so that it is left behind. */
  function Lead(expiration: nat): nat {
    if expiration % SLOTS == 1 then 2 else if expiration % SLOTS == 2 then 3 else 1
  }

  lemma LeadIsLate(expiration: nat)
    requires expiration > 2
    ensures (expiration - Lead(expiration)) % SLOTS > Lead(expiration)
  {
  }

  lemma NotPrompt(w: Wheel, h: Handle, delay: nat)
    requires WindowInv(w) && delay >= 1 && PlacedFor(w, h, w.now, w.now + delay) && !PromptDelay(w.now, delay)
    ensures !Prompt(w, h, w.now + delay)
  {
    var r := w.now % SLOTS;
    if delay < SLOTS && r > delay {
      LeftBehind(w, h, delay);
      assert ApplyAll(w, []) == w && !ReturnsAt(w, h, w.now + delay, [], delay);
    } else {
      var k := Lead(w.now + delay);
      LeadFits(w.now, delay);
      LeadIsLate(w.now + delay);
      if delay < SLOTS {
        SweptExactly(w, delay - k, h.index);
      }
      SplitAdvance(w, h, delay, k);
    }
  }

  /** There is time for that placement, at or after the first sweep of the timer's slot. */
  lemma LeadFits(now: nat, delay: nat)
    requires delay >= 1 && !PromptDelay(now, delay) && (delay < SLOTS ==> now % SLOTS <= delay)
    ensures Lead(now + delay) < delay && now + delay > 2
    ensures delay < SLOTS ==> Lead(now + delay) <= now % SLOTS
  {
  }

  /** Two inputs that are left behind although their slot is swept in time or their delay is long. */
  lemma SweptTooEarly(w: Wheel, h: Handle)
    requires WindowInv(w)
    requires || (w.now == 10 && PlacedFor(w, h, 10, 40))
             || (w.now == 0 && PlacedFor(w, h, 0, 100))
    ensures !Prompt(w, h, w.live[h.index].expiration)
  {
    NotPrompt(w, h, w.live[h.index].expiration - w.now);
  }

  /** A timer for tick 11 placed at tick 10 sits in slot 1: the advance to tick 11 sweeps slots 10 and
      11 and leaves it, due, in the wheel. */
  lemma LateExample()
    ensures var w := Insert(Wheel(10, 0, map[]), 0, 7, 11);
      WindowInv(w) && 0 in Advance(w, 1).live && Advance(w, 1).live[0].expiration == Advance(w, 1).now
  {
    var w := Insert(Wheel(10, 0, map[]), 0, 7, 11);
    assert !Swept(10, 1, 1);
  }

  /** The bound of 62 is reached: a timer due at once at tick 1 is still live at tick 63. */
  lemma WindowIsTight()
    ensures var w := Insert(Advance(EMPTY, 1), 0, 7, 1);
      w.now == 1 && 0 in Advance(w, 62).live && Advance(w, 62).now == Advance(w, 62).live[0].expiration + SLOTS - 2
  {
    var w := Insert(Advance(EMPTY, 1), 0, 7, 1);
    assert w.now == 1 && w.live[0] == LiveTimer(7, 1, 1, 1);
    FirstTurnMissesSlotZero();
    assert !Touched(w.live[0], w.now, 62);
    assert !Fires(w, 62, 0);
  }

  lemma FirstTurnMissesSlotZero()
    ensures !Swept(1, 62, 0)
  {
  }

  // ---------------------------------------------------------------------------------------
  // What becomes of each timer

  /** A wheel with the generations cancelled and fired so far. */
  datatype Ledger = Ledger(wheel: Wheel, cancelled: set<nat>, fired: set<nat>)

  ghost function Record(l: Ledger, op: Op): Ledger {
    var wheel := Apply(l.wheel, op);
    match op
    case DoInsert(_, _, _) => l.(wheel := wheel)
    case DoRemove(h) =>
      Ledger(wheel, if Names(l.wheel, h) then l.cancelled + {h.generation} else l.cancelled, l.fired)
    case DoAdvance(ticks) =>
      Ledger(wheel, l.cancelled, l.fired + set i | i in Fired(l.wheel, ticks) :: l.wheel.live[i].generation)
  }

  ghost function RecordAll(ops: seq<Op>): Ledger {
    if ops == [] then Ledger(EMPTY, {}, {}) else Record(RecordAll(ops[..|ops| - 1]), ops[|ops| - 1])
  }

  ghost predicate AllowedAll(ops: seq<Op>) {
    ops == [] || (AllowedAll(ops[..|ops| - 1]) && Allowed(RecordAll(ops[..|ops| - 1]).wheel, ops[|ops| - 1]))
  }

  ghost predicate IsLive(w: Wheel, g: nat) {
    exists i :: i in w.live && w.live[i].generation == g
  }

  /** Every generation issued is in exactly one of the three states, and no other generation is. */
  ghost predicate Accounted(l: Ledger, g: nat) {
    && (1 <= g <= l.wheel.issued <==> IsLive(l.wheel, g) || g in l.cancelled || g in l.fired)
    && !(IsLive(l.wheel, g) && g in l.cancelled)
    && !(IsLive(l.wheel, g) && g in l.fired)
    && !(g in l.cancelled && g in l.fired)
  }

  ghost predicate LedgerInv(l: Ledger) {
    && (forall i, j :: i in l.wheel.live && j in l.wheel.live && l.wheel.live[i].generation == l.wheel.live[j].generation ==> i == j)
    && (forall g: nat :: Accounted(l, g))
  }

  lemma InsertAccounted(l: Ledger, op: Op, g: nat)
    requires LedgerInv(l) && Allowed(l.wheel, op) && op.DoInsert?
    ensures Accounted(Record(l, op), g)
  {
    var l' := Record(l, op);
    assert Accounted(l, g) && Accounted(l, l'.wheel.issued);
    assert l'.wheel.live[op.index].generation == l'.wheel.issued;
    if IsLive(l.wheel, g) {
      var i :| i in l.wheel.live && l.wheel.live[i].generation == g;
      assert l'.wheel.live[i].generation == g;
    }
  }

  lemma RemoveAccounted(l: Ledger, op: Op, g: nat)
    requires LedgerInv(l) && op.DoRemove?
    ensures Accounted(Record(l, op), g)
  {
    var l' := Record(l, op);
    assert Accounted(l, g) && Accounted(l, op.handle.generation);
    if IsLive(l.wheel, g) {
      var i :| i in l.wheel.live && l.wheel.live[i].generation == g;
      assert i in l'.wheel.live || g in l'.cancelled;
    }
  }

  lemma AdvanceAccounted(l: Ledger, op: Op, g: nat)
    requires LedgerInv(l) && op.DoAdvance?
    ensures Accounted(Record(l, op), g)
  {
    var l' := Record(l, op);
    assert Accounted(l, g);
    if IsLive(l.wheel, g) {
      var i :| i in l.wheel.live && l.wheel.live[i].generation == g;
      assert if Fires(l.wheel, op.ticks, i) then i in Fired(l.wheel, op.ticks) else i in l'.wheel.live;
    }
  }

  /** Over every history, each timer ever inserted is live, cancelled or fired, and only one of these;
      so none fires twice and none fires after being cancelled. */
  lemma {:induction false} TimersConserved(ops: seq<Op>)
    requires AllowedAll(ops)
    ensures LedgerInv(RecordAll(ops))
  {
    var l := RecordAll(ops);
    if ops != [] {
      var before, op := RecordAll(ops[..|ops| - 1]), ops[|ops| - 1];
      TimersConserved(ops[..|ops| - 1]);
      forall g: nat ensures Accounted(l, g) {
        match op
        case DoInsert(_, _, _) => InsertAccounted(before, op, g);
        case DoRemove(_) => RemoveAccounted(before, op, g);
        case DoAdvance(_) => AdvanceAccounted(before, op, g);
      }
      if op.DoInsert? {
        assert Accounted(before, l.wheel.issued);
      }
    }
  }

  /** A handle that was issued names, for ever after, its own timer or nothing: once its generation is
      cancelled or fired, `remove` with it changes nothing, even if the slab key is in use again. */
  lemma StaleHandleIsInert(ops: seq<Op>, h: Handle)
    requires AllowedAll(ops)
    requires h.generation in RecordAll(ops).cancelled + RecordAll(ops).fired
    ensures Remove(RecordAll(ops).wheel, h) == RecordAll(ops).wheel
  {
    TimersConserved(ops);
    assert Accounted(RecordAll(ops), h.generation);
  }

  /** The generation given out by an insertion was never given out before. */
  lemma HandlesAreFresh(ops: seq<Op>)
    requires AllowedAll(ops)
    ensures var l := RecordAll(ops); var g := l.wheel.issued + 1;
      !IsLive(l.wheel, g) && g !in l.cancelled && g !in l.fired
  {
    TimersConserved(ops);
    assert Accounted(RecordAll(ops), RecordAll(ops).wheel.issued + 1);
  }

  // ---------------------------------------------------------------------------------------
  // A timer waits undisturbed

  /** The timer that `h` names was returned by operation `j`. */
  ghost predicate FiredAt(run: seq<Wheel>, ops: seq<Op>, h: Handle, j: nat)
    requires |run| == |ops| + 1 && j < |ops|
  {
    ops[j].DoAdvance? && Names(run[j], h) && h.index in Fired(run[j], ops[j].ticks)
  }

  /** From any wheel on: as long as nobody cancels `h`, whatever else is inserted, cancelled or
      advanced, its timer keeps its waker and expiration until an advance returns it. */
  lemma {:induction false} WaitsUntilFired(run: seq<Wheel>, ops: seq<Op>, h: Handle, k: nat)
    requires |run| == |ops| + 1 && k <= |ops|
    requires forall j :: 0 <= j < |ops| ==> Allowed(run[j], ops[j]) && run[j + 1] == Apply(run[j], ops[j])
    requires Names(run[0], h) && forall j :: 0 <= j < |ops| ==> ops[j] != DoRemove(h)
    ensures (exists j :: 0 <= j < k && FiredAt(run, ops, h, j))
         || (Names(run[k], h) && run[k].live[h.index].waker == run[0].live[h.index].waker
             && run[k].live[h.index].expiration == run[0].live[h.index].expiration)
  {
    if k > 0 {
      WaitsUntilFired(run, ops, h, k - 1);
      if j :| 0 <= j < k - 1 && FiredAt(run, ops, h, j) {
        assert FiredAt(run, ops, h, j);
      } else {
        StaysOrFires(run[k - 1], ops[k - 1], h);
        if !Names(run[k], h) {
          assert FiredAt(run, ops, h, k - 1);
        }
      }
    }
  }

  lemma StaysOrFires(w: Wheel, op: Op, h: Handle)
    requires Names(w, h) && Allowed(w, op) && op != DoRemove(h)
    ensures var w' := Apply(w, op);
      || (op.DoAdvance? && h.index in Fired(w, op.ticks) && h.index !in w'.live)
      || (Names(w', h) && w'.live[h.index].waker == w.live[h.index].waker
          && w'.live[h.index].expiration == w.live[h.index].expiration)
  {
  }
}
