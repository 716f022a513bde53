/** `TimingWheel` of timer.rs: a slab of entries, 7 x 64 slot lists, a lazily cleaned heap and a
    cached minimum, updated in place, proved to refine the table of WheelSpec.

    Library containers appear as the values they hold: the slab as a map whose vacant keys are
    chosen arbitrarily, the binary heap as a set of keys with a least element. */
module TimingWheelClass {
  import opened Basics
  import opened WheelSpec
  import opened WheelLayout

  /** The heap orders (expiration, index, generation) lexicographically. */
  datatype HeapKey = HeapKey(expiration: nat, index: nat, generation: nat)

  predicate KeyLe(a: HeapKey, b: HeapKey) {
    || a.expiration < b.expiration
    || (a.expiration == b.expiration && a.index < b.index)
    || (a.expiration == b.expiration && a.index == b.index && a.generation <= b.generation)
  }

  // ---------------------------------------------------------------------------------------
  // Settling: what one look at a set of entries does

  function Resettle(e: Entry, now: nat): Entry {
    var d := Delay(e.expiration, now);
    e.(level := LevelOf(d), slot := SlotOf(d))
  }

  /** Of the entries in `s`, the expired ones leave and the others are placed afresh. */
  ghost function Settle(entries: map<nat, Entry>, s: set<nat>, now: nat): map<nat, Entry> {
    map i | i in entries && !(i in s && entries[i].expiration <= now) ::
      if i in s then Resettle(entries[i], now) else entries[i]
  }

  ghost function SettlePlaced(placed: map<nat, nat>, entries: map<nat, Entry>, s: set<nat>, now: nat): map<nat, nat> {
    map i | i in placed && !(i in s && i in entries && entries[i].expiration <= now) ::
      if i in s && i in entries then now else placed[i]
  }

  lemma SettleTwice(entries: map<nat, Entry>, s: set<nat>, r: set<nat>, now: nat)
    ensures Settle(Settle(entries, s, now), r, now) == Settle(entries, s + r, now)
  {
  }

  // ---------------------------------------------------------------------------------------
  // The wakers returned

  /** `wakers` are those of the entries of `before` that are gone from `after`, each once. */
  ghost predicate Returned(before: map<nat, Entry>, after: map<nat, Entry>, wakers: seq<Waker>, fired: seq<nat>) {
    && |wakers| == |fired|
    && Distinct(fired)
    && after.Keys <= before.Keys
    && Elems(fired) == before.Keys - after.Keys
    && (forall k :: 0 <= k < |fired| ==> fired[k] in before && wakers[k] == before[fired[k]].waker)
  }

  // ---------------------------------------------------------------------------------------
  // Heap and cached minimum

  ghost predicate HeapOk(entries: map<nat, Entry>, heap: set<HeapKey>, counter: nat) {
    && (forall i :: i in entries ==>
          entries[i].generation <= counter && HeapKey(entries[i].expiration, i, entries[i].generation) in heap)
    && (forall k :: k in heap ==>
          && k.generation <= counter
          && (Current(entries, k) ==> entries[k.index].expiration == k.expiration))
  }

  /** The entry the key was pushed for is still in the slab. */
  predicate Current(entries: map<nat, Entry>, k: HeapKey) {
    k.index in entries && entries[k.index].generation == k.generation
  }

  ghost predicate IsMin(entries: map<nat, Entry>, min: Option<nat>) {
    && (min.None? <==> entries.Keys == {})
    && (min.Some? ==>
          && (exists i :: i in entries && entries[i].expiration == min.value)
          && (forall i :: i in entries ==> min.value <= entries[i].expiration))
  }

  /** `min` is the earliest expiration of a table of timers. */
  ghost predicate Earliest(live: map<nat, LiveTimer>, min: Option<nat>) {
    && (min.None? <==> live.Keys == {})
    && (min.Some? ==>
          && (exists i :: i in live && live[i].expiration == min.value)
          && (forall i :: i in live ==> min.value <= live[i].expiration))
  }

  lemma {:induction false} LeastKey(heap: set<HeapKey>) returns (least: HeapKey)
    requires heap != {}
    ensures least in heap && forall k :: k in heap ==> KeyLe(least, k)
    decreases |heap|
  {
    var k :| k in heap;
    if heap == {k} {
      least := k;
    } else {
      var others := heap - {k};
      assert heap == others + {k};
      least := LeastKey(others);
      if !KeyLe(least, k) {
        least := k;
      }
    }
  }

  lemma {:induction false} VacantKeyExists(keys: set<nat>) returns (bound: nat)
    ensures forall k :: k in keys ==> k < bound
    decreases |keys|
  {
    if keys == {} {
      bound := 0;
    } else {
      var k :| k in keys;
      var others := keys - {k};
      assert keys == others + {k};
      bound := VacantKeyExists(others);
      bound := if bound <= k then k + 1 else bound;
    }
  }

  lemma HeapAfterSettle(entries: map<nat, Entry>, s: set<nat>, now: nat, heap: set<HeapKey>, counter: nat)
    requires HeapOk(entries, heap, counter)
    ensures HeapOk(Settle(entries, s, now), heap, counter)
  {
  }

  // ---------------------------------------------------------------------------------------
  // Slab, lists and placement

  ghost predicate PlacementOk(entries: map<nat, Entry>, placed: map<nat, nat>) {
    && placed.Keys == entries.Keys
    && (forall i :: i in entries ==> entries[i] == Resettle(entries[i], placed[i]))
  }

  ghost predicate Ok(entries: map<nat, Entry>, wheels: Slots, placed: map<nat, nat>, heap: set<HeapKey>,
                     counter: nat, min: Option<nat>)
  {
    && Located(entries, wheels, {}) && PlacementOk(entries, placed)
    && HeapOk(entries, heap, counter) && IsMin(entries, min)
  }

  ghost function Table(entries: map<nat, Entry>, placed: map<nat, nat>): map<nat, LiveTimer> {
    map i | i in entries ::
      LiveTimer(entries[i].waker, entries[i].expiration, entries[i].generation, if i in placed then placed[i] else 0)
  }

  // ---------------------------------------------------------------------------------------
  // Sweeping list by list

  ghost function AtLists(entries: map<nat, Entry>, lists: set<nat>): set<nat> {
    set i | i in entries && ListOf(entries[i]) in lists
  }

  /** A sweep under way: where it started, the entries looked at and the timers fired so far. */
  datatype Sweep = Sweep(entries: map<nat, Entry>, placed: map<nat, nat>, done: set<nat>, fired: seq<nat>)

  ghost predicate Sweeping(entries: map<nat, Entry>, wheels: Slots, placed: map<nat, nat>, now: nat,
                           g: Sweep, rest: set<nat>, wakers: seq<Waker>)
  {
    && Located(entries, wheels, rest) && PlacementOk(entries, placed)
    && g.placed.Keys == g.entries.Keys
    && entries == Settle(g.entries, g.done, now)
    && placed == SettlePlaced(g.placed, g.entries, g.done, now)
    && Returned(g.entries, entries, wakers, g.fired)
  }

  lemma SeenMore(entries: map<nat, Entry>, seen: set<nat>, now: nat, w: Slots, p: nat)
    requires Located(Settle(entries, AtLists(entries, seen), now), w, {}) && p < LISTS
    ensures AtLists(entries, seen) + Elems(w[p]) == AtLists(entries, seen + {p})
  {
    var cur := Settle(entries, AtLists(entries, seen), now);
    forall i ensures i in AtLists(entries, seen) + Elems(w[p]) <==> i in AtLists(entries, seen + {p}) {
      if i in entries && i !in AtLists(entries, seen) {
        assert i in cur && cur[i] == entries[i];
        assert i in w[p] <==> ListOf(entries[i]) == p;
      }
    }
  }

  lemma SettleOne(entries: map<nat, Entry>, s: set<nat>, i: nat, now: nat)
    requires i in Settle(entries, s, now)
    ensures var cur := Settle(entries, s, now);
      Settle(entries, s + {i}, now) == if cur[i].expiration <= now then cur - {i} else cur[i := Resettle(cur[i], now)]
  {
    SettleTwice(entries, s, {i}, now);
  }

  lemma SettlePlacedOne(placed: map<nat, nat>, entries: map<nat, Entry>, s: set<nat>, i: nat, now: nat)
    requires placed.Keys == entries.Keys && i in Settle(entries, s, now)
    ensures var cur := SettlePlaced(placed, entries, s, now);
      SettlePlaced(placed, entries, s + {i}, now) == if entries[i].expiration <= now then cur - {i} else cur[i := now]
  {
  }

  lemma ReturnedOne(before: map<nat, Entry>, after: map<nat, Entry>, wakers: seq<Waker>, fired: seq<nat>, i: nat)
    requires Returned(before, after, wakers, fired) && i in after && after[i].waker == before[i].waker
    ensures Returned(before, after - {i}, wakers + [after[i].waker], fired + [i])
  {
    assert forall j :: j in fired ==> j in Elems(fired);
    assert Elems(fired + [i]) == Elems(fired) + {i};
  }

  lemma FireOne(entries: map<nat, Entry>, wheels: Slots, placed: map<nat, nat>, now: nat,
                g: Sweep, rest: set<nat>, wakers: seq<Waker>, i: nat)
    requires Sweeping(entries, wheels, placed, now, g, rest, wakers) && i in rest && entries[i].expiration <= now
    ensures Sweeping(entries - {i}, wheels, placed - {i}, now,
                     g.(done := g.done + {i}, fired := g.fired + [i]), rest - {i}, wakers + [entries[i].waker])
  {
    DropRest(entries, wheels, rest, i);
    SettleOne(g.entries, g.done, i, now);
    SettlePlacedOne(g.placed, g.entries, g.done, i, now);
    ReturnedOne(g.entries, entries, wakers, g.fired, i);
  }

  lemma ReplaceOne(entries: map<nat, Entry>, wheels: Slots, placed: map<nat, nat>, now: nat,
                   g: Sweep, rest: set<nat>, wakers: seq<Waker>, i: nat)
    requires Sweeping(entries, wheels, placed, now, g, rest, wakers) && i in rest && entries[i].expiration > now
    ensures var e := Resettle(entries[i], now);
      InRange(e) && Sweeping(entries[i := e], wheels[ListOf(e) := wheels[ListOf(e)] + [i]], placed[i := now], now,
                             g.(done := g.done + {i}), rest - {i}, wakers)
  {
    var e := Resettle(entries[i], now);
    LevelInRange(Delay(entries[i].expiration, now));
    PushEntry(entries, wheels, rest, i, e);
    SettleOne(g.entries, g.done, i, now);
    SettlePlacedOne(g.placed, g.entries, g.done, i, now);
    PlacementOne(entries, placed, i, now);
    ReturnedReplace(g.entries, entries, wakers, g.fired, i, e);
  }

  lemma TakeList(entries: map<nat, Entry>, wheels: Slots, placed: map<nat, nat>, now: nat,
                 g: Sweep, wakers: seq<Waker>, p: nat)
    requires Sweeping(entries, wheels, placed, now, g, {}, wakers) && p < LISTS
    ensures |wheels| == LISTS && Distinct(wheels[p])
    ensures Sweeping(entries, wheels[p := []], placed, now, g, Elems(wheels[p]), wakers)
  {
    TakeSlot(entries, wheels, p);
  }

  lemma RestListed(entries: map<nat, Entry>, wheels: Slots, placed: map<nat, nat>, now: nat,
                   g: Sweep, rest: set<nat>, wakers: seq<Waker>)
    requires Sweeping(entries, wheels, placed, now, g, rest, wakers)
    ensures |wheels| == LISTS && rest <= entries.Keys
  {
  }

  lemma SeenList(entries: map<nat, Entry>, wheels: Slots, placed: map<nat, nat>, now: nat,
                 g: Sweep, wakers: seq<Waker>, seen: set<nat>, p: nat)
    requires Sweeping(entries, wheels, placed, now, g, {}, wakers) && p < LISTS && g.done == AtLists(g.entries, seen)
    ensures |wheels| == LISTS && g.done + Elems(wheels[p]) == AtLists(g.entries, seen + {p})
  {
    SeenMore(g.entries, seen, now, wheels, p);
  }

  lemma SplitElems(list: seq<nat>, k: nat)
    requires Distinct(list) && k < |list|
    ensures list[k] in Elems(list[k..]) && Elems(list[k..]) - {list[k]} == Elems(list[k + 1..])
    ensures Elems(list[..k + 1]) == Elems(list[..k]) + {list[k]}
  {
    assert list[k..] == [list[k]] + list[k + 1..];
    assert list[..k + 1] == list[..k] + [list[k]];
    assert list[k] !in list[k + 1..];
  }

  lemma PlacementOne(entries: map<nat, Entry>, placed: map<nat, nat>, i: nat, now: nat)
    requires PlacementOk(entries, placed) && i in entries
    ensures PlacementOk(entries[i := Resettle(entries[i], now)], placed[i := now])
  {
    assert entries[i := Resettle(entries[i], now)].Keys == entries.Keys;
  }

  lemma ReturnedReplace(before: map<nat, Entry>, after: map<nat, Entry>, wakers: seq<Waker>, fired: seq<nat>, i: nat, e: Entry)
    requires Returned(before, after, wakers, fired) && i in after
    ensures Returned(before, after[i := e], wakers, fired)
  {
    assert after[i := e].Keys == after.Keys;
  }

  /** The level-0 slots that `advance` processes are those of the ticks it passes. */
  predicate InSweep(start: nat, ticks: nat, slot: nat) {
    var a, b := start % SLOTS, (start + ticks) % SLOTS;
    ticks >= SLOTS || (if a <= b then a <= slot <= b else a <= slot || slot <= b)
  }

  lemma InSweepIsSwept(start: nat, ticks: nat, slot: nat)
    requires ticks > 0 && slot < SLOTS
    ensures InSweep(start, ticks, slot) <==> Swept(start, ticks, slot)
  {
    if ticks >= SLOTS {
      FullTurn(start, ticks, slot);
    } else {
      var a, turn := start % SLOTS, start / SLOTS;
      var t := turn * SLOTS + slot + if slot < a then SLOTS else 0;
      assert t % SLOTS == slot;
      assert InSweep(start, ticks, slot) <==> t <= start + ticks by { EndSlot(start, ticks); }
      if Swept(start, ticks, slot) {
        var u: nat :| start <= u <= start + ticks && u % SLOTS == slot;
        SameTick(start, t, u);
      }
    }
  }

  lemma EndSlot(start: nat, ticks: nat)
    requires ticks < SLOTS
    ensures (start + ticks) % SLOTS == start % SLOTS + ticks - if start % SLOTS + ticks >= SLOTS then SLOTS else 0
  {
  }

  // ---------------------------------------------------------------------------------------
  // One entry more, one entry less

  lemma InsertHeapMin(entries: map<nat, Entry>, heap: set<HeapKey>, counter: nat, min: Option<nat>, i: nat, e: Entry)
    requires HeapOk(entries, heap, counter) && IsMin(entries, min) && i !in entries && e.generation == counter + 1
    ensures HeapOk(entries[i := e], heap + {HeapKey(e.expiration, i, e.generation)}, counter + 1)
    ensures IsMin(entries[i := e], Some(if min.Some? && min.value <= e.expiration then min.value else e.expiration))
  {
    var entries' := entries[i := e];
    assert entries'[i] == e && forall j :: j in entries ==> entries'[j] == entries[j];
  }

  lemma RemoveHeap(entries: map<nat, Entry>, heap: set<HeapKey>, counter: nat, i: nat)
    requires HeapOk(entries, heap, counter)
    ensures HeapOk(entries - {i}, heap, counter)
  {
  }

  lemma InsertOk(entries: map<nat, Entry>, wheels: Slots, placed: map<nat, nat>, heap: set<HeapKey>,
                 counter: nat, min: Option<nat>, i: nat, e: Entry, now: nat)
    requires Ok(entries, wheels, placed, heap, counter, min)
    requires i !in entries && e.generation == counter + 1 && e == Resettle(e, now)
    ensures |wheels| == LISTS && ListOf(e) < LISTS
    ensures Ok(entries[i := e], wheels[ListOf(e) := wheels[ListOf(e)] + [i]], placed[i := now],
               heap + {HeapKey(e.expiration, i, e.generation)}, counter + 1,
               Some(if min.Some? && min.value <= e.expiration then min.value else e.expiration))
  {
    hide HeapOk; hide IsMin;
    LevelInRange(Delay(e.expiration, now));
    PushEntry(entries, wheels, {}, i, e);
    InsertHeapMin(entries, heap, counter, min, i, e);
    assert {} - {i} == {};
  }

  lemma EntryListed(entries: map<nat, Entry>, wheels: Slots, placed: map<nat, nat>, heap: set<HeapKey>,
                    counter: nat, min: Option<nat>, i: nat)
    requires Ok(entries, wheels, placed, heap, counter, min) && i in entries
    ensures |wheels| == LISTS && ListOf(entries[i]) < LISTS && i in wheels[ListOf(entries[i])]
  {
  }

  lemma MakeOk(entries: map<nat, Entry>, wheels: Slots, placed: map<nat, nat>, heap: set<HeapKey>,
               counter: nat, min: Option<nat>)
    requires Located(entries, wheels, {}) && PlacementOk(entries, placed)
    requires HeapOk(entries, heap, counter) && IsMin(entries, min)
    ensures Ok(entries, wheels, placed, heap, counter, min)
  {
  }

  lemma RemoveOk(entries: map<nat, Entry>, wheels: Slots, placed: map<nat, nat>, heap: set<HeapKey>,
                 counter: nat, min: Option<nat>, i: nat, pos: nat)
    requires Ok(entries, wheels, placed, heap, counter, min) && i in entries
    requires pos < |wheels[ListOf(entries[i])]| && wheels[ListOf(entries[i])][pos] == i
    ensures var p := ListOf(entries[i]);
      && Located(entries - {i}, wheels[p := wheels[p][..pos] + wheels[p][pos + 1..]], {})
      && PlacementOk(entries - {i}, placed - {i}) && HeapOk(entries - {i}, heap, counter)
  {
    hide HeapOk; hide Located;
    UnlinkEntry(entries, wheels, i, pos);
    RemoveHeap(entries, heap, counter, i);
  }

  lemma TableKeys(entries: map<nat, Entry>, placed: map<nat, nat>)
    ensures Table(entries, placed).Keys == entries.Keys
  {
  }

  lemma InsertTable(entries: map<nat, Entry>, placed: map<nat, nat>, i: nat, e: Entry, now: nat)
    ensures Table(entries[i := e], placed[i := now])
         == Table(entries, placed)[i := LiveTimer(e.waker, e.expiration, e.generation, now)]
  {
  }

  lemma RemoveTable(entries: map<nat, Entry>, placed: map<nat, nat>, i: nat)
    ensures Table(entries - {i}, placed - {i}) == Table(entries, placed) - {i}
  {
  }

  lemma EarliestInTable(entries: map<nat, Entry>, placed: map<nat, nat>, min: Option<nat>)
    requires IsMin(entries, min)
    ensures Earliest(Table(entries, placed), min)
  {
    var live := Table(entries, placed);
    assert live.Keys == entries.Keys;
    if min.Some? {
      var i :| i in entries && entries[i].expiration == min.value;
      assert i in live && live[i].expiration == min.value;
    }
  }

  class TimingWheel {
    var entries: map<nat, Entry>
    var wheels: Slots
    var currentTick: nat
    var generationCounter: nat
    var minExpiration: Option<nat>
    var heap: set<HeapKey>
    /** The tick at which each entry was last placed. */
    ghost var placed: map<nat, nat>

    // An equation, so that callers see the layout predicate as a unit.
    ghost predicate Valid()
      reads this
    {
      Ok(entries, wheels, placed, heap, generationCounter, minExpiration) == true
    }

    ghost function View(): Wheel
      reads this
    {
      Wheel(currentTick, generationCounter, Table(entries, placed))
    }

    constructor ()
      ensures Valid() && View() == EMPTY
    {
      entries, placed := map[], map[];
      wheels := seq(LISTS, _ => []);
      currentTick, generationCounter := 0, 0;
      minExpiration, heap := None, {};
    }

    method IsEmpty() returns (empty: bool)
      ensures empty <==> View().live == map[]
    {
      empty := entries == map[];
      assert empty <==> View().live.Keys == {};
    }

    /** The key `Slab::insert` uses: some key not in use. */
    method VacantKey() returns (key: nat)
      ensures key !in entries
    {
      ghost var bound := VacantKeyExists(entries.Keys);
      assert bound !in entries;
      key :| key !in entries;
    }

    method CalculateLevelAndSlot(delay: nat) returns (level: nat, slot: nat)
      ensures level == LevelOf(delay) && slot == SlotOf(delay)
    {
      level := 0;
      var span := 1;
      while level < LEVELS - 1 && delay > SLOTS * span - 1
        invariant level < LEVELS && span == Span(level)
        invariant LevelOf(delay) == LevelFrom(delay, level)
      {
        level, span := level + 1, SLOTS * span;
      }
      slot := delay / span % SLOTS;
    }

    /** Pops stale keys until the top of the heap belongs to a live entry. */
    method RefreshMinExpiration()
      requires HeapOk(entries, heap, generationCounter)
      modifies this`heap, this`minExpiration
      ensures HeapOk(entries, heap, generationCounter) && IsMin(entries, minExpiration)
    {
      while heap != {}
        invariant HeapOk(entries, heap, generationCounter)
        decreases |heap|
      {
        ghost var least := LeastKey(heap);
        var top :| top in heap && forall k :: k in heap ==> KeyLe(top, k);
        if Current(entries, top) {
          assert forall i :: i in entries ==> KeyLe(top, HeapKey(entries[i].expiration, i, entries[i].generation));
          minExpiration := Some(entries[top.index].expiration);
          return;
        }
        heap := heap - {top};
      }
      minExpiration := None;
    }

    /** `None` for an empty wheel, and also when the earliest timer expires at tick 0. */
    method NearestWakeup() returns (tick: Option<nat>)
      requires Valid()
      modifies this`heap, this`minExpiration
      ensures Valid() && Earliest(View().live, minExpiration)
      ensures tick == if minExpiration == Some(0) then None else minExpiration
    {
      hide Located; hide PlacementOk; hide HeapOk; hide IsMin; hide Earliest; hide Table;
      RefreshMinExpiration();
      MakeOk(entries, wheels, placed, heap, generationCounter, minExpiration);
      EarliestInTable(entries, placed, minExpiration);
      tick := if minExpiration == Some(0) then None else minExpiration;
    }

    method Insert(waker: Waker, expiration: nat) returns (h: Handle)
      requires Valid()
      modifies this
      ensures Valid()
      ensures h.index !in old(View()).live && h.generation == old(generationCounter) + 1
      ensures View() == WheelSpec.Insert(old(View()), h.index, waker, expiration) && Names(View(), h)
    {
      hide Ok; hide Located; hide PlacementOk; hide HeapOk; hide IsMin; hide Table;
      var level, slot := CalculateLevelAndSlot(Delay(expiration, currentTick));
      var index := VacantKey();
      var e := Entry(waker, expiration, generationCounter + 1, level, slot);
      InsertOk(entries, wheels, placed, heap, generationCounter, minExpiration, index, e, currentTick);
      InsertTable(entries, placed, index, e, currentTick);
      TableKeys(entries, placed);
      generationCounter := generationCounter + 1;
      entries := entries[index := e];
      wheels := wheels[ListOf(e) := wheels[ListOf(e)] + [index]];
      placed := placed[index := currentTick];
      heap := heap + {HeapKey(expiration, index, generationCounter)};
      minExpiration := Some(if minExpiration.Some? && minExpiration.value <= expiration
                            then minExpiration.value else expiration);
      h := Handle(index, generationCounter);
    }

    /** The position of `index` in a slot list. */
    static method Position(list: seq<nat>, index: nat) returns (pos: nat)
      requires index in list
      ensures pos < |list| && list[pos] == index
    {
      pos := 0;
      while list[pos] != index
        invariant pos < |list|
        invariant index in list[pos..]
        decreases |list| - pos
      {
        pos := pos + 1;
      }
    }

    method Remove(h: Handle)
      requires Valid()
      modifies this
      ensures Valid()
      ensures View() == WheelSpec.Remove(old(View()), h)
    {
      hide Ok; hide Located; hide PlacementOk; hide HeapOk; hide IsMin;
      if h.index in entries && entries[h.index].generation == h.generation {
        var p := ListOf(entries[h.index]);
        EntryListed(entries, wheels, placed, heap, generationCounter, minExpiration, h.index);
        var pos := Position(wheels[p], h.index);
        RemoveOk(entries, wheels, placed, heap, generationCounter, minExpiration, h.index, pos);
        RemoveTable(entries, placed, h.index);
        wheels := wheels[p := wheels[p][..pos] + wheels[p][pos + 1..]];
        entries := entries - {h.index};
        placed := placed - {h.index};
        RefreshMinExpiration();
        MakeOk(entries, wheels, placed, heap, generationCounter, minExpiration);
      }
    }

    // ---------------------------------------------------------------------------------------
    // Advancing

    /** Empties one slot list: expired timers leave the slab, the others are placed afresh.  This is the
        loop body of `cascade_level` and the whole of `process_slot_at_level_0`. */
    method ProcessList(p: nat, wakers: seq<Waker>, ghost g: Sweep, ghost seen: set<nat>)
      returns (wakers': seq<Waker>, ghost g': Sweep)
      requires p < LISTS && Swept(g, seen, wakers)
      modifies this`entries, this`wheels, this`placed
      ensures Swept(g', seen + {p}, wakers') && g'.entries == g.entries && g'.placed == g.placed
    {
      hide Sweeping;
      SeenList(entries, wheels, placed, currentTick, g, wakers, seen, p);
      TakeList(entries, wheels, placed, currentTick, g, wakers, p);
      var taken := wheels[p];
      wheels := wheels[p := []];
      wakers', g' := wakers, g;
      var k := 0;
      assert taken[0..] == taken;
      while k < |taken|
        invariant k <= |taken|
        invariant Sweeping(entries, wheels, placed, currentTick, g', Elems(taken[k..]), wakers') == true
        invariant g' == Sweep(g.entries, g.placed, g.done + Elems(taken[..k]), g'.fired)
      {
        var i := taken[k];
        SplitElems(taken, k);
        RestListed(entries, wheels, placed, currentTick, g', Elems(taken[k..]), wakers');
        if i in entries {
          if entries[i].expiration <= currentTick {
            FireOne(entries, wheels, placed, currentTick, g', Elems(taken[k..]), wakers', i);
            wakers', g' := wakers' + [entries[i].waker], g'.(done := g'.done + {i}, fired := g'.fired + [i]);
            entries, placed := entries - {i}, placed - {i};
          } else {
            ReplaceOne(entries, wheels, placed, currentTick, g', Elems(taken[k..]), wakers', i);
            var level, slot := CalculateLevelAndSlot(entries[i].expiration - currentTick);
            var e := entries[i].(level := level, slot := slot);
            g' := g'.(done := g'.done + {i});
            entries, placed := entries[i := e], placed[i := currentTick];
            wheels := wheels[ListOf(e) := wheels[ListOf(e)] + [i]];
          }
        }
        k := k + 1;
      }
      assert taken[..k] == taken && Elems(taken[k..]) == {};
    }

    /** The lists in `seen` have been processed since the sweep `g` started.  An equation again, as in the loop
        invariant above. */
    ghost predicate Swept(g: Sweep, seen: set<nat>, wakers: seq<Waker>)
      reads this
    {
      Sweeping(entries, wheels, placed, currentTick, g, {}, wakers) == true && g.done == AtLists(g.entries, seen)
    }

    /** The lists numbered from `lo` to below `hi`. */
    method ProcessLists(lo: nat, hi: nat, wakers: seq<Waker>, ghost g: Sweep, ghost seen: set<nat>)
      returns (wakers': seq<Waker>, ghost g': Sweep)
      requires lo <= hi <= LISTS && Swept(g, seen, wakers)
      modifies this`entries, this`wheels, this`placed
      ensures Swept(g', seen + Range(lo, hi), wakers') && g'.entries == g.entries && g'.placed == g.placed
    {
      hide Sweeping;
      wakers', g' := wakers, g;
      assert seen + Range(lo, lo) == seen;
      for p := lo to hi
        invariant Swept(g', seen + Range(lo, p), wakers') && g'.entries == g.entries && g'.placed == g.placed
      {
        wakers', g' := ProcessList(p, wakers', g', seen + Range(lo, p));
        assert seen + Range(lo, p) + {p} == seen + Range(lo, p + 1);
      }
    }

    method CascadeAllLevels(wakers: seq<Waker>, ghost g: Sweep) returns (wakers': seq<Waker>, ghost g': Sweep)
      requires Swept(g, {}, wakers)
      modifies this`entries, this`wheels, this`placed
      ensures Swept(g', Range(SLOTS, LISTS), wakers') && g'.entries == g.entries && g'.placed == g.placed
    {
      hide Sweeping;
      wakers', g' := wakers, g;
      assert Range(LISTS, LISTS) == {};
      for level := LEVELS downto 1
        invariant Swept(g', Range(SLOTS * level, LISTS), wakers') && g'.entries == g.entries && g'.placed == g.placed
      {
        wakers', g' := ProcessLists(SLOTS * level, SLOTS * (level + 1), wakers', g', Range(SLOTS * (level + 1), LISTS));
        assert Range(SLOTS * (level + 1), LISTS) + Range(SLOTS * level, SLOTS * (level + 1)) == Range(SLOTS * level, LISTS);
      }
    }

    /** The level-0 part of `advance`. */
    method SweepLevel0(start: nat, ticks: nat, wakers: seq<Waker>, ghost g: Sweep)
      returns (wakers': seq<Waker>, ghost g': Sweep)
      requires Swept(g, Range(SLOTS, LISTS), wakers)
      modifies this`entries, this`wheels, this`placed
      ensures Swept(g', Looked(start, ticks), wakers') && g'.entries == g.entries && g'.placed == g.placed
    {
      hide Sweeping;
      var startSlot, endSlot := start % SLOTS, (start + ticks) % SLOTS;
      ghost var seen := Range(SLOTS, LISTS);
      if ticks >= SLOTS {
        wakers', g' := ProcessLists(0, SLOTS, wakers, g, seen);
        seen := seen + Range(0, SLOTS);
      } else if startSlot <= endSlot {
        wakers', g' := ProcessLists(startSlot, endSlot + 1, wakers, g, seen);
        seen := seen + Range(startSlot, endSlot + 1);
      } else {
        wakers', g' := ProcessLists(startSlot, SLOTS, wakers, g, seen);
        seen := seen + Range(startSlot, SLOTS);
        wakers', g' := ProcessLists(0, endSlot + 1, wakers', g', seen);
        seen := seen + Range(0, endSlot + 1);
      }
      assert seen == Looked(start, ticks);
    }

    /** Returns the wakers of exactly the timers that WheelSpec says fire. */
    method Advance(ticks: nat) returns (wakers: seq<Waker>, ghost fired: seq<nat>)
      requires Valid()
      modifies this
      ensures Valid()
      ensures View() == WheelSpec.Advance(old(View()), ticks)
      ensures FiredWakers(old(View()), ticks, wakers, fired)
    {
      hide Ok; hide Sweeping; hide HeapOk; hide IsMin; hide Located; hide PlacementOk; hide Table;
      ghost var before := View();
      if ticks == 0 {
        wakers, fired := [], [];
        NothingFires(before);
        return;
      }
      var start := currentTick;
      currentTick := currentTick + ticks;
      ghost var g := Sweep(entries, placed, {}, []);
      SweepStart(entries, wheels, placed, heap, generationCounter, minExpiration, currentTick);
      wakers, g := CascadeAllLevels([], g);
      wakers, g := SweepLevel0(start, ticks, wakers, g);
      SweepEnd(entries, wheels, placed, heap, generationCounter, minExpiration, start, ticks, g, wakers);
      RefreshMinExpiration();
      MakeOk(entries, wheels, placed, heap, generationCounter, minExpiration);
      fired := g.fired;
    }
  }

  /** `fired` lists the timers that fire, each once, and `wakers` are their wakers. */
  ghost predicate FiredWakers(w: Wheel, ticks: nat, wakers: seq<Waker>, fired: seq<nat>) {
    && Distinct(fired) && Elems(fired) == Fired(w, ticks)
    && |wakers| == |fired|
    && forall k :: 0 <= k < |fired| ==> fired[k] in w.live && wakers[k] == w.live[fired[k]].waker
  }

  lemma NothingFires(w: Wheel)
    ensures WheelSpec.Advance(w, 0) == w && FiredWakers(w, 0, [], [])
  {
    assert WheelSpec.Advance(w, 0).live == w.live;
    assert Fired(w, 0) == {};
  }

  lemma SweepStart(entries: map<nat, Entry>, wheels: Slots, placed: map<nat, nat>, heap: set<HeapKey>,
                   counter: nat, min: Option<nat>, now: nat)
    requires Ok(entries, wheels, placed, heap, counter, min)
    ensures Sweeping(entries, wheels, placed, now, Sweep(entries, placed, {}, []), {}, [])
    ensures AtLists(entries, {}) == {}
    ensures HeapOk(entries, heap, counter)
  {
    assert Settle(entries, {}, now) == entries;
    assert SettlePlaced(placed, entries, {}, now) == placed;
  }

  /** The lists processed hold exactly the timers that WheelSpec says are touched. */
  lemma LookedIsTouched(e: Entry, placed: nat, start: nat, ticks: nat)
    requires e == Resettle(e, placed) && ticks > 0
    ensures ListOf(e) in Looked(start, ticks) <==> Touched(LiveTimer(e.waker, e.expiration, e.generation, placed), start, ticks)
  {
    var d := Delay(e.expiration, placed);
    LevelInRange(d);
    LevelZero(d);
    if d < SLOTS {
      InSweepIsSwept(start, ticks, d);
    } else {
      assert Between(SLOTS, ListOf(e), LISTS);
    }
  }

  lemma SweepEnd(entries: map<nat, Entry>, wheels: Slots, placed: map<nat, nat>, heap: set<HeapKey>,
                 counter: nat, min: Option<nat>, start: nat, ticks: nat, g: Sweep, wakers: seq<Waker>)
    requires Sweeping(entries, wheels, placed, start + ticks, g, {}, wakers) && ticks > 0
    requires g.done == AtLists(g.entries, Looked(start, ticks)) && PlacementOk(g.entries, g.placed)
    requires HeapOk(g.entries, heap, counter)
    ensures Located(entries, wheels, {}) && PlacementOk(entries, placed) && HeapOk(entries, heap, counter)
    ensures var w := Wheel(start, counter, Table(g.entries, g.placed));
      && Wheel(start + ticks, counter, Table(entries, placed)) == WheelSpec.Advance(w, ticks)
      && FiredWakers(w, ticks, wakers, g.fired)
  {
    hide Located; hide PlacementOk; hide HeapOk; hide Returned; hide Settle; hide SettlePlaced;
    hide Table; hide Fired; hide FiredWakers; hide AtLists; hide Looked;
    HeapAfterSettle(g.entries, g.done, start + ticks, heap, counter);
    SweepTouched(g, start, ticks);
    TableAfter(g, start, ticks, counter);
    WakersAfter(g, start, ticks, counter, wakers);
  }

  lemma SweepTouched(g: Sweep, start: nat, ticks: nat)
    requires g.done == AtLists(g.entries, Looked(start, ticks)) && PlacementOk(g.entries, g.placed) && ticks > 0
    ensures var live := Table(g.entries, g.placed);
      forall i :: i in g.entries ==> i in live && (i in g.done <==> Touched(live[i], start, ticks))
  {
    var live := Table(g.entries, g.placed);
    forall i | i in g.entries
      ensures i in live && (i in g.done <==> Touched(live[i], start, ticks))
    {
      LookedIsTouched(g.entries[i], g.placed[i], start, ticks);
    }
  }

  lemma WakersAfter(g: Sweep, start: nat, ticks: nat, counter: nat, wakers: seq<Waker>)
    requires Returned(g.entries, Settle(g.entries, g.done, start + ticks), wakers, g.fired)
    requires Fired(Wheel(start, counter, Table(g.entries, g.placed)), ticks)
          == g.entries.Keys - Settle(g.entries, g.done, start + ticks).Keys
    ensures FiredWakers(Wheel(start, counter, Table(g.entries, g.placed)), ticks, wakers, g.fired)
  {
  }

  lemma TableAfter(g: Sweep, start: nat, ticks: nat, counter: nat)
    requires ticks > 0 && g.placed.Keys == g.entries.Keys
    requires var live := Table(g.entries, g.placed);
      forall i :: i in g.entries ==> i in live && (i in g.done <==> Touched(live[i], start, ticks))
    ensures var w := Wheel(start, counter, Table(g.entries, g.placed));
      && Table(Settle(g.entries, g.done, start + ticks), SettlePlaced(g.placed, g.entries, g.done, start + ticks))
         == WheelSpec.Advance(w, ticks).live
      && Fired(w, ticks) == g.entries.Keys - Settle(g.entries, g.done, start + ticks).Keys
  {
  }

  predicate Between(lo: nat, p: nat, hi: nat) {
    lo <= p < hi
  }

  function Range(lo: nat, hi: nat): set<nat> {
    set p: nat | lo <= p < hi && Between(lo, p, hi)
  }

  /** The lists an advance processes. */
  function Looked(start: nat, ticks: nat): set<nat> {
    Range(SLOTS, LISTS) + set s: nat | s < SLOTS && InSweep(start, ticks, s)
  }

  /** Every entry above level 0 was placed at the current tick, so its level and slot are those of its
      remaining delay. */
  lemma HighLevelsAreCurrent(entries: map<nat, Entry>, placed: map<nat, nat>, now: nat, counter: nat, i: nat)
    requires PlacementOk(entries, placed) && WindowInv(Wheel(now, counter, Table(entries, placed)))
    requires i in entries && entries[i].level > 0
    ensures placed[i] == now && entries[i] == Resettle(entries[i], now)
  {
    LevelZero(Delay(entries[i].expiration, placed[i]));
    assert Unswept(Table(entries, placed)[i], now);
  }
}
