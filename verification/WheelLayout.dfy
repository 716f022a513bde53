/** Where the timing wheel keeps its timers: the choice of level and slot, and the agreement between
    the slab and the slot lists. */
module WheelLayout {
  import opened Basics
  import opened WheelSpec

  /** `NUM_LEVELS` */
  const LEVELS: nat := 7

  datatype Entry = Entry(waker: Waker, expiration: nat, generation: nat, level: nat, slot: nat)

  // ---------------------------------------------------------------------------------------
  // Level and slot

  /** The number of ticks one slot of `level` stands for: 1 << (6 * level). */
  function Span(level: nat): (s: nat)
    ensures s > 0
  {
    if level == 0 then 1 else SLOTS * Span(level - 1)
  }

  function LevelFrom(delay: nat, level: nat): nat
    decreases LEVELS - level
  {
    if level >= LEVELS - 1 || delay < Span(level + 1) then level else LevelFrom(delay, level + 1)
  }

  function LevelOf(delay: nat): nat {
    LevelFrom(delay, 0)
  }

  function SlotOf(delay: nat): nat {
    delay / Span(LevelOf(delay)) % SLOTS
  }

  lemma LevelInRange(delay: nat)
    ensures LevelOf(delay) < LEVELS && SlotOf(delay) < SLOTS
  {
  }

  /** Level 0 holds exactly the delays below 64, each in the slot of its own number. */
  lemma LevelZero(delay: nat)
    ensures LevelOf(delay) == 0 <==> delay < SLOTS
    ensures delay < SLOTS ==> SlotOf(delay) == delay
  {
  }

  // ---------------------------------------------------------------------------------------
  // Slab and slot lists

  /** The slot lists, level after level: slot `s` of level `l` is list number 64 * l + s. */
  type Slots = seq<seq<nat>>

  const LISTS: nat := LEVELS * SLOTS

  function ListOf(e: Entry): nat {
    SLOTS * e.level + e.slot
  }

  ghost predicate Distinct(s: seq<nat>) {
    forall a, b :: 0 <= a < b < |s| ==> s[a] != s[b]
  }

  predicate InRange(e: Entry) {
    e.level < LEVELS && e.slot < SLOTS
  }

  /** Each entry outside `rest` is in the list of its recorded level and slot, once, and in no other
      list; the entries in `rest` are in no list. */
  ghost predicate Located(entries: map<nat, Entry>, w: Slots, rest: set<nat>) {
    && |w| == LISTS
    && rest <= entries.Keys
    && (forall i :: i in entries ==> InRange(entries[i]))
    && (forall i :: i in entries && i !in rest ==> i in w[ListOf(entries[i])])
    && (forall p, i :: 0 <= p < LISTS && i in w[p] ==> i in entries && i !in rest && ListOf(entries[i]) == p)
    && (forall p :: 0 <= p < LISTS ==> Distinct(w[p]))
  }

  lemma TakeSlot(entries: map<nat, Entry>, w: Slots, p: nat)
    requires Located(entries, w, {}) && p < LISTS
    ensures Located(entries, w[p := []], Elems(w[p]))
  {
    assert forall i :: i in entries ==> (i in w[p] <==> ListOf(entries[i]) == p);
    assert Distinct([]);
  }

  lemma DropRest(entries: map<nat, Entry>, w: Slots, rest: set<nat>, i: nat)
    requires Located(entries, w, rest) && i in rest
    ensures Located(entries - {i}, w, rest - {i})
  {
  }

  lemma PushEntry(entries: map<nat, Entry>, w: Slots, rest: set<nat>, i: nat, e: Entry)
    requires Located(entries, w, rest) && (i in rest || i !in entries) && InRange(e)
    ensures Located(entries[i := e], w[ListOf(e) := w[ListOf(e)] + [i]], rest - {i})
  {
    assert i !in w[ListOf(e)];
  }

  lemma UnlinkEntry(entries: map<nat, Entry>, w: Slots, i: nat, pos: nat)
    requires Located(entries, w, {}) && i in entries
    requires pos < |w[ListOf(entries[i])]| && w[ListOf(entries[i])][pos] == i
    ensures var p := ListOf(entries[i]);
      Located(entries - {i}, w[p := w[p][..pos] + w[p][pos + 1..]], {})
  {
    var list := w[ListOf(entries[i])];
    var list' := list[..pos] + list[pos + 1..];
    assert Distinct(list);
    assert forall j :: j in list' <==> j in list && j != i;
    assert Distinct(list');
  }
}
