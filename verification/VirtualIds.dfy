/**
The virtual-ID table (src/virtual_id.cpp, src/virtual_id.h): the handles that MANA gives to the
application, the slots that they use, and the generations that tell a stale handle from a live one.
*/
module VirtualIds {
  import opened Common

  const KIND_SHIFT: nat := 0x1000_0000    // 1 << MANA_VIRT_ID_KIND_SHIFT
  const GEN_SHIFT: nat := 0x100_0000      // 1 << MANA_VIRT_ID_GEN_SHIFT
  const NUM_KINDS: nat := 6
  const NUM_SLOTS: nat := 0x100_0000      // MANA_VIRT_ID_SLOT_MASK + 1
  const NUM_GENS: nat := 16               // MANA_VIRT_ID_GEN_MASK + 1
  const CHUNK_SIZE: nat := 0x1000
  const TWO_32: nat := 0x1_0000_0000

  /** virt_id_entry; 'virt' is 0 in a free slot. */
  datatype Entry = Entry(virt: nat, realId: int, seqNum: nat, gen: nat, nextFree: int)

  /** What calloc() makes. */
  const FREE_ENTRY: Entry := Entry(0, 0, 0, 0, 0)

  predicate IsKind(kind: nat) { 1 <= kind <= NUM_KINDS }

  /** The layout of a handle. */
  function Handle(kind: nat, gen: nat, slot: nat): nat {
    kind * KIND_SHIFT + gen % NUM_GENS * GEN_SHIFT + slot
  }

  /** The parts of a handle can be read back from it. */
  lemma HandleParts(kind: nat, gen: nat, slot: nat)
    requires IsKind(kind) && slot < NUM_SLOTS
    ensures var h := Handle(kind, gen, slot);
            && h / KIND_SHIFT == kind && h / GEN_SHIFT % NUM_GENS == gen % NUM_GENS && h % NUM_SLOTS == slot
            && 0 < h < TWO_32
  {
  }

  /** reserve_constant_slot(): the slot whose handles could equal the constant 'upper'.  MPI_Comm
      has 64 bits if 'wide' (Open MPI), and otherwise 32 (MPICH). */
  function SlotOfConstant(wide: bool, upper: int): Option<nat> {
    var value := if wide then upper else upper % TWO_32;
    if !(0 <= value < TWO_32) || !IsKind(value / KIND_SHIFT) then None else Some(value % NUM_SLOTS)
  }

  /** The slot of a constant is the one whose handles could equal it, and there is none exactly if no
      handle could. */
  lemma SlotOfConstantIff(wide: bool, upper: int, slot: nat)
    requires slot < NUM_SLOTS
    ensures SlotOfConstant(wide, upper) == Some(slot) <==>
              exists kind: nat, gen: nat ::
                IsKind(kind) && Handle(kind, gen, slot) == if wide then upper else upper % TWO_32
  {
    var value := if wide then upper else upper % TWO_32;
    if SlotOfConstant(wide, upper) == Some(slot) {
      var kind, gen := value / KIND_SHIFT, value / GEN_SHIFT % NUM_GENS;
      assert Handle(kind, gen, slot) == value;
    }
    if kind: nat, gen: nat :| IsKind(kind) && Handle(kind, gen, slot) == value {
      HandleParts(kind, gen, slot);
    }
  }

  /** slot_is_reserved() */
  predicate IsReserved(reserved: seq<bool>, slot: nat) { slot < |reserved| && reserved[slot] }

  /** The slot that lookup_virt_id_entry() looks at for a handle. */
  function SlotOfHandle(wide: bool, id: int): Option<nat> {
    if wide && !(0 <= id < TWO_32) then None
    else
      var handle := id % TWO_32;
      if IsKind(handle / KIND_SHIFT) then Some(handle % NUM_SLOTS) else None
  }

  /** The list that starts at 'head' and goes on by next_free is 'list'. */
  predicate Chain(entries: seq<Entry>, head: int, list: seq<nat>)
    decreases |list|
  {
    if list == [] then head == -1
    else head == list[0] < |entries| && Chain(entries, entries[head].nextFree, list[1..])
  }

  lemma {:induction false} ChainFrame(entries: seq<Entry>, changed: seq<Entry>, head: int, list: seq<nat>)
    requires Chain(entries, head, list) && |entries| <= |changed|
    requires forall s: nat :: s in list && s < |entries| ==> changed[s] == entries[s]
    ensures Chain(changed, head, list)
    decreases |list|
  {
    if list != [] {
      ChainFrame(entries, changed, entries[head].nextFree, list[1..]);
    }
  }

  predicate Distinct(list: seq<nat>) { forall i, j :: 0 <= i < j < |list| ==> list[i] != list[j] }

  /** 'kinds' are the kinds of the handles that used a slot, in order: the n-th has generation n, and
      the last is in use if one is. */
  predicate HistoryOk(e: Entry, slot: nat, kinds: seq<nat>) {
    && (forall i :: 0 <= i < |kinds| ==> IsKind(kinds[i]))
    && e.gen % NUM_GENS == (if e.virt != 0 then |kinds| - 1 else |kinds|) % NUM_GENS
    && (e.virt != 0 ==> kinds != [] && e.virt == Handle(kinds[|kinds| - 1], |kinds| - 1, slot))
  }

  predicate HistoriesOk(entries: seq<Entry>, highWater: nat, history: seq<seq<nat>>)
    requires highWater <= |entries| == |history|
  {
    forall s :: 0 <= s < highWater ==> HistoryOk(entries[s], s, history[s])
  }

  /** 'list' is the free list: the free slots below the high-water mark that are not reserved (or
      just taken). */
  ghost predicate FreeListOk(entries: seq<Entry>, highWater: nat, reserved: seq<bool>, taken: set<nat>, head: int,
                             list: seq<nat>)
    requires highWater <= |entries|
  {
    && Chain(entries, head, list) && Distinct(list)
    && (forall s: nat ::
          s in list <==> s < highWater && entries[s].virt == 0 && !IsReserved(reserved, s) && s !in taken)
  }

  /** What a handle in use stands for, and its number in the order of creation. */
  datatype Use = Use(slot: nat, realId: int, seqNum: nat)

  /** 'view' is the handles in use. */
  predicate ViewOk(entries: seq<Entry>, view: map<nat, Use>) {
    && (forall h :: h in view ==> h != 0 && view[h].slot < |entries| && entries[view[h].slot].virt == h)
    && (forall s :: 0 <= s < |entries| && entries[s].virt != 0 ==>
          entries[s].virt in view && view[entries[s].virt] == Use(s, entries[s].realId, entries[s].seqNum))
  }

  /** No reserved slot was ever used, and none above the high-water mark. */
  predicate UnusedOk(entries: seq<Entry>, highWater: nat, reserved: seq<bool>, history: seq<seq<nat>>)
    requires |history| == |entries|
  {
    forall s :: 0 <= s < |entries| && (s >= highWater || IsReserved(reserved, s)) ==>
      entries[s].virt == 0 && entries[s].gen == 0 && history[s] == []
  }

  predicate ConstantsOk(wide: bool, constants: set<int>, reserved: seq<bool>) {
    forall c :: c in constants && SlotOfConstant(wide, c).Some? ==> IsReserved(reserved, SlotOfConstant(wide, c).value)
  }

  /** The entry of a handle's slot has the handle exactly if the handle is in use. */
  lemma LookupFinds(wide: bool, entries: seq<Entry>, view: map<nat, Use>, highWater: nat, history: seq<seq<nat>>,
                    id: int)
    requires ViewOk(entries, view) && highWater <= NUM_SLOTS && highWater <= |entries| == |history|
    requires HistoriesOk(entries, highWater, history)
    requires forall s :: highWater <= s < |entries| ==> entries[s].virt == 0
    ensures var s, h := SlotOfHandle(wide, id), id % TWO_32;
            && (s.Some? && s.value < |entries| && entries[s.value].virt == h <==> h in view && (wide ==> id == h))
            && (h in view && s.Some? ==> s.value == view[h].slot)
  {
    var h := id % TWO_32;
    if h in view {
      var slot := view[h].slot;
      assert HistoryOk(entries[slot], slot, history[slot]);
      HandleParts(history[slot][|history[slot]| - 1], |history[slot]| - 1, slot);
    }
  }

  /** The table's fields, with what the proof adds: the constants, the free list, the handles in
      use and the kinds of the handles that used each slot. */
  datatype State = State(
    wide: bool, entries: seq<Entry>, freeHead: int, highWater: nat, live: nat, reserved: seq<bool>,
    constants: set<int>, list: seq<nat>, view: map<nat, Use>, history: seq<seq<nat>>)

  /** All is as it should be, but for free slots that are not on the free list. */
  ghost predicate AllBut(t: State, taken: set<nat>) {
    && t.highWater <= NUM_SLOTS && t.highWater <= |t.entries| == |t.history|
    && FreeListOk(t.entries, t.highWater, t.reserved, taken, t.freeHead, t.list)
    && UnusedOk(t.entries, t.highWater, t.reserved, t.history)
    && HistoriesOk(t.entries, t.highWater, t.history)
    && ViewOk(t.entries, t.view) && t.live == |t.view|
    && ConstantsOk(t.wide, t.constants, t.reserved)
  }

  /** The invariant; alloc_slot() leaves one free slot that is not on the free list. */
  ghost predicate Inv(t: State, taken: Option<nat>) {
    match taken
    case None => AllBut(t, {})
    case Some(slot) =>
      AllBut(t, {slot}) && slot < t.highWater && !IsReserved(t.reserved, slot) && t.entries[slot].virt == 0
  }

  ghost predicate Ok(t: State) { Inv(t, None) }

  ghost predicate Taken(t: State, slot: nat) { Inv(t, Some(slot)) }

  /** The table with more free entries. */
  ghost function Extended(t: State, n: nat): State {
    t.(entries := t.entries + seq(n, _ => FREE_ENTRY), history := t.history + seq(n, _ => []))
  }

  lemma ExtendedOk(t: State, n: nat)
    requires Ok(t)
    ensures Ok(Extended(t, n))
  {
    var u := Extended(t, n);
    assert forall s :: 0 <= s < |t.entries| ==> u.entries[s] == t.entries[s] && u.history[s] == t.history[s];
    ChainFrame(t.entries, u.entries, t.freeHead, t.list);
  }

  /** The table with a constant's slot reserved. */
  ghost function Reserved(t: State, slot: Option<nat>, upper: int): State {
    t.(reserved := if slot.None? then t.reserved else Marked(t.reserved, slot.value),
    constants := t.constants + {upper})
  }

  function Marked(reserved: seq<bool>, slot: nat): (r: seq<bool>)
    ensures forall s: nat :: IsReserved(r, s) <==> IsReserved(reserved, s) || s == slot
  {
    var longer := if slot < |reserved| then reserved else reserved + seq(slot + 1 - |reserved|, _ => false);
    longer[slot := true]
  }

  lemma ReservedOk(t: State, upper: int)
    requires Ok(t) && (t.highWater == 0 || upper in t.constants)
    ensures Ok(Reserved(t, SlotOfConstant(t.wide, upper), upper))
  {
    var u := Reserved(t, SlotOfConstant(t.wide, upper), upper);
    assert forall s: nat :: s < t.highWater ==> (IsReserved(u.reserved, s) <==> IsReserved(t.reserved, s));
  }

  lemma PopList(entries: seq<Entry>, highWater: nat, reserved: seq<bool>, head: int, list: seq<nat>)
    requires highWater <= |entries| && FreeListOk(entries, highWater, reserved, {}, head, list) && head >= 0
    ensures list != [] && head == list[0] < highWater && !IsReserved(reserved, head) && entries[head].virt == 0
    ensures FreeListOk(entries, highWater, reserved, {head}, entries[head].nextFree, list[1..])
  {
    var rest := list[1..];
    assert list == [head] + rest;
    assert list[0] in list;
  }

  lemma PoppedOk(t: State)
    requires Ok(t) && t.freeHead >= 0
    ensures t.list != [] && t.freeHead == t.list[0] < |t.entries|
    ensures Taken(t.(freeHead := t.entries[t.freeHead].nextFree, list := t.list[1..]), t.freeHead)
  {
    PopList(t.entries, t.highWater, t.reserved, t.freeHead, t.list);
  }

  lemma RaisedOk(t: State, slot: nat)
    requires Ok(t) && t.freeHead < 0 && t.highWater <= slot < |t.entries| && slot < NUM_SLOTS
    requires forall s :: t.highWater <= s < slot ==> IsReserved(t.reserved, s)
    requires !IsReserved(t.reserved, slot)
    ensures Taken(t.(highWater := slot + 1), slot)
  {
    var u := t.(highWater := slot + 1);
    assert t.list == [];
    forall s: nat
      ensures s in u.list <==> s < slot + 1 && u.entries[s].virt == 0 && !IsReserved(u.reserved, s) && s !in {slot}
    {
    }
  }

  /** No slot is left: none is free, and all that were never used are reserved. */
  ghost predicate Full(t: State) {
    t.list == [] && forall s :: t.highWater <= s < NUM_SLOTS ==> IsReserved(t.reserved, s)
  }

  function AddedEntry(e: Entry, h: nat, realId: int, seqNum: nat): Entry {
    e.(virt := h, realId := realId, seqNum := seqNum)
  }

  /** The table after add_virt_id() with a slot that alloc_slot() took. */
  ghost function Added(t: State, slot: nat, kind: nat, realId: int, seqNum: nat): State
    requires slot < |t.entries| == |t.history|
  {
    var e := t.entries[slot];
    var h := Handle(kind, e.gen, slot);
    t.(entries := t.entries[slot := AddedEntry(e, h, realId, seqNum)],
       history := t.history[slot := t.history[slot] + [kind]], view := t.view[h := Use(slot, realId, seqNum)],
       live := t.live + 1)
  }

  /** The kinds of the handles that used a slot, [] for a slot that has no entry yet. */
  ghost function Past(history: seq<seq<nat>>, s: nat): seq<nat> {
    if s < |history| then history[s] else []
  }

  ghost predicate SameHistory(was: seq<seq<nat>>, history: seq<seq<nat>>) {
    forall s: nat :: Past(history, s) == Past(was, s)
  }

  /** One more handle used one slot. */
  ghost predicate OneMore(was: seq<seq<nat>>, history: seq<seq<nat>>, slot: nat, kind: nat) {
    && Past(history, slot) == Past(was, slot) + [kind]
    && forall s: nat :: s != slot ==> Past(history, s) == Past(was, s)
  }

  /** The handles in use, with one more. */
  ghost predicate IsNew(was: map<nat, Use>, view: map<nat, Use>, h: nat, kind: nat, realId: int) {
    && h !in was && h in view && view[h].realId == realId && h / KIND_SHIFT == kind
    && view == was[h := view[h]]
  }

  lemma AddedOk(t: State, slot: nat, kind: nat, realId: int, seqNum: nat)
    requires Taken(t, slot) && IsKind(kind)
    ensures Ok(Added(t, slot, kind, realId, seqNum))
    ensures IsNew(t.view, Added(t, slot, kind, realId, seqNum).view, Handle(kind, t.entries[slot].gen, slot), kind,
                  realId)
  {
    var u, h := Added(t, slot, kind, realId, seqNum), Handle(kind, t.entries[slot].gen, slot);
    HandleParts(kind, t.entries[slot].gen, slot);
    ChainFrame(t.entries, u.entries, t.freeHead, t.list);
    AddedHistory(t, slot, kind, realId, seqNum);
    HandleIsNew(t, slot, h);
    AddedView(t.entries, u.entries, t.view, slot, h, Use(slot, realId, seqNum));
  }

  lemma AddedPast(t: State, slot: nat, kind: nat, realId: int, seqNum: nat)
    requires slot < |t.entries| == |t.history|
    ensures OneMore(t.history, Added(t, slot, kind, realId, seqNum).history, slot, kind)
    ensures var h := Handle(kind, t.entries[slot].gen, slot);
            h in Added(t, slot, kind, realId, seqNum).view &&
            Added(t, slot, kind, realId, seqNum).view[h] == Use(slot, realId, seqNum)
  {
  }

  lemma AddedAll(t: State, u: State, slot: nat, kind: nat, realId: int, seqNum: nat, h: nat)
    requires Taken(t, slot) && IsKind(kind)
    requires u == Added(t, slot, kind, realId, seqNum) && h == Handle(kind, t.entries[slot].gen, slot)
    ensures Ok(u) && IsNew(t.view, u.view, h, kind, realId) && u.view[h] == Use(slot, realId, seqNum)
    ensures OneMore(t.history, u.history, slot, kind)
  {
    AddedOk(t, slot, kind, realId, seqNum);
    AddedPast(t, slot, kind, realId, seqNum);
  }

  /** A handle in use is in its slot, which was used. */
  lemma InView(t: State, h: nat)
    requires t.highWater <= NUM_SLOTS && t.highWater <= |t.entries| == |t.history| && h in t.view
    requires HistoriesOk(t.entries, t.highWater, t.history) && ViewOk(t.entries, t.view)
    requires UnusedOk(t.entries, t.highWater, t.reserved, t.history)
    ensures var s := t.view[h].slot;
            && s == h % NUM_SLOTS && s < t.highWater && t.entries[s].virt == h && IsKind(h / KIND_SHIFT)
            && !IsReserved(t.reserved, s)
  {
    var s := t.view[h].slot;
    var kinds := t.history[s];
    assert HistoryOk(t.entries[s], s, kinds);
    HandleParts(kinds[|kinds| - 1], |kinds| - 1, s);
  }

  /** A handle of a free slot is not in use. */
  lemma HandleIsNew(t: State, slot: nat, h: nat)
    requires Taken(t, slot) && h % NUM_SLOTS == slot
    ensures h !in t.view
  {
    if h in t.view {
      InView(t, h);
    }
  }

  lemma AddedHistory(t: State, slot: nat, kind: nat, realId: int, seqNum: nat)
    requires Taken(t, slot) && IsKind(kind)
    ensures var u := Added(t, slot, kind, realId, seqNum); HistoriesOk(u.entries, u.highWater, u.history)
  {
    var u := Added(t, slot, kind, realId, seqNum);
    HandleParts(kind, t.entries[slot].gen, slot);
    assert HistoryOk(t.entries[slot], slot, t.history[slot]);
    assert HistoryOk(u.entries[slot], slot, u.history[slot]);
  }

  lemma AddedView(entries: seq<Entry>, added: seq<Entry>, view: map<nat, Use>, slot: nat, h: nat, use: Use)
    requires ViewOk(entries, view) && slot < |entries| == |added| && entries[slot].virt == 0
    requires forall s :: 0 <= s < |entries| && s != slot ==> added[s] == entries[s]
    requires h != 0 && h !in view && added[slot].virt == h
    requires use == Use(slot, added[slot].realId, added[slot].seqNum)
    ensures ViewOk(added, view[h := use])
  {
  }

  function FreedEntry(e: Entry, freeHead: int): Entry {
    e.(virt := 0, gen := (e.gen + 1) % TWO_32, nextFree := freeHead)
  }

  /** The table after free_virt_id(). */
  ghost function Freed(t: State, h: nat): State
    requires h in t.view && t.view[h].slot < |t.entries| && t.live > 0
  {
    var slot := t.view[h].slot;
    var e := t.entries[slot];
    t.(entries := t.entries[slot := FreedEntry(e, t.freeHead)],
    freeHead := slot, list := [slot] + t.list, view := t.view - {h}, live := t.live - 1)
  }

  lemma FreedList(t: State, h: nat)
    requires Ok(t) && h in t.view
    ensures t.live > 0 && t.view[h].slot < t.highWater && !IsReserved(t.reserved, t.view[h].slot)
    ensures var u := Freed(t, h); FreeListOk(u.entries, u.highWater, u.reserved, {}, u.freeHead, u.list)
  {
    var u, slot := Freed(t, h), t.view[h].slot;
    assert slot !in t.list;
    ChainFrame(t.entries, u.entries, t.freeHead, t.list);
    assert u.list[1..] == t.list;
  }

  /** An unsigned int that wraps around keeps its low bits. */
  lemma NextGen(gen: nat, n: nat)
    requires gen % NUM_GENS == n % NUM_GENS
    ensures (gen + 1) % TWO_32 % NUM_GENS == (n + 1) % NUM_GENS
  {
  }

  lemma FreedHistory(t: State, h: nat)
    requires Ok(t) && h in t.view && t.view[h].slot < t.highWater && t.live > 0
    ensures var u := Freed(t, h);
            HistoriesOk(u.entries, u.highWater, u.history) && UnusedOk(u.entries, u.highWater, u.reserved, u.history)
  {
    var u, slot := Freed(t, h), t.view[h].slot;
    assert HistoryOk(t.entries[slot], slot, t.history[slot]);
    NextGen(t.entries[slot].gen, |t.history[slot]| - 1);
    assert HistoryOk(u.entries[slot], slot, u.history[slot]);
  }

  lemma ViewWithout(entries: seq<Entry>, view: map<nat, Use>, h: nat, e: Entry)
    requires ViewOk(entries, view) && h in view && e.virt == 0
    ensures ViewOk(entries[view[h].slot := e], view - {h}) && |view - {h}| == |view| - 1
  {
    assert view == (view - {h})[h := view[h]];
  }

  lemma FreedView(t: State, h: nat)
    requires Ok(t) && h in t.view && t.view[h].slot < t.highWater && t.live > 0
    ensures var u := Freed(t, h); ViewOk(u.entries, u.view) && u.live == |u.view|
  {
    ViewWithout(t.entries, t.view, h, FreedEntry(t.entries[t.view[h].slot], t.freeHead));
  }

  lemma FreedOk(t: State, h: nat)
    requires Ok(t) && h in t.view
    ensures t.view[h].slot < |t.entries| && t.live > 0 && Ok(Freed(t, h))
  {
    FreedList(t, h);
    FreedHistory(t, h);
    FreedView(t, h);
  }

  /** The table after update_virt_id(), which restart calls with the new real handle. */
  ghost function Updated(t: State, h: nat, realId: int): State
    requires h in t.view && t.view[h].slot < |t.entries|
  {
    var slot := t.view[h].slot;
    t.(entries := t.entries[slot := t.entries[slot].(realId := realId)],
       view := t.view[h := t.view[h].(realId := realId)])
  }

  lemma UpdatedList(t: State, h: nat, realId: int)
    requires Ok(t) && h in t.view
    ensures t.view[h].slot < |t.entries|
    ensures var u := Updated(t, h, realId); FreeListOk(u.entries, u.highWater, u.reserved, {}, u.freeHead, u.list)
  {
    var u := Updated(t, h, realId);
    ChainFrame(t.entries, u.entries, t.freeHead, t.list);
  }

  lemma UpdatedHistory(t: State, h: nat, realId: int)
    requires Ok(t) && h in t.view && t.view[h].slot < |t.entries|
    ensures var u := Updated(t, h, realId);
            HistoriesOk(u.entries, u.highWater, u.history) && UnusedOk(u.entries, u.highWater, u.reserved, u.history)
  {
    var u := Updated(t, h, realId);
    forall s | 0 <= s < u.highWater ensures HistoryOk(u.entries[s], s, u.history[s]) {
      assert HistoryOk(t.entries[s], s, t.history[s]);
    }
  }

  lemma UpdatedView(t: State, h: nat, realId: int)
    requires Ok(t) && h in t.view && t.view[h].slot < |t.entries|
    ensures var u := Updated(t, h, realId); ViewOk(u.entries, u.view) && u.live == |u.view|
  {
    assert Updated(t, h, realId).view.Keys == t.view.Keys;
    SameSize(t.view, Updated(t, h, realId).view);
  }

  lemma SameSize(view: map<nat, Use>, other: map<nat, Use>)
    requires view.Keys == other.Keys
    ensures |view| == |other|
  {
    assert |view| == |view.Keys| && |other| == |other.Keys|;
  }

  lemma UpdatedOk(t: State, h: nat, realId: int)
    requires Ok(t) && h in t.view
    ensures t.view[h].slot < |t.entries| && Ok(Updated(t, h, realId))
  {
    UpdatedList(t, h, realId);
    UpdatedHistory(t, h, realId);
    UpdatedView(t, h, realId);
  }

  // ---- What holds of every table that the operations make ----

  /** No predefined constant is a handle in use: lookup_virt_id_entry() finds no entry for it. */
  lemma ConstantIsNeverAHandle(t: State, c: int)
    requires Ok(t) && c in t.constants
    ensures !(c % TWO_32 in t.view && (t.wide ==> c == c % TWO_32))
  {
    if c % TWO_32 in t.view {
      InView(t, c % TWO_32);
    }
  }

  /** The i-th handle that used a slot is in use exactly if the slot is, by a handle of the same kind,
      a multiple of 16 uses later. */
  lemma HandleInUse(t: State, slot: nat, i: nat)
    requires Ok(t) && slot < t.highWater && i < |t.history[slot]|
    ensures var kinds := t.history[slot];
            var n := |kinds| - 1;
            Handle(kinds[i], i, slot) in t.view <==>
              t.entries[slot].virt != 0 && kinds[i] == kinds[n] && (n - i) % NUM_GENS == 0
  {
    var kinds := t.history[slot];
    var h := Handle(kinds[i], i, slot);
    assert HistoryOk(t.entries[slot], slot, kinds);
    HandleParts(kinds[i], i, slot);
    if h in t.view {
      InView(t, h);
    }
    SameHandle(kinds[i], i, kinds[|kinds| - 1], |kinds| - 1, slot);
  }

  lemma SameHandle(kind: nat, i: nat, other: nat, n: nat, slot: nat)
    requires IsKind(kind) && IsKind(other) && slot < NUM_SLOTS && i <= n
    ensures Handle(kind, i, slot) == Handle(other, n, slot) <==> kind == other && (n - i) % NUM_GENS == 0
  {
    HandleParts(kind, i, slot);
    HandleParts(other, n, slot);
    SameGen(i, n);
  }

  lemma SameGen(i: nat, n: nat)
    requires i <= n
    ensures i % NUM_GENS == n % NUM_GENS <==> (n - i) % NUM_GENS == 0
  {
  }

  /** A freed handle is rejected for the next 15 uses of its slot. */
  lemma StaleHandleIsRejected(t: State, slot: nat, i: nat)
    requires Ok(t) && slot < t.highWater && i < |t.history[slot]|
    requires |t.history[slot]| - 1 - i <= 15
    requires t.entries[slot].virt != 0 ==> i < |t.history[slot]| - 1
    ensures Handle(t.history[slot][i], i, slot) !in t.view
  {
    HandleInUse(t, slot, i);
    FewUses(|t.history[slot]| - 1 - i);
  }

  lemma FewUses(d: nat)
    requires d <= 15
    ensures d % NUM_GENS == d
  {
  }

  /** make_gid(): the gids_made-th gid of a process. */
  function Gid(made: nat, size: nat, rank: nat): nat { made * size + rank }

  /** No two gids in the job are equal. */
  lemma GidsDiffer(made: nat, rank: nat, otherMade: nat, otherRank: nat, size: nat)
    requires rank < size && otherRank < size
    requires Gid(made, size, rank) == Gid(otherMade, size, otherRank)
    ensures made == otherMade && rank == otherRank
  {
    if made < otherMade {
      MulLess(made, otherMade, size);
    } else if otherMade < made {
      MulLess(otherMade, made, size);
    }
  }

  class Table {
    const wide: bool
    var entries: seq<Entry>          // virt_id_chunks
    var freeHead: int                // virt_id_free_head
    var highWater: nat               // virt_id_high_water
    var nextSeq: nat                 // virt_id_next_seq
    var live: nat                    // virt_id_live
    var reserved: seq<bool>          // reserved_slots
    ghost var constants: set<int>
    ghost var list: seq<nat>
    ghost var view: map<nat, Use>
    ghost var history: seq<seq<nat>>

    ghost function Now(): State
      reads this
    {
      State(wide, entries, freeHead, highWater, live, reserved, constants, list, view, history)
    }

    constructor (wide: bool)
      ensures Ok(Now()) && view == map[] && this.wide == wide && constants == {} && highWater == 0
    {
      this.wide := wide;
      entries, freeHead, highWater, nextSeq, live, reserved := [], -1, 0, 0, 0, [];
      constants, list, view, history := {}, [], map[], [];
    }

    /** reserve_constant_slot(): before the first handle, or again at restart. */
    method Reserve(upper: int)
      requires Ok(Now())
      requires highWater == 0 || upper in constants
      modifies this`reserved, this`constants
      ensures Ok(Now()) && constants == old(constants) + {upper}
      ensures forall s: nat :: IsReserved(reserved, s) <==>
                IsReserved(old(reserved), s) || SlotOfConstant(wide, upper) == Some(s)
    {
      ReservedOk(Now(), upper);
      var slot := SlotOfConstant(wide, upper);
      if slot.Some? {
        reserved := Marked(reserved, slot.value);
      }
      constants := constants + {upper};
      assert Now() == Reserved(old(Now()), slot, upper);
    }

    /** lookup_virt_id_entry(): finds the slots of the handles in use, and nothing else. */
    method Lookup(id: int) returns (slot: Option<nat>)
      requires Ok(Now())
      ensures var h := id % TWO_32;
              slot.Some? <==> h in view && (wide ==> id == h)
      ensures slot.Some? ==> slot.value == view[id % TWO_32].slot
    {
      LookupFinds(wide, entries, view, highWater, history, id);
      var s := SlotOfHandle(wide, id);
      if s.None? || s.value >= |entries| || entries[s.value].virt != id % TWO_32 {
        return None;
      }
      return s;
    }

    /** Adds chunks of free entries up to a slot. */
    method Grow(slot: nat)
      requires Ok(Now())
      modifies this`entries, this`history
      ensures Ok(Now()) && slot < |entries| && SameHistory(old(history), history)
    {
      while |entries| <= slot
        invariant Ok(Now()) && SameHistory(old(history), history)
        decreases slot - |entries|
      {
        ghost var t := Now();
        ExtendedOk(t, CHUNK_SIZE);
        entries := entries + seq(CHUNK_SIZE, _ => FREE_ENTRY);
        history := history + seq(CHUNK_SIZE, _ => []);
        assert Now() == Extended(t, CHUNK_SIZE);
      }
    }

    /** The first slot from the high-water mark on that is not reserved. */
    method FirstUnreserved() returns (s: nat)
      ensures highWater <= s && !IsReserved(reserved, s)
      ensures forall r :: highWater <= r < s ==> IsReserved(reserved, r)
    {
      s := highWater;
      while IsReserved(reserved, s)
        invariant highWater <= s && forall r :: highWater <= r < s ==> IsReserved(reserved, r)
        decreases |reserved| - s
      {
        s := s + 1;
      }
    }

    /** A slot that was never used. */
    method NewSlot() returns (slot: Option<nat>)
      requires Ok(Now()) && freeHead < 0
      modifies this`entries, this`history, this`highWater
      ensures slot.None? ==> Now() == old(Now())
      ensures slot.None? <==> forall s :: old(highWater) <= s < NUM_SLOTS ==> IsReserved(old(reserved), s)
      ensures SameHistory(old(history), history)
      ensures slot.Some? ==> Taken(Now(), slot.value)
    {
      var s := FirstUnreserved();
      if s >= NUM_SLOTS {
        return None;
      }
      Grow(s);
      RaisedOk(Now(), s);
      highWater := s + 1;
      return Some(s);
    }

    /** alloc_slot(): fails if the free list is empty and every slot above is reserved. */
    method AllocSlot() returns (slot: Option<nat>)
      requires Ok(Now())
      modifies this`entries, this`history, this`freeHead, this`highWater, this`list
      ensures slot.None? ==> Now() == old(Now())
      ensures slot.None? <==> old(Full(Now()))
      ensures SameHistory(old(history), history)
      ensures slot.Some? ==> Taken(Now(), slot.value)
    {
      if freeHead < 0 {
        assert list == [];
        slot := NewSlot();
      } else {
        PoppedOk(Now());
        slot := Some(freeHead);
        list := list[1..];
        freeHead := entries[freeHead].nextFree;
      }
    }

    /** Fills in the entry of a slot. */
    method Publish(slot: nat, realId: int, kind: nat) returns (h: nat)
      requires slot < |entries| == |history|
      modifies this`nextSeq, this`entries, this`live, this`history, this`view
      ensures h == Handle(kind, old(entries[slot].gen), slot)
      ensures nextSeq == old(nextSeq) + 1 && Now() == Added(old(Now()), slot, kind, realId, nextSeq)
    {
      h := Handle(kind, entries[slot].gen, slot);
      nextSeq := nextSeq + 1;
      entries := entries[slot := AddedEntry(entries[slot], h, realId, nextSeq)];
      live := live + 1;
      history := history[slot := history[slot] + [kind]];
      view := view[h := Use(slot, realId, nextSeq)];
    }

    method AddAt(slot: nat, realId: int, kind: nat) returns (h: nat)
      requires Taken(Now(), slot) && IsKind(kind)
      modifies this`nextSeq, this`entries, this`live, this`history, this`view
      ensures Ok(Now()) && nextSeq == old(nextSeq) + 1
      ensures IsNew(old(view), view, h, kind, realId) && view[h].slot == slot && view[h].seqNum == nextSeq
      ensures OneMore(old(history), history, slot, kind)
    {
      h := Publish(slot, realId, kind);
      AddedAll(old(Now()), Now(), slot, kind, realId, nextSeq, h);
    }

    /** add_virt_id(): a new handle, which differs from every handle in use. */
    method Add(realId: int, kind: nat) returns (handle: Option<nat>)
      requires Ok(Now()) && IsKind(kind)
      modifies this
      ensures Ok(Now()) && reserved == old(reserved) && constants == old(constants)
      ensures handle.None? <==> old(Full(Now()))
      ensures handle.None? ==> Now() == old(Now())
      ensures handle.Some? ==>
                && IsNew(old(view), view, handle.value, kind, realId)
                && view[handle.value].seqNum == nextSeq == old(nextSeq) + 1
                && OneMore(old(history), history, view[handle.value].slot, kind)
    {
      var slot := AllocSlot();
      if slot.None? {
        return None;
      }
      var h := AddAt(slot.value, realId, kind);
      return Some(h);
    }

    /** Empties the entry of a slot and puts it on the free list. */
    method Release(slot: nat, ghost h: nat)
      requires slot < |entries| && h in view && view[h].slot == slot && live > 0
      modifies this
      ensures Now() == Freed(old(Now()), h)
    {
      entries := entries[slot := FreedEntry(entries[slot], freeHead)];
      freeHead := slot;
      live := live - 1;
      list, view := [slot] + list, view - {h};
    }

    /** free_virt_id(): the handle is no longer in use; its slot goes to the free list with the next
        generation.  Fails (and aborts) for anything but a handle in use. */
    method Free(id: int) returns (done: bool)
      requires Ok(Now())
      modifies this
      ensures Ok(Now()) && reserved == old(reserved) && constants == old(constants) && history == old(history)
      ensures done <==> id % TWO_32 in old(view) && (wide ==> id == id % TWO_32)
      ensures view == if done then old(view) - {id % TWO_32} else old(view)
    {
      var slot := Lookup(id);
      if slot.None? {
        return false;
      }
      FreedOk(Now(), id % TWO_32);
      Release(slot.value, id % TWO_32);
      return true;
    }

    /** update_virt_id(): the handle stands for another real handle. */
    method Update(id: int, realId: int) returns (done: bool)
      requires Ok(Now())
      modifies this`entries, this`view
      ensures Ok(Now())
      ensures done <==> id % TWO_32 in old(view) && (wide ==> id == id % TWO_32)
      ensures done ==> view == old(view)[id % TWO_32 := old(view)[id % TWO_32].(realId := realId)]
      ensures !done ==> view == old(view)
    {
      var slot := Lookup(id);
      if slot.None? {
        return false;
      }
      UpdatedOk(Now(), id % TWO_32, realId);
      ghost var u := Updated(Now(), id % TWO_32, realId);
      entries := entries[slot.value := entries[slot.value].(realId := realId)];
      view := u.view;
      assert Now() == u;
      return true;
    }
  }
}
