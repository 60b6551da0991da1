/**
 Copy-on-write refines eager copying. The reference machine has no frames, no counts and no
 faults: every private page has its own bytes from the moment its area exists, fork copies
 them all at once, and shared pages are one store that all their mappings read and write.
 */
module CopyOnWriteRefinement {
  import opened PageFrames
  import opened Paging
  import opened PagingInvariant

  datatype Eager = Eager(
    areas: map<Slot, Area>,
    own: map<Slot, seq<Byte>>,
    shared: map<BackingSlot, seq<Byte>>)

  datatype EagerStep =
    | Nothing
    | AddArea(slot: Slot, area: Area)
    | LoadFile(slot: Slot, bytes: seq<Byte>)
    | RemoveArea(slot: Slot)
    | CopySpace(parent: nat, child: nat)
    | Put(slot: Slot, at: nat, value: Byte)
    | ForgetShared(b: BackingSlot)

  const EagerBooted := Eager(map[], map[], map[])

  function SharedPage(e: Eager, b: BackingSlot): seq<Byte> {
    if b in e.shared then e.shared[b] else ZeroPage()
  }

  function PutAt(bytes: seq<Byte>, at: nat, value: Byte): seq<Byte> {
    if at < |bytes| then bytes[at := value] else bytes
  }

  function EagerApply(e: Eager, step: EagerStep): Eager {
    match step
    case Nothing => e
    case AddArea(slot, area) =>
      e.(areas := e.areas[slot := area],
         own := if area.kind.SharedAnon? || NeedsFile(area.kind) then e.own else e.own[slot := ZeroPage()])
    case LoadFile(slot, bytes) => e.(own := e.own[slot := bytes])
    case RemoveArea(slot) => e.(areas := e.areas - {slot}, own := e.own - {slot})
    case CopySpace(parent, child) =>
      e.(areas := Inherit(e.areas, parent, child), own := Inherit(e.own, parent, child))
    case Put(slot, at, value) =>
      if slot in e.areas && e.areas[slot].kind.SharedAnon? then
        var b := e.areas[slot].kind.backed;
        e.(shared := e.shared[b := PutAt(SharedPage(e, b), at, value)])
      else if slot in e.own then e.(own := e.own[slot := PutAt(e.own[slot], at, value)])
      else e
    case ForgetShared(b) => e.(shared := e.shared - {b})
  }

  /** What a program of the reference machine reads at a page. */
  function EagerRead(e: Eager, slot: Slot): seq<Byte> {
    if slot in e.areas && e.areas[slot].kind.SharedAnon? then SharedPage(e, e.areas[slot].kind.backed)
    else if slot in e.own then e.own[slot]
    else []
  }

  /** The reference machine's view of a step: faults, pins and frees are invisible. */
  ghost function Abstract(m: Machine, step: Step): EagerStep
    requires Enabled(m, step)
  {
    match step
    case DoMap(slot, area) => AddArea(slot, area)
    case DoFinishDeferred(h, tablesOk) =>
      var o := m.handles[h].owner;
      if AreaAllows(m, o.slot, o.access) && m.areas[o.slot] == o.area && o.slot !in m.ptes && tablesOk
      then LoadFile(o.slot, m.frames[m.handles[h].frame].bytes)
      else Nothing
    case DoUnmap(slot, h) => RemoveArea(slot)
    case DoFork(parent, child, top) => CopySpace(parent, child)
    case DoStore(slot, at, value) => Put(slot, at, value)
    case DoDropBacking(b) => ForgetShared(b)
    case _ => Nothing
  }

  // ----- The relation between the two machines -----

  predicate OwnVisible(m: Machine, s: Slot) {
    s in m.areas && IsPrivate(m, s) && (s in m.ptes || !NeedsFile(m.areas[s].kind))
  }

  /** The bytes of a private page: its frame's, or zeroes while it is not resident. */
  function PageBytes(m: Machine, s: Slot): seq<Byte> {
    if s in m.ptes && m.ptes[s].frame in m.frames then m.frames[m.ptes[s].frame].bytes else ZeroPage()
  }

  function BackingBytes(m: Machine, b: BackingSlot): seq<Byte> {
    if b in m.backing && m.backing[b] in m.frames then m.frames[m.backing[b]].bytes else ZeroPage()
  }

  predicate OwnAgrees(m: Machine, e: Eager, s: Slot) {
    && (s in e.own <==> OwnVisible(m, s))
    && (s in e.own ==> e.own[s] == PageBytes(m, s))
  }

  predicate SharedAgrees(m: Machine, e: Eager, b: BackingSlot) {
    SharedPage(e, b) == BackingBytes(m, b)
  }

  ghost predicate Refines(m: Machine, e: Eager) {
    && e.areas == m.areas
    && (forall s :: OwnAgrees(m, e, s))
    && (forall b :: SharedAgrees(m, e, b))
  }

  lemma StepSound(m: Machine, step: Step)
    requires Inv(m) && Enabled(m, step)
    ensures Sound(Apply(m, step))
  {
    StepKeeps(m, step);
    OwnedIsAllocated(Apply(m, step));
  }

  /** Nothing owns `f`. */
  ghost predicate Unowned(m: Machine, f: Frame) {
    (forall s :: s in m.ptes ==> m.ptes[s].frame != f) && (forall b :: b in m.backing ==> m.backing[b] != f)
  }

  lemma MapFreshInvisible(m: Machine, e: Eager, slot: Slot, f: Frame)
    requires Refines(m, e) && Unowned(m, f)
    requires slot in m.areas && IsPrivate(m, slot) && !NeedsFile(m.areas[slot].kind) && slot !in m.ptes
    ensures Refines(MapFresh(m, slot, f), e)
  {
    var m' := MapFresh(m, slot, f);
    forall s ensures OwnAgrees(m', e, s) { assert OwnAgrees(m, e, s); }
    forall b ensures SharedAgrees(m', e, b) { assert SharedAgrees(m, e, b); }
  }

  lemma MaterialiseInvisible(m: Machine, e: Eager, backed: BackingSlot, f: Frame)
    requires Refines(m, e) && (backed in m.backing || Unowned(m, f))
    ensures Refines(Materialise(m, backed, f), e)
  {
    var m' := Materialise(m, backed, f);
    forall s ensures OwnAgrees(m', e, s) { assert OwnAgrees(m, e, s); }
    forall b ensures SharedAgrees(m', e, b) { assert SharedAgrees(m, e, b); }
  }

  lemma MapSharedInvisible(m: Machine, e: Eager, slot: Slot, backed: BackingSlot)
    requires Refines(m, e) && slot in m.areas && !IsPrivate(m, slot)
    requires backed in m.backing && m.backing[backed] in m.frames
    ensures Refines(MapShared(m, slot, backed), e)
  {
    var m' := MapShared(m, slot, backed);
    forall s ensures OwnAgrees(m', e, s) { assert OwnAgrees(m, e, s); }
    forall b ensures SharedAgrees(m', e, b) { assert SharedAgrees(m, e, b); }
  }

  lemma DeferInvisible(m: Machine, e: Eager, f: Frame, handles: map<nat, Handle>)
    requires Refines(m, e) && Unowned(m, f)
    ensures Refines(m.(frames := AllocFrame(m.frames, f, ZeroPage()), handles := handles), e)
  {
    var m' := m.(frames := AllocFrame(m.frames, f, ZeroPage()), handles := handles);
    forall s ensures OwnAgrees(m', e, s) { assert OwnAgrees(m, e, s); }
    forall b ensures SharedAgrees(m', e, b) { assert SharedAgrees(m, e, b); }
  }

  lemma DemandFaultInvisible(m: Machine, e: Eager, step: Step)
    requires step.DoDemandFault? && Inv(m) && Enabled(m, step) && Refines(m, e)
    ensures Refines(Apply(m, step), e)
  {
    var DoDemandFault(slot, access, offer, tablesOk, h) := step;
    if offer.Some? { FreeIsUnowned(m, offer.value); }
    if AreaAllows(m, slot, access) {
      var area := m.areas[slot];
      if area.kind.SharedAnon? {
        var b, f := area.kind.backed, if offer.Some? then offer.value else 0;
        if b in m.backing || offer.Some? {
          MaterialiseInvisible(m, e, b, f);
          if slot !in m.ptes && tablesOk { MapSharedInvisible(Materialise(m, b, f), e, slot, b); }
        }
      } else if offer.Some? {
        if NeedsFile(area.kind) {
          DeferInvisible(m, e, offer.value, m.handles[h := Handle(offer.value, Deferred(slot, access, area))]);
        } else if slot !in m.ptes && tablesOk {
          MapFreshInvisible(m, e, slot, offer.value);
        }
      }
    }
  }

  lemma CopyOnWriteInvisible(m: Machine, e: Eager, slot: Slot, f: Frame)
    requires Refines(m, e) && slot in m.ptes && m.ptes[slot].frame in m.frames
    requires Unowned(m, f) && CountOf(m.frames, m.ptes[slot].frame) > 1
    ensures Refines(CopyOnWrite(m, slot, f), e)
  {
    var m' := CopyOnWrite(m, slot, f);
    forall s ensures OwnAgrees(m', e, s) { assert OwnAgrees(m, e, s); }
    forall b ensures SharedAgrees(m', e, b) { assert SharedAgrees(m, e, b); }
  }

  lemma ProtectionFaultInvisible(m: Machine, e: Eager, step: Step)
    requires step.DoProtectionFault? && Inv(m) && Enabled(m, step) && Refines(m, e)
    ensures Refines(Apply(m, step), e)
  {
    var DoProtectionFault(slot, access, offer) := step;
    var m', count := Apply(m, step), CountOf(m.frames, m.ptes[slot].frame);
    if access == Write && m.ptes[slot].perms.cow && count != 1 {
      if offer.Some? {
        FreeIsUnowned(m, offer.value);
        CopyOnWriteInvisible(m, e, slot, offer.value);
      }
    } else {
      forall s ensures OwnAgrees(m', e, s) { assert OwnAgrees(m, e, s); }
      forall b ensures SharedAgrees(m', e, b) { assert SharedAgrees(m, e, b); }
    }
  }

  lemma HandleStepsInvisible(m: Machine, e: Eager, step: Step)
    requires step.DoFillDeferred? || step.DoDropHandle? || step.DoPin?
    requires Inv(m) && Enabled(m, step) && Refines(m, e)
    ensures Refines(Apply(m, step), e)
  {
    var m' := Apply(m, step);
    StepSound(m, step);
    if step.DoFillDeferred? { ExclusiveHandle(m, step.h); }
    forall s ensures OwnAgrees(m', e, s) { assert OwnAgrees(m, e, s); }
    forall b ensures SharedAgrees(m', e, b) { assert SharedAgrees(m, e, b); }
  }

  lemma FinishDeferredRefines(m: Machine, e: Eager, step: Step)
    requires step.DoFinishDeferred? && Inv(m) && Enabled(m, step) && Refines(m, e)
    ensures Refines(Apply(m, step), EagerApply(e, Abstract(m, step)))
  {
    var m', e' := Apply(m, step), EagerApply(e, Abstract(m, step));
    StepSound(m, step);
    forall s ensures OwnAgrees(m', e', s) { assert OwnAgrees(m, e, s); }
    forall b ensures SharedAgrees(m', e', b) { assert SharedAgrees(m, e, b); }
  }

  lemma MapRefines(m: Machine, e: Eager, step: Step)
    requires step.DoMap? && Inv(m) && Enabled(m, step) && Refines(m, e)
    ensures Refines(Apply(m, step), EagerApply(e, Abstract(m, step)))
  {
    var m', e' := Apply(m, step), EagerApply(e, Abstract(m, step));
    forall s ensures OwnAgrees(m', e', s) { assert OwnAgrees(m, e, s); }
    forall b ensures SharedAgrees(m', e', b) { assert SharedAgrees(m, e, b); }
  }

  lemma UnmapRefines(m: Machine, e: Eager, step: Step)
    requires step.DoUnmap? && Inv(m) && Enabled(m, step) && Refines(m, e)
    ensures Refines(Apply(m, step), EagerApply(e, Abstract(m, step)))
  {
    var m', e' := Apply(m, step), EagerApply(e, Abstract(m, step));
    forall s ensures OwnAgrees(m', e', s) { assert OwnAgrees(m, e, s); }
    forall b ensures SharedAgrees(m', e', b) { assert SharedAgrees(m, e, b); }
  }

  /** A store reaches one private page, or one backing page, and no other. */
  lemma StoreRefines(m: Machine, e: Eager, step: Step)
    requires step.DoStore? && Inv(m) && Enabled(m, step) && Refines(m, e)
    ensures Refines(Apply(m, step), EagerApply(e, Abstract(m, step)))
  {
    var m', e' := Apply(m, step), EagerApply(e, Abstract(m, step));
    var slot := step.slot;
    assert EntryMatchesArea(m, slot);
    assert OwnAgrees(m, e, slot);
    if !IsPrivate(m, slot) { assert SharedAgrees(m, e, m.areas[slot].kind.backed); }
    forall s ensures OwnAgrees(m', e', s) {
      assert OwnAgrees(m, e, s);
      if s in m.ptes && !IsPrivate(m, slot) { assert IsPrivate(m, s) ==> m.ptes[s].frame != m.ptes[slot].frame; }
    }
    forall b ensures SharedAgrees(m', e', b) { assert SharedAgrees(m, e, b); }
  }

  lemma DropBackingRefines(m: Machine, e: Eager, step: Step)
    requires step.DoDropBacking? && Inv(m) && Enabled(m, step) && Refines(m, e)
    ensures Refines(Apply(m, step), EagerApply(e, Abstract(m, step)))
  {
    var m', e' := Apply(m, step), EagerApply(e, Abstract(m, step));
    StepSound(m, step);
    forall s ensures OwnAgrees(m', e', s) { assert OwnAgrees(m, e, s); }
    forall b ensures SharedAgrees(m', e', b) { assert SharedAgrees(m, e, b); }
  }

  lemma InheritAt<T>(held: map<Slot, T>, parent: nat, child: nat, top: nat, s: Slot)
    requires forall t :: t in held ==> t.space != child && (t.space == parent ==> t.page < top)
    ensures s in Inherit(held, parent, child) <==> Origin(s, parent, child, top) in held
    ensures s in Inherit(held, parent, child) ==>
              Inherit(held, parent, child)[s] == held[Origin(s, parent, child, top)]
  {
  }

  lemma ForkOwnAt(m: Machine, e: Eager, parent: nat, child: nat, top: nat, s: Slot)
    requires Sound(m) && Refines(m, e) && ForkEnabled(m, parent, child, top)
    ensures OwnAgrees(Fork(m, parent, child, top), EagerApply(e, CopySpace(parent, child)), s)
  {
    forall t | t in e.own ensures t in m.areas { assert OwnAgrees(m, e, t); }
    InheritAt(m.areas, parent, child, top, s);
    InheritAt(e.own, parent, child, top, s);
    ForkPagesAt(ForkAreas(m, parent, child), parent, child, top, s);
    assert OwnAgrees(m, e, Origin(s, parent, child, top));
  }

  lemma ForkRefines(m: Machine, e: Eager, parent: nat, child: nat, top: nat)
    requires Sound(m) && Refines(m, e) && ForkEnabled(m, parent, child, top)
    ensures Refines(Fork(m, parent, child, top), EagerApply(e, CopySpace(parent, child)))
  {
    var m', e' := Fork(m, parent, child, top), EagerApply(e, CopySpace(parent, child));
    ForkPagesAt(ForkAreas(m, parent, child), parent, child, top, Slot(parent, 0));
    forall s ensures OwnAgrees(m', e', s) { ForkOwnAt(m, e, parent, child, top, s); }
    forall b ensures SharedAgrees(m', e', b) { assert SharedAgrees(m, e, b); }
  }

  /** One step of the machine is one step, or none, of the reference machine. */
  lemma StepRefines(m: Machine, e: Eager, step: Step)
    requires Inv(m) && Enabled(m, step) && Refines(m, e)
    ensures Refines(Apply(m, step), EagerApply(e, Abstract(m, step)))
  {
    match step
    case DoMap(_, _) => MapRefines(m, e, step);
    case DoDemandFault(_, _, _, _, _) => DemandFaultInvisible(m, e, step);
    case DoFinishDeferred(_, _) => FinishDeferredRefines(m, e, step);
    case DoProtectionFault(_, _, _) => ProtectionFaultInvisible(m, e, step);
    case DoUnmap(_, _) => UnmapRefines(m, e, step);
    case DoFork(parent, child, top) => ForkRefines(m, e, parent, child, top);
    case DoStore(_, _, _) => StoreRefines(m, e, step);
    case DoDropBacking(_) => DropBackingRefines(m, e, step);
    case _ => HandleStepsInvisible(m, e, step);
  }

  /** The reference machine after the first `i` steps of a run. */
  ghost function EagerAt(states: seq<Machine>, steps: seq<Step>, i: nat): Eager
    requires IsRun(states, steps) && i < |states|
  {
    if i == 0 then EagerBooted
    else EagerApply(EagerAt(states, steps, i - 1), Abstract(states[i - 1], steps[i - 1]))
  }

  lemma {:induction false} RunRefines(states: seq<Machine>, steps: seq<Step>, i: nat)
    requires IsRun(states, steps) && i < |states|
    ensures Inv(states[i]) && Sound(states[i])
    ensures Refines(states[i], EagerAt(states, steps, i))
  {
    EveryRunConserves(states, steps, i);
    if i > 0 {
      RunRefines(states, steps, i - 1);
      StepRefines(states[i - 1], EagerAt(states, steps, i - 1), steps[i - 1]);
    }
  }

  /** Every resident page of every space reads as if fork had copied every page. */
  lemma ReadsAsIfCopied(states: seq<Machine>, steps: seq<Step>, i: nat, slot: Slot)
    requires IsRun(states, steps) && i < |states| && slot in states[i].ptes
    ensures states[i].ptes[slot].frame in states[i].frames
    ensures states[i].frames[states[i].ptes[slot].frame].bytes == EagerRead(EagerAt(states, steps, i), slot)
  {
    RunRefines(states, steps, i);
    var m, e := states[i], EagerAt(states, steps, i);
    assert EntryMatchesArea(m, slot);
    if IsPrivate(m, slot) {
      assert OwnAgrees(m, e, slot);
    } else {
      assert SharedAgrees(m, e, m.areas[slot].kind.backed);
    }
  }
}
