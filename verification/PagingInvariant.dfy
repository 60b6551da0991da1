/**
 What every step of the paging machine keeps. The centre is reference conservation: the count
 of a frame is the number of page-table entries, backing entries and handles that own it.
 */
module PagingInvariant {
  import opened PageFrames
  import opened Paging

  ghost function PteFrames(ptes: map<Slot, Pte>): map<Slot, Frame> {
    map s | s in ptes :: ptes[s].frame
  }

  ghost function HandleFrames(handles: map<nat, Handle>): map<nat, Frame> {
    map h | h in handles :: handles[h].frame
  }

  /** The owners of a frame, counted over all address spaces, backings and handles. */
  ghost function Owners(m: Machine, f: Frame): nat {
    Refs(PteFrames(m.ptes), f) + Refs(m.backing, f) + Refs(HandleFrames(m.handles), f)
  }

  ghost predicate Balanced(m: Machine, f: Frame) {
    CountOf(m.frames, f) == Owners(m, f)
  }

  ghost predicate Conserved(m: Machine) {
    && (forall f :: Balanced(m, f))
    && (forall f :: f in m.frames ==> m.frames[f].count > 0)
  }

  predicate IsPrivate(m: Machine, s: Slot)
    requires s in m.areas
  {
    !m.areas[s].kind.SharedAnon?
  }

  /** An entry carries its area's permissions, or their copy-on-write form. */
  ghost predicate EntryMatchesArea(m: Machine, s: Slot)
    requires s in m.ptes && s in m.areas
  {
    if IsPrivate(m, s) then
      m.ptes[s].perms == FromArea(m.areas[s].perms) || m.ptes[s].perms == ForkPermissions(m.areas[s])
    else
      && m.ptes[s].perms == FromArea(m.areas[s].perms)
      && m.areas[s].kind.backed in m.backing
      && m.backing[m.areas[s].kind.backed] == m.ptes[s].frame
  }

  ghost predicate EntriesMatch(m: Machine) {
    forall s :: s in m.ptes ==> s in m.areas && EntryMatchesArea(m, s)
  }

  /** A writable private entry is the only entry for its frame. */
  ghost predicate WritableIsSole(m: Machine) {
    forall s, t :: s in m.ptes && t in m.ptes && s != t && s in m.areas && IsPrivate(m, s) && m.ptes[s].perms.write
                   ==> m.ptes[t].frame != m.ptes[s].frame
  }

  /** Private entries and backings never share a frame. */
  ghost predicate PrivateApart(m: Machine) {
    forall s, b :: s in m.ptes && s in m.areas && IsPrivate(m, s) && b in m.backing
                   ==> m.ptes[s].frame != m.backing[b]
  }

  /** Distinct backing pages have distinct frames. */
  ghost predicate BackingApart(m: Machine) {
    forall b, c :: b in m.backing && c in m.backing && b != c ==> m.backing[b] != m.backing[c]
  }

  /** A page that waits for file data belongs to its fault alone. */
  ghost predicate DeferredAlone(m: Machine) {
    forall h :: h in m.handles && m.handles[h].owner.Deferred?
                ==> CountOf(m.frames, m.handles[h].frame) == 1 && !m.handles[h].owner.area.kind.SharedAnon?
  }

  ghost predicate Inv(m: Machine) {
    && Conserved(m)
    && EntriesMatch(m)
    && WritableIsSole(m)
    && PrivateApart(m)
    && BackingApart(m)
    && DeferredAlone(m)
  }

  // ----- Consequences of conservation -----

  lemma OwnedIsAllocated(m: Machine)
    requires Conserved(m)
    ensures forall s :: s in m.ptes ==> m.ptes[s].frame in m.frames
    ensures forall b :: b in m.backing ==> m.backing[b] in m.frames
    ensures forall h :: h in m.handles ==> m.handles[h].frame in m.frames
  {
    forall s | s in m.ptes ensures m.ptes[s].frame in m.frames {
      RefsPositive(PteFrames(m.ptes), s);
      assert Balanced(m, m.ptes[s].frame);
    }
    forall b | b in m.backing ensures m.backing[b] in m.frames {
      RefsPositive(m.backing, b);
      assert Balanced(m, m.backing[b]);
    }
    forall h | h in m.handles ensures m.handles[h].frame in m.frames {
      RefsPositive(HandleFrames(m.handles), h);
      assert Balanced(m, m.handles[h].frame);
    }
  }

  lemma FreeIsUnowned(m: Machine, f: Frame)
    requires Conserved(m) && f !in m.frames
    ensures forall s :: s in m.ptes ==> m.ptes[s].frame != f
    ensures forall b :: b in m.backing ==> m.backing[b] != f
    ensures forall h :: h in m.handles ==> m.handles[h].frame != f
  {
    OwnedIsAllocated(m);
  }

  /** With a count of one, the entry at `s` is the frame's only owner. */
  lemma ExclusiveEntry(m: Machine, s: Slot)
    requires Conserved(m) && s in m.ptes && CountOf(m.frames, m.ptes[s].frame) == 1
    ensures forall t :: t in m.ptes && t != s ==> m.ptes[t].frame != m.ptes[s].frame
    ensures forall b :: b in m.backing ==> m.backing[b] != m.ptes[s].frame
    ensures forall h :: h in m.handles ==> m.handles[h].frame != m.ptes[s].frame
  {
    var f := m.ptes[s].frame;
    assert Balanced(m, f);
    RefsPositive(PteFrames(m.ptes), s);
    forall t | t in m.ptes && t != s ensures m.ptes[t].frame != f {
      if m.ptes[t].frame == f { RefsUnique(PteFrames(m.ptes), s, t); }
    }
    forall b | b in m.backing ensures m.backing[b] != f {
      if m.backing[b] == f { RefsPositive(m.backing, b); }
    }
    forall h | h in m.handles ensures m.handles[h].frame != f {
      if m.handles[h].frame == f { RefsPositive(HandleFrames(m.handles), h); }
    }
  }

  lemma ExclusiveHandle(m: Machine, h: nat)
    requires Conserved(m) && h in m.handles && CountOf(m.frames, m.handles[h].frame) == 1
    ensures forall s :: s in m.ptes ==> m.ptes[s].frame != m.handles[h].frame
    ensures forall b :: b in m.backing ==> m.backing[b] != m.handles[h].frame
    ensures forall g :: g in m.handles && g != h ==> m.handles[g].frame != m.handles[h].frame
  {
    var f := m.handles[h].frame;
    assert Balanced(m, f);
    RefsPositive(HandleFrames(m.handles), h);
    forall s | s in m.ptes ensures m.ptes[s].frame != f {
      if m.ptes[s].frame == f { RefsPositive(PteFrames(m.ptes), s); }
    }
    forall b | b in m.backing ensures m.backing[b] != f {
      if m.backing[b] == f { RefsPositive(m.backing, b); }
    }
    forall g | g in m.handles && g != h ensures m.handles[g].frame != f {
      if m.handles[g].frame == f { RefsUnique(HandleFrames(m.handles), h, g); }
    }
  }

  // ----- Each transition keeps the invariant -----

  lemma MapFreshKeeps(m: Machine, slot: Slot, f: Frame)
    requires Inv(m) && slot in m.areas && IsPrivate(m, slot) && slot !in m.ptes && f !in m.frames
    ensures Inv(MapFresh(m, slot, f))
  {
    var m' := MapFresh(m, slot, f);
    FreeIsUnowned(m, f);
    RefsInsert(PteFrames(m.ptes), slot, f);
    assert PteFrames(m'.ptes) == PteFrames(m.ptes)[slot := f];
    forall g ensures Balanced(m', g) { assert Balanced(m, g); }
  }

  lemma MaterialiseKeeps(m: Machine, backed: BackingSlot, f: Frame)
    requires Inv(m) && (backed in m.backing || f !in m.frames)
    ensures Inv(Materialise(m, backed, f))
  {
    if backed !in m.backing {
      var m' := Materialise(m, backed, f);
      FreeIsUnowned(m, f);
      RefsInsert(m.backing, backed, f);
      forall g ensures Balanced(m', g) { assert Balanced(m, g); }
    }
  }

  lemma MapSharedKeeps(m: Machine, slot: Slot, backed: BackingSlot)
    requires Inv(m) && slot in m.areas && slot !in m.ptes
    requires m.areas[slot].kind == SharedAnon(backed) && backed in m.backing && m.backing[backed] in m.frames
    ensures Inv(MapShared(m, slot, backed))
  {
    var m' := MapShared(m, slot, backed);
    var f := m.backing[backed];
    RefsInsert(PteFrames(m.ptes), slot, f);
    assert PteFrames(m'.ptes) == PteFrames(m.ptes)[slot := f];
    forall g ensures Balanced(m', g) { assert Balanced(m, g); }
    forall h | h in m.handles && m.handles[h].owner.Deferred? ensures m.handles[h].frame != f {
      ExclusiveHandle(m, h);
    }
  }

  lemma DemandFaultKeeps(m: Machine, slot: Slot, access: AccessKind, offer: Option<Frame>, tablesOk: bool, h: nat)
    requires Inv(m) && Sound(m) && FreeOffer(m, offer) && h !in m.handles
    ensures Inv(DemandFault(m, slot, access, offer, tablesOk, h).0)
  {
    if AreaAllows(m, slot, access) {
      var area := m.areas[slot];
      if area.kind.SharedAnon? {
        if area.kind.backed in m.backing || offer.Some? {
          var f := if offer.Some? then offer.value else 0;
          MaterialiseKeeps(m, area.kind.backed, f);
          if slot !in m.ptes && tablesOk {
            MapSharedKeeps(Materialise(m, area.kind.backed, f), slot, area.kind.backed);
          }
        }
      } else if offer.Some? {
        if NeedsFile(area.kind) {
          DeferKeeps(m, slot, access, offer.value, h);
        } else if slot !in m.ptes && tablesOk {
          MapFreshKeeps(m, slot, offer.value);
        }
      }
    }
  }

  lemma DeferKeeps(m: Machine, slot: Slot, access: AccessKind, f: Frame, h: nat)
    requires Inv(m) && f !in m.frames && h !in m.handles && slot in m.areas && IsPrivate(m, slot)
    ensures Inv(m.(frames := AllocFrame(m.frames, f, ZeroPage()),
                   handles := m.handles[h := Handle(f, Deferred(slot, access, m.areas[slot]))]))
  {
    var handle := Handle(f, Deferred(slot, access, m.areas[slot]));
    var m' := m.(frames := AllocFrame(m.frames, f, ZeroPage()), handles := m.handles[h := handle]);
    FreeIsUnowned(m, f);
    RefsInsert(HandleFrames(m.handles), h, f);
    assert HandleFrames(m'.handles) == HandleFrames(m.handles)[h := f];
    forall g ensures Balanced(m', g) { assert Balanced(m, g); }
  }

  lemma DropHandleKeeps(m: Machine, h: nat)
    requires Inv(m) && h in m.handles && m.handles[h].frame in m.frames
    ensures Inv(DropHandle(m, h))
  {
    var m' := DropHandle(m, h);
    var f := m.handles[h].frame;
    RefsRemove(HandleFrames(m.handles), h);
    assert HandleFrames(m'.handles) == HandleFrames(m.handles) - {h};
    forall g ensures Balanced(m', g) { assert Balanced(m, g); }
    forall g | g in m'.handles && m'.handles[g].owner.Deferred? ensures m'.handles[g].frame != f {
      ExclusiveHandle(m, g);
    }
  }

  lemma FillDeferredKeeps(m: Machine, h: nat, bytes: seq<Byte>)
    requires Inv(m) && h in m.handles && m.handles[h].frame in m.frames
    ensures Inv(FillDeferred(m, h, bytes))
  {
    var m' := FillDeferred(m, h, bytes);
    forall g ensures Balanced(m', g) { assert Balanced(m, g); }
  }

  lemma FinishDeferredKeeps(m: Machine, h: nat, tablesOk: bool)
    requires Inv(m) && h in m.handles && m.handles[h].owner.Deferred? && m.handles[h].frame in m.frames
    ensures Inv(FinishDeferred(m, h, tablesOk))
  {
    if DeferredWins(m, h, tablesOk) {
      var m' := FinishDeferred(m, h, tablesOk);
      var slot, f := m.handles[h].owner.slot, m.handles[h].frame;
      ExclusiveHandle(m, h);
      RefsRemove(HandleFrames(m.handles), h);
      assert HandleFrames(m'.handles) == HandleFrames(m.handles) - {h};
      RefsInsert(PteFrames(m.ptes), slot, f);
      assert PteFrames(m'.ptes) == PteFrames(m.ptes)[slot := f];
      forall g ensures Balanced(m', g) { assert Balanced(m, g); }
    } else {
      DropHandleKeeps(m, h);
    }
  }

  lemma TakeOwnershipBalances(m: Machine, slot: Slot)
    requires Conserved(m) && slot in m.ptes
    ensures Conserved(m.(ptes := m.ptes[slot := m.ptes[slot].(perms := FromCow(m.ptes[slot].perms))]))
  {
    var m' := m.(ptes := m.ptes[slot := m.ptes[slot].(perms := FromCow(m.ptes[slot].perms))]);
    assert PteFrames(m'.ptes) == PteFrames(m.ptes);
    forall g ensures Balanced(m', g) { assert Balanced(m, g); }
  }

  lemma TakeOwnershipKeeps(m: Machine, slot: Slot)
    requires Inv(m) && slot in m.ptes && m.ptes[slot].perms.cow && CountOf(m.frames, m.ptes[slot].frame) == 1
    ensures Inv(m.(ptes := m.ptes[slot := m.ptes[slot].(perms := FromCow(m.ptes[slot].perms))]))
  {
    ExclusiveEntry(m, slot);
    TakeOwnershipBalances(m, slot);
  }

  lemma CopyOnWriteBalances(m: Machine, slot: Slot, f: Frame)
    requires Conserved(m) && slot in m.ptes && f !in m.frames
    requires m.ptes[slot].frame in m.frames && CountOf(m.frames, m.ptes[slot].frame) > 1
    ensures Conserved(CopyOnWrite(m, slot, f))
  {
    var m' := CopyOnWrite(m, slot, f);
    RefsReplace(PteFrames(m.ptes), slot, f);
    assert PteFrames(m'.ptes) == PteFrames(m.ptes)[slot := f];
    forall g ensures Balanced(m', g) { assert Balanced(m, g); }
  }

  lemma CopyOnWriteKeeps(m: Machine, slot: Slot, f: Frame)
    requires Inv(m) && slot in m.ptes && m.ptes[slot].perms.cow && f !in m.frames
    requires m.ptes[slot].frame in m.frames && CountOf(m.frames, m.ptes[slot].frame) > 1
    ensures Inv(CopyOnWrite(m, slot, f))
  {
    FreeIsUnowned(m, f);
    CopyOnWriteBalances(m, slot, f);
    forall h | h in m.handles && m.handles[h].owner.Deferred? ensures m.handles[h].frame != m.ptes[slot].frame {
      ExclusiveHandle(m, h);
    }
  }

  lemma UnmapBalances(m: Machine, slot: Slot, h: nat)
    requires Conserved(m) && slot in m.ptes && h !in m.handles
    ensures Conserved(UnmapPage(m, slot, h))
  {
    var m' := UnmapPage(m, slot, h);
    var f := m.ptes[slot].frame;
    RefsRemove(PteFrames(m.ptes), slot);
    assert PteFrames(m'.ptes) == PteFrames(m.ptes) - {slot};
    RefsInsert(HandleFrames(m.handles), h, f);
    assert HandleFrames(m'.handles) == HandleFrames(m.handles)[h := f];
    forall g ensures Balanced(m', g) { assert Balanced(m, g); }
  }

  lemma UnmapKeeps(m: Machine, slot: Slot, h: nat)
    requires Inv(m) && h !in m.handles
    ensures Inv(UnmapPage(m, slot, h))
  {
    if slot in m.ptes {
      UnmapBalances(m, slot, h);
    } else {
      forall g ensures Balanced(UnmapPage(m, slot, h), g) { assert Balanced(m, g); }
    }
  }

  lemma PinKeeps(m: Machine, slot: Slot, h: nat)
    requires Inv(m) && slot in m.ptes && m.ptes[slot].frame in m.frames && h !in m.handles
    ensures Inv(Pin(m, slot, h))
  {
    var m' := Pin(m, slot, h);
    var f := m.ptes[slot].frame;
    RefsInsert(HandleFrames(m.handles), h, f);
    assert HandleFrames(m'.handles) == HandleFrames(m.handles)[h := f];
    forall g ensures Balanced(m', g) { assert Balanced(m, g); }
    forall g | g in m.handles && m.handles[g].owner.Deferred? ensures m.handles[g].frame != f {
      ExclusiveHandle(m, g);
    }
  }

  lemma StoreKeeps(m: Machine, slot: Slot, at: nat, value: Byte)
    requires Inv(m) && slot in m.ptes && m.ptes[slot].frame in m.frames
    requires at < |m.frames[m.ptes[slot].frame].bytes|
    ensures Inv(Store(m, slot, at, value))
  {
    var m' := Store(m, slot, at, value);
    forall g ensures Balanced(m', g) { assert Balanced(m, g); }
  }

  lemma DropBackingKeeps(m: Machine, b: BackingSlot)
    requires Inv(m) && b in m.backing && m.backing[b] in m.frames
    requires forall s :: s in m.areas ==> !(m.areas[s].kind.SharedAnon? && m.areas[s].kind.backed.backing == b.backing)
    ensures Inv(DropBackingPage(m, b))
  {
    var m' := DropBackingPage(m, b);
    var f := m.backing[b];
    RefsRemove(m.backing, b);
    forall g ensures Balanced(m', g) { assert Balanced(m, g); }
    forall g | g in m.handles && m.handles[g].owner.Deferred? ensures m.handles[g].frame != f {
      ExclusiveHandle(m, g);
    }
  }

  lemma ForkAreasKeeps(m: Machine, parent: nat, child: nat, top: nat)
    requires Inv(m) && ForkEnabled(m, parent, child, top)
    ensures Inv(ForkAreas(m, parent, child))
  {
    var m' := ForkAreas(m, parent, child);
    assert forall s :: s in m.areas ==> s in m'.areas && m'.areas[s] == m.areas[s];
    forall g ensures Balanced(m', g) { assert Balanced(m, g); }
  }

  lemma ClonePageBalances(m: Machine, parent: nat, child: nat, page: nat)
    requires Conserved(m) && parent != child
    requires Slot(parent, page) in m.ptes && Slot(parent, page) in m.areas
    requires m.ptes[Slot(parent, page)].frame in m.frames && Slot(child, page) !in m.ptes
    ensures Conserved(ClonePage(m, parent, child, page))
  {
    var m' := ClonePage(m, parent, child, page);
    var to, f := Slot(child, page), m.ptes[Slot(parent, page)].frame;
    RefsInsert(PteFrames(m.ptes), to, f);
    assert PteFrames(m'.ptes) == PteFrames(m.ptes)[to := f];
    forall g ensures Balanced(m', g) { assert Balanced(m, g); }
  }

  lemma ClonePageApart(m: Machine, parent: nat, child: nat, page: nat)
    requires EntriesMatch(m) && WritableIsSole(m) && PrivateApart(m) && parent != child
    requires Slot(parent, page) in m.ptes && Slot(parent, page) in m.areas
    requires m.ptes[Slot(parent, page)].frame in m.frames
    requires Slot(child, page) !in m.ptes && Slot(child, page) in m.areas
    requires m.areas[Slot(child, page)] == m.areas[Slot(parent, page)]
    ensures var m' := ClonePage(m, parent, child, page);
            EntriesMatch(m') && WritableIsSole(m') && PrivateApart(m')
  {
  }

  lemma ClonePageKeeps(m: Machine, parent: nat, child: nat, page: nat)
    requires Inv(m) && parent != child
    requires Slot(parent, page) in m.ptes && Slot(parent, page) in m.areas
    requires m.ptes[Slot(parent, page)].frame in m.frames
    requires Slot(child, page) !in m.ptes && Slot(child, page) in m.areas
    requires m.areas[Slot(child, page)] == m.areas[Slot(parent, page)]
    ensures Inv(ClonePage(m, parent, child, page))
  {
    ClonePageBalances(m, parent, child, page);
    ClonePageApart(m, parent, child, page);
    var f := m.ptes[Slot(parent, page)].frame;
    forall g | g in m.handles && m.handles[g].owner.Deferred? ensures m.handles[g].frame != f {
      ExclusiveHandle(m, g);
    }
  }

  /** Where the contents of a slot come from when the pages of `parent` below `n` are copied to `child`. */
  function Origin(s: Slot, parent: nat, child: nat, n: nat): Slot {
    if s.space == child && s.page < n then Slot(parent, s.page) else s
  }

  /** What the walk of fork does to one slot; it changes no byte and frees no frame. */
  lemma {:induction false} ForkPagesAt(m: Machine, parent: nat, child: nat, n: nat, s: Slot)
    requires Sound(m) && parent != child && forall t :: t in m.ptes ==> t.space != child
    ensures var w, from := ForkPages(m, parent, child, n), Origin(s, parent, child, n);
            && (s in w.ptes <==> from in m.ptes)
            && (s in w.ptes ==> w.ptes[s].frame == m.ptes[from].frame)
            && w.areas == m.areas && w.backing == m.backing && w.frames.Keys == m.frames.Keys
            && (forall f :: f in m.frames ==> w.frames[f].bytes == m.frames[f].bytes)
  {
    if n > 0 {
      ForkPagesAt(m, parent, child, n - 1, s);
      ForkPagesAt(m, parent, child, n - 1, Slot(parent, n - 1));
    }
  }

  lemma {:induction false} ForkPagesKeeps(m: Machine, parent: nat, child: nat, n: nat)
    requires Inv(m) && Sound(m) && parent != child && forall t :: t in m.ptes ==> t.space != child
    requires forall p :: Slot(parent, p) in m.areas
                         ==> Slot(child, p) in m.areas && m.areas[Slot(child, p)] == m.areas[Slot(parent, p)]
    ensures Inv(ForkPages(m, parent, child, n))
  {
    if n > 0 {
      var walked := ForkPages(m, parent, child, n - 1);
      ForkPagesKeeps(m, parent, child, n - 1);
      ForkPagesAt(m, parent, child, n - 1, Slot(child, n - 1));
      if CanClone(walked, parent, child, n - 1) {
        ClonePageKeeps(walked, parent, child, n - 1);
      }
    }
  }

  lemma ForkKeeps(m: Machine, parent: nat, child: nat, top: nat)
    requires Inv(m) && Sound(m) && ForkEnabled(m, parent, child, top)
    ensures Inv(Fork(m, parent, child, top))
  {
    ForkAreasKeeps(m, parent, child, top);
    ForkPagesKeeps(ForkAreas(m, parent, child), parent, child, top);
  }

  lemma StepKeeps(m: Machine, step: Step)
    requires Inv(m) && Enabled(m, step)
    ensures Inv(Apply(m, step))
  {
    match step
    case DoMap(slot, area) =>
      forall g ensures Balanced(Apply(m, step), g) { assert Balanced(m, g); }
    case DoDemandFault(slot, access, offer, tablesOk, h) => DemandFaultKeeps(m, slot, access, offer, tablesOk, h);
    case DoFillDeferred(h, bytes) => FillDeferredKeeps(m, h, bytes);
    case DoFinishDeferred(h, tablesOk) => FinishDeferredKeeps(m, h, tablesOk);
    case DoDropHandle(h) => DropHandleKeeps(m, h);
    case DoProtectionFault(slot, access, offer) =>
      if access == Write && m.ptes[slot].perms.cow {
        if CountOf(m.frames, m.ptes[slot].frame) == 1 {
          TakeOwnershipKeeps(m, slot);
        } else if offer.Some? {
          CopyOnWriteKeeps(m, slot, offer.value);
        }
      }
    case DoUnmap(slot, h) => UnmapKeeps(m, slot, h);
    case DoFork(parent, child, top) => ForkKeeps(m, parent, child, top);
    case DoPin(slot, access, h) => PinKeeps(m, slot, h);
    case DoStore(slot, at, value) => StoreKeeps(m, slot, at, value);
    case DoDropBacking(b) => DropBackingKeeps(m, b);
  }

  lemma BootHolds()
    ensures Inv(Booted)
  {
    forall f ensures Balanced(Booted, f) {
      assert PteFrames(Booted.ptes) == map[] && HandleFrames(Booted.handles) == map[];
    }
  }

  /** In every state of every run the invariant holds, so no owned frame is ever free. */
  lemma {:induction false} EveryRunConserves(states: seq<Machine>, steps: seq<Step>, i: nat)
    requires IsRun(states, steps) && i < |states|
    ensures Inv(states[i])
    ensures Sound(states[i])
  {
    if i == 0 {
      BootHolds();
    } else {
      EveryRunConserves(states, steps, i - 1);
      StepKeeps(states[i - 1], steps[i - 1]);
    }
    OwnedIsAllocated(states[i]);
  }

  /** A frame is allocated exactly while something owns it: nothing leaks, nothing is freed early. */
  lemma AllocatedExactlyWhileOwned(states: seq<Machine>, steps: seq<Step>, i: nat, f: Frame)
    requires IsRun(states, steps) && i < |states|
    ensures f in states[i].frames <==>
            || (exists s :: s in states[i].ptes && states[i].ptes[s].frame == f)
            || (exists b :: b in states[i].backing && states[i].backing[b] == f)
            || (exists h :: h in states[i].handles && states[i].handles[h].frame == f)
  {
    var m := states[i];
    EveryRunConserves(states, steps, i);
    if f in m.frames {
      assert Balanced(m, f);
      if Refs(PteFrames(m.ptes), f) > 0 {
        var s := RefsWitness(PteFrames(m.ptes), f);
      } else if Refs(m.backing, f) > 0 {
        var b := RefsWitness(m.backing, f);
      } else {
        var h := RefsWitness(HandleFrames(m.handles), f);
      }
    }
  }
}
