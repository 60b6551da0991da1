/**
 The machine that demand paging, copy-on-write and fork act on: page tables of many address
 spaces, the areas they realise, shared anonymous backings, allocated frames and the owned
 references that are in flight. Each transition is the net effect of one critical section.
 */
module Paging {
  import opened PageFrames

  /** One virtual page of one address space. */
  datatype Slot = Slot(space: nat, page: nat)

  /** One page of a shared anonymous backing. */
  datatype BackingSlot = BackingSlot(backing: nat, index: nat)

  datatype AccessKind = Read | Write | Execute

  datatype AreaPermissions = AreaPermissions(read: bool, write: bool, execute: bool)

  datatype AreaKind =
    | Anon
    | SharedAnon(backed: BackingSlot)
    | File(inode: nat, offset: nat, hasData: bool)

  /** What the memory map says of one page. */
  datatype Area = Area(kind: AreaKind, perms: AreaPermissions)

  datatype PtePermissions = PtePermissions(read: bool, write: bool, execute: bool, user: bool, cow: bool)

  datatype Pte = Pte(frame: Frame, perms: PtePermissions)

  /** Why a reference is held outside page tables and backings. */
  datatype Owner =
    | Deferred(slot: Slot, access: AccessKind, area: Area)  // a fault waiting for its file data
    | Pinned                                                // handed out by get_page
    | Unmapped                                              // taken out of a page table, not yet freed

  datatype Handle = Handle(frame: Frame, owner: Owner)

  datatype Machine = Machine(
    frames: Frames,
    ptes: map<Slot, Pte>,
    areas: map<Slot, Area>,
    backing: map<BackingSlot, Frame>,
    handles: map<nat, Handle>)

  datatype Outcome = Resolved | Denied | DeferredFault | Failed

  const Booted := Machine(map[], map[], map[], map[], map[])

  predicate AreaPermits(perms: AreaPermissions, access: AccessKind) {
    match access
    case Read => perms.read
    case Write => perms.write
    case Execute => perms.execute
  }

  predicate PtePermits(perms: PtePermissions, access: AccessKind) {
    match access
    case Read => perms.read
    case Write => perms.write
    case Execute => perms.execute
  }

  function FromArea(perms: AreaPermissions): PtePermissions {
    PtePermissions(perms.read, perms.write, perms.execute, true, false)
  }

  function IntoCow(perms: PtePermissions): PtePermissions {
    perms.(write := false, cow := true)
  }

  function FromCow(perms: PtePermissions): PtePermissions {
    perms.(write := true, cow := false)
  }

  /** Shared mappings stay shared across fork, private writable mappings become copy-on-write. */
  function ForkPermissions(area: Area): PtePermissions {
    var perms := FromArea(area.perms);
    if !area.kind.SharedAnon? && perms.write then IntoCow(perms) else perms
  }

  /** The area that allows an access at a slot, if there is one. */
  predicate AreaAllows(m: Machine, slot: Slot, access: AccessKind) {
    slot in m.areas && AreaPermits(m.areas[slot].perms, access)
  }

  /** A page that is read from its file before it is mapped. */
  predicate NeedsFile(kind: AreaKind) {
    kind.File? && kind.hasData
  }

  // ----- Faults on absent entries -----

  function MapFresh(m: Machine, slot: Slot, f: Frame): Machine
    requires slot in m.areas
  {
    m.(frames := AllocFrame(m.frames, f, ZeroPage()),
       ptes := m.ptes[slot := Pte(f, FromArea(m.areas[slot].perms))])
  }

  /** The backing slot's canonical page, allocated on first use. */
  function Materialise(m: Machine, backed: BackingSlot, f: Frame): Machine {
    if backed in m.backing then m
    else m.(frames := AllocFrame(m.frames, f, ZeroPage()), backing := m.backing[backed := f])
  }

  function MapShared(m: Machine, slot: Slot, backed: BackingSlot): Machine
    requires slot in m.areas && backed in m.backing && m.backing[backed] in m.frames
  {
    m.(frames := AddReference(m.frames, m.backing[backed]),
       ptes := m.ptes[slot := Pte(m.backing[backed], FromArea(m.areas[slot].perms))])
  }

  /** `offer` is the frame the allocator would give, `tablesOk` whether a table page can be had. */
  function DemandFault(m: Machine, slot: Slot, access: AccessKind, offer: Option<Frame>, tablesOk: bool, h: nat)
    : (Machine, Outcome)
    requires forall b :: b in m.backing ==> m.backing[b] in m.frames
  {
    if !AreaAllows(m, slot, access) then (m, Denied)
    else
      var area := m.areas[slot];
      if area.kind.SharedAnon? then
        if area.kind.backed !in m.backing && offer.None? then (m, Failed)
        else
          var claimed := Materialise(m, area.kind.backed, if offer.Some? then offer.value else 0);
          if slot in m.ptes then (claimed, Resolved)
          else if !tablesOk then (claimed, Failed)
          else (MapShared(claimed, slot, area.kind.backed), Resolved)
      else if offer.None? then (m, Failed)
      else if NeedsFile(area.kind) then
        (m.(frames := AllocFrame(m.frames, offer.value, ZeroPage()),
            handles := m.handles[h := Handle(offer.value, Deferred(slot, access, area))]),
         DeferredFault)
      else if slot in m.ptes then (m, Resolved)
      else if !tablesOk then (m, Failed)
      else (MapFresh(m, slot, offer.value), Resolved)
  }

  /** The reference held by a handle is given up. */
  function DropHandle(m: Machine, h: nat): Machine
    requires h in m.handles && m.handles[h].frame in m.frames
  {
    m.(frames := DropReference(m.frames, m.handles[h].frame), handles := m.handles - {h})
  }

  /** File data arrives in a page that only its handle knows. */
  function FillDeferred(m: Machine, h: nat, bytes: seq<Byte>): Machine
    requires h in m.handles && m.handles[h].frame in m.frames
  {
    var f := m.handles[h].frame;
    m.(frames := m.frames[f := m.frames[f].(bytes := bytes)])
  }

  /** Whether a deferred fault, resumed, still finds the area it was started for and no entry. */
  predicate DeferredWins(m: Machine, h: nat, tablesOk: bool)
    requires h in m.handles && m.handles[h].owner.Deferred?
  {
    var o := m.handles[h].owner;
    AreaAllows(m, o.slot, o.access) && m.areas[o.slot] == o.area && o.slot !in m.ptes && tablesOk
  }

  function FinishDeferred(m: Machine, h: nat, tablesOk: bool): Machine
    requires h in m.handles && m.handles[h].owner.Deferred? && m.handles[h].frame in m.frames
  {
    var Handle(f, o) := m.handles[h];
    if DeferredWins(m, h, tablesOk)
    then m.(ptes := m.ptes[o.slot := Pte(f, FromArea(o.area.perms))], handles := m.handles - {h})
    else DropHandle(m, h)
  }

  // ----- Faults on present entries -----

  function CopyOnWrite(m: Machine, slot: Slot, f: Frame): Machine
    requires slot in m.ptes && m.ptes[slot].frame in m.frames
  {
    var was := m.ptes[slot];
    m.(frames := DropReference(AllocFrame(m.frames, f, m.frames[was.frame].bytes), was.frame),
       ptes := m.ptes[slot := Pte(f, FromCow(was.perms))])
  }

  function ProtectionFault(m: Machine, slot: Slot, access: AccessKind, offer: Option<Frame>): (Machine, Outcome)
    requires slot in m.ptes && m.ptes[slot].frame in m.frames
  {
    var pte := m.ptes[slot];
    if access == Write && pte.perms.cow then
      if CountOf(m.frames, pte.frame) == 1
      then (m.(ptes := m.ptes[slot := pte.(perms := FromCow(pte.perms))]), Resolved)
      else if offer.None? then (m, Failed)
      else (CopyOnWrite(m, slot, offer.value), Resolved)
    else (m, Denied)
  }

  // ----- Unmapping, pinning, stores -----

  /** The area goes; a resident page's reference moves to handle `h`, to be freed later. */
  function UnmapPage(m: Machine, slot: Slot, h: nat): Machine {
    var m1 := m.(areas := m.areas - {slot});
    if slot in m.ptes
    then m1.(ptes := m.ptes - {slot}, handles := m.handles[h := Handle(m.ptes[slot].frame, Unmapped)])
    else m1
  }

  function Pin(m: Machine, slot: Slot, h: nat): Machine
    requires slot in m.ptes && m.ptes[slot].frame in m.frames
  {
    var f := m.ptes[slot].frame;
    m.(frames := AddReference(m.frames, f), handles := m.handles[h := Handle(f, Pinned)])
  }

  function Store(m: Machine, slot: Slot, at: nat, value: Byte): Machine
    requires slot in m.ptes && m.ptes[slot].frame in m.frames
    requires at < |m.frames[m.ptes[slot].frame].bytes|
  {
    var f := m.ptes[slot].frame;
    m.(frames := m.frames[f := m.frames[f].(bytes := m.frames[f].bytes[at := value])])
  }

  /** One page of a backing that no area names any more is dropped. */
  function DropBackingPage(m: Machine, b: BackingSlot): Machine
    requires b in m.backing && m.backing[b] in m.frames
  {
    m.(frames := DropReference(m.frames, m.backing[b]), backing := m.backing - {b})
  }

  // ----- Fork -----

  /** What a space held for the parent, now also held for the child. */
  function Inherit<T>(held: map<Slot, T>, parent: nat, child: nat): map<Slot, T> {
    held + map s | s in held && s.space == parent :: Slot(child, s.page) := held[s]
  }

  /** The child's areas are copied before any page is cloned. */
  function ForkAreas(m: Machine, parent: nat, child: nat): Machine {
    m.(areas := Inherit(m.areas, parent, child))
  }

  /** One present entry of the parent is protected and shared with the child. */
  function ClonePage(m: Machine, parent: nat, child: nat, page: nat): Machine
    requires Slot(parent, page) in m.ptes && Slot(parent, page) in m.areas
    requires m.ptes[Slot(parent, page)].frame in m.frames
  {
    var from := Slot(parent, page);
    var entry := Pte(m.ptes[from].frame, ForkPermissions(m.areas[from]));
    m.(frames := AddReference(m.frames, entry.frame),
       ptes := m.ptes[from := entry][Slot(child, page) := entry])
  }

  /** Whether the walk of fork finds a present entry to clone. */
  predicate CanClone(m: Machine, parent: nat, child: nat, page: nat) {
    var from := Slot(parent, page);
    parent != child && from in m.ptes && from in m.areas && m.ptes[from].frame in m.frames
  }

  /** The walk of fork over the parent's pages below `n`. */
  function ForkPages(m: Machine, parent: nat, child: nat, n: nat): Machine {
    if n == 0 then m
    else
      var walked := ForkPages(m, parent, child, n - 1);
      if CanClone(walked, parent, child, n - 1) then ClonePage(walked, parent, child, n - 1) else walked
  }

  /** The child space is new, and `top` bounds the parent's mapped pages. */
  predicate ForkEnabled(m: Machine, parent: nat, child: nat, top: nat) {
    && parent != child
    && (forall s :: s in m.areas ==> s.space != child && (s.space == parent ==> s.page < top))
  }

  function Fork(m: Machine, parent: nat, child: nat, top: nat): Machine {
    ForkPages(ForkAreas(m, parent, child), parent, child, top)
  }

  // ----- Runs -----

  datatype Step =
    | DoMap(slot: Slot, area: Area)
    | DoDemandFault(slot: Slot, access: AccessKind, offer: Option<Frame>, tablesOk: bool, h: nat)
    | DoFillDeferred(h: nat, bytes: seq<Byte>)
    | DoFinishDeferred(h: nat, tablesOk: bool)
    | DoDropHandle(h: nat)
    | DoProtectionFault(slot: Slot, access: AccessKind, offer: Option<Frame>)
    | DoUnmap(slot: Slot, h: nat)
    | DoFork(parent: nat, child: nat, top: nat)
    | DoPin(slot: Slot, access: AccessKind, h: nat)
    | DoStore(slot: Slot, at: nat, value: Byte)
    | DoDropBacking(b: BackingSlot)

  /** Every frame some owner names is allocated, and entries lie in areas. */
  ghost predicate Sound(m: Machine) {
    && (forall s :: s in m.ptes ==> m.ptes[s].frame in m.frames && s in m.areas)
    && (forall b :: b in m.backing ==> m.backing[b] in m.frames)
    && (forall h :: h in m.handles ==> m.handles[h].frame in m.frames)
  }

  predicate FreeOffer(m: Machine, offer: Option<Frame>) {
    offer.Some? ==> offer.value !in m.frames
  }

  /** When a step can be taken: what the hardware, the allocator and the callers guarantee. */
  ghost predicate Enabled(m: Machine, step: Step) {
    Sound(m) &&
    match step
    case DoMap(slot, area) => slot !in m.areas
    case DoDemandFault(slot, access, offer, tablesOk, h) => FreeOffer(m, offer) && h !in m.handles
    case DoFillDeferred(h, bytes) => h in m.handles && m.handles[h].owner.Deferred? && |bytes| == PAGE_SIZE
    case DoFinishDeferred(h, tablesOk) => h in m.handles && m.handles[h].owner.Deferred?
    case DoDropHandle(h) => h in m.handles
    case DoProtectionFault(slot, access, offer) => slot in m.ptes && FreeOffer(m, offer)
    case DoUnmap(slot, h) => slot in m.areas && h !in m.handles
    case DoFork(parent, child, top) => ForkEnabled(m, parent, child, top)
    case DoPin(slot, access, h) => slot in m.ptes && PtePermits(m.ptes[slot].perms, access) && h !in m.handles
    case DoStore(slot, at, value) =>
      slot in m.ptes && m.ptes[slot].perms.write && at < |m.frames[m.ptes[slot].frame].bytes|
    case DoDropBacking(b) =>
      && b in m.backing
      && forall s :: s in m.areas ==> !(m.areas[s].kind.SharedAnon? && m.areas[s].kind.backed.backing == b.backing)
  }

  ghost function Apply(m: Machine, step: Step): Machine
    requires Enabled(m, step)
  {
    match step
    case DoMap(slot, area) => m.(areas := m.areas[slot := area])
    case DoDemandFault(slot, access, offer, tablesOk, h) => DemandFault(m, slot, access, offer, tablesOk, h).0
    case DoFillDeferred(h, bytes) => FillDeferred(m, h, bytes)
    case DoFinishDeferred(h, tablesOk) => FinishDeferred(m, h, tablesOk)
    case DoDropHandle(h) => DropHandle(m, h)
    case DoProtectionFault(slot, access, offer) => ProtectionFault(m, slot, access, offer).0
    case DoUnmap(slot, h) => UnmapPage(m, slot, h)
    case DoFork(parent, child, top) => Fork(m, parent, child, top)
    case DoPin(slot, access, h) => Pin(m, slot, h)
    case DoStore(slot, at, value) => Store(m, slot, at, value)
    case DoDropBacking(b) => DropBackingPage(m, b)
  }

  /** `states` is a run of the machine from boot by `steps`. */
  ghost predicate IsRun(states: seq<Machine>, steps: seq<Step>) {
    && |states| == |steps| + 1
    && states[0] == Booted
    && forall i :: 0 <= i < |steps| ==> Enabled(states[i], steps[i]) && states[i + 1] == Apply(states[i], steps[i])
  }
}
