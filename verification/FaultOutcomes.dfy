/**
 What the transitions of the paging machine are for, told by areas, entries, owners and bytes: when a fault must be
 resolved, what it maps, and what nobody else may notice.
 */
module FaultOutcomes {
  import opened PageFrames
  import opened Paging
  import opened PagingInvariant

  /** The bytes a resident page reads. */
  function Resident(m: Machine, s: Slot): seq<Byte>
    requires s in m.ptes && m.ptes[s].frame in m.frames
  {
    m.frames[m.ptes[s].frame].bytes
  }

  /** Slots other than `slot` keep their entries and what they read. */
  ghost predicate OthersUndisturbed(m: Machine, m': Machine, slot: Slot)
    requires Sound(m) && Sound(m')
  {
    && (forall s :: s != slot ==> (s in m'.ptes <==> s in m.ptes))
    && (forall s :: s != slot && s in m.ptes ==> m'.ptes[s] == m.ptes[s] && Resident(m', s) == Resident(m, s))
    && (forall b :: b in m.backing ==>
          b in m'.backing && m'.backing[b] == m.backing[b]
          && m'.frames[m'.backing[b]].bytes == m.frames[m.backing[b]].bytes)
  }

  lemma StepSound(m: Machine, step: Step)
    requires Inv(m) && Enabled(m, step)
    ensures Inv(Apply(m, step)) && Sound(Apply(m, step))
  {
    StepKeeps(m, step);
    OwnedIsAllocated(Apply(m, step));
  }

  // ----- Copy-on-write faults -----

  /** Another entry, a backing or a handle has the frame of `slot` too. */
  ghost predicate OthersOwn(m: Machine, slot: Slot)
    requires slot in m.ptes
  {
    || (exists s :: s in m.ptes && s != slot && m.ptes[s].frame == m.ptes[slot].frame)
    || (exists b :: b in m.backing && m.backing[b] == m.ptes[slot].frame)
    || (exists h :: h in m.handles && m.handles[h].frame == m.ptes[slot].frame)
  }

  lemma NoRefs<K>(owners: map<K, Frame>, f: Frame)
    requires forall k :: k in owners ==> owners[k] != f
    ensures Refs(owners, f) == 0
  {
    var holders := set x | x in owners && owners[x] == f;
    assert holders == {};
  }

  lemma OneRef<K>(owners: map<K, Frame>, k: K)
    requires k in owners && forall x :: x in owners && x != k ==> owners[x] != owners[k]
    ensures Refs(owners, owners[k]) == 1
  {
    RefsRemove(owners, k);
    NoRefs(owners - {k}, owners[k]);
  }

  /** The allocator's exclusive test is the absence of any other owner. */
  lemma CountIsOneIffSole(m: Machine, slot: Slot)
    requires Inv(m) && slot in m.ptes
    ensures CountOf(m.frames, m.ptes[slot].frame) == 1 <==> !OthersOwn(m, slot)
  {
    var f := m.ptes[slot].frame;
    if CountOf(m.frames, f) == 1 {
      ExclusiveEntry(m, slot);
    } else if !OthersOwn(m, slot) {
      assert Balanced(m, f);
      OneRef(PteFrames(m.ptes), slot);
      NoRefs(m.backing, f);
      NoRefs(HandleFrames(m.handles), f);
    }
  }

  /**
   A write fault on a copy-on-write entry fails if and only if the frame has another owner and there is no memory for a
   copy; otherwise it is resolved.
   */
  lemma CowFaultOutcome(m: Machine, slot: Slot, offer: Option<Frame>)
    requires Inv(m) && Sound(m) && slot in m.ptes && m.ptes[slot].perms.cow && FreeOffer(m, offer)
    ensures var (m', outcome) := ProtectionFault(m, slot, Write, offer);
            && (outcome == Failed <==> offer.None? && OthersOwn(m, slot))
            && (outcome == Failed || outcome == Resolved)
            && (outcome == Failed ==> m' == m)
  {
    CountIsOneIffSole(m, slot);
  }

  lemma ProtectionFaultSound(m: Machine, slot: Slot, offer: Option<Frame>)
    requires Inv(m) && Sound(m) && slot in m.ptes && FreeOffer(m, offer)
    ensures Inv(ProtectionFault(m, slot, Write, offer).0) && Sound(ProtectionFault(m, slot, Write, offer).0)
  {
    StepSound(m, DoProtectionFault(slot, Write, offer));
  }

  /** Resolved, the entry is writable, the only one for its frame, and reads as before. */
  lemma CowFaultResolved(m: Machine, slot: Slot, offer: Option<Frame>)
    requires Inv(m) && Sound(m) && slot in m.ptes && m.ptes[slot].perms.cow && FreeOffer(m, offer)
    requires ProtectionFault(m, slot, Write, offer).1 == Resolved
    ensures var m' := ProtectionFault(m, slot, Write, offer).0;
            && Inv(m') && Sound(m') && slot in m'.ptes
            && m'.ptes[slot].perms == m.ptes[slot].perms.(write := true, cow := false)
            && !OthersOwn(m', slot) && Resident(m', slot) == Resident(m, slot)
            && m'.areas == m.areas && m'.handles == m.handles
  {
    ProtectionFaultSound(m, slot, offer);
    var m' := ProtectionFault(m, slot, Write, offer).0;
    CountIsOneIffSole(m, slot);
    if CountOf(m.frames, m.ptes[slot].frame) != 1 {
      FreeIsUnowned(m, offer.value);
    }
  }

  /** Whatever the outcome, every other slot keeps its entry and what it reads. */
  lemma CowFaultUnnoticed(m: Machine, slot: Slot, offer: Option<Frame>)
    requires Inv(m) && Sound(m) && slot in m.ptes && m.ptes[slot].perms.cow && FreeOffer(m, offer)
    ensures Sound(ProtectionFault(m, slot, Write, offer).0)
    ensures OthersUndisturbed(m, ProtectionFault(m, slot, Write, offer).0, slot)
  {
    ProtectionFaultSound(m, slot, offer);
    EntryIsCounted(m, slot);
    ProtectionFaultTouches(m, slot, offer);
    CowFaultBytes(m, slot, offer);
    SameBytesUnnoticed(m, ProtectionFault(m, slot, Write, offer).0, slot);
  }

  lemma ProtectionFaultTouches(m: Machine, slot: Slot, offer: Option<Frame>)
    requires Sound(m) && slot in m.ptes
    ensures var m' := ProtectionFault(m, slot, Write, offer).0;
            m'.backing == m.backing && slot in m'.ptes && m'.ptes == m.ptes[slot := m'.ptes[slot]]
  {
  }

  lemma EntryIsCounted(m: Machine, slot: Slot)
    requires Inv(m) && Sound(m) && slot in m.ptes
    ensures m.frames[m.ptes[slot].frame].count > 0
  {
    RefsPositive(PteFrames(m.ptes), slot);
    assert Balanced(m, m.ptes[slot].frame);
  }

  lemma SameBytesUnnoticed(m: Machine, m': Machine, slot: Slot)
    requires Sound(m) && Sound(m') && m'.backing == m.backing
    requires slot in m.ptes && slot in m'.ptes && m'.ptes == m.ptes[slot := m'.ptes[slot]]
    requires forall g :: g in m.frames ==> g in m'.frames && m'.frames[g].bytes == m.frames[g].bytes
    ensures OthersUndisturbed(m, m', slot)
  {
  }

  lemma CowFaultBytes(m: Machine, slot: Slot, offer: Option<Frame>)
    requires Sound(m) && slot in m.ptes && FreeOffer(m, offer) && m.frames[m.ptes[slot].frame].count > 0
    ensures var frames := ProtectionFault(m, slot, Write, offer).0.frames;
            forall g :: g in m.frames ==> g in frames && frames[g].bytes == m.frames[g].bytes
  {
    var f := m.ptes[slot].frame;
    if CountOf(m.frames, f) != 1 && offer.Some? {
      FrameSurvives(m.frames, offer.value, m.frames[f].bytes, f);
    }
  }

  /** Neither the new page nor the reference given up changes a byte of the frames there were. */
  lemma FrameSurvives(frames: Frames, f: Frame, bytes: seq<Byte>, shared: Frame)
    requires f !in frames && shared in frames && frames[shared].count > 1
    ensures var after := DropReference(AllocFrame(frames, f, bytes), shared);
            forall g :: g in frames ==> g in after && after[g].bytes == frames[g].bytes
  {
  }

  /** Any other access, or entry, is denied and changes nothing. */
  lemma OtherFaultsDenied(m: Machine, slot: Slot, access: AccessKind, offer: Option<Frame>)
    requires Sound(m) && slot in m.ptes && (access != Write || !m.ptes[slot].perms.cow)
    ensures ProtectionFault(m, slot, access, offer) == (m, Denied)
  {
  }

  // ----- Demand faults -----

  /** Which outcome a demand fault has, by area, entry and memory. */
  lemma DemandFaultOutcome(m: Machine, slot: Slot, access: AccessKind, offer: Option<Frame>, tablesOk: bool, h: nat)
    requires Sound(m)
    ensures var outcome := DemandFault(m, slot, access, offer, tablesOk, h).1;
            var allowed := slot in m.areas && AreaPermits(m.areas[slot].perms, access);
            && (outcome == Denied <==> !allowed)
            && (allowed ==>
                  var kind := m.areas[slot].kind;
                  var memory := offer.Some? || (kind.SharedAnon? && kind.backed in m.backing);
                  var deferred := kind.File? && kind.hasData;
                  && (outcome == DeferredFault <==> deferred && memory)
                  && (outcome == Failed <==> !memory || (!deferred && slot !in m.ptes && !tablesOk))
                  && (outcome == Resolved <==> memory && !deferred && (slot in m.ptes || tablesOk)))
  {
  }

  /** A page that a demand fault maps is new and zero, or the backing's one; its permissions are the area's. */
  lemma DemandFaultMaps(m: Machine, slot: Slot, access: AccessKind, offer: Option<Frame>, tablesOk: bool, h: nat)
    requires Inv(m) && Sound(m) && FreeOffer(m, offer) && h !in m.handles && slot !in m.ptes
    requires DemandFault(m, slot, access, offer, tablesOk, h).1 == Resolved
    ensures var m', area := DemandFault(m, slot, access, offer, tablesOk, h).0, m.areas[slot];
            && slot in m'.ptes && m'.ptes[slot].frame in m'.frames
            && m'.ptes[slot].perms == PtePermissions(area.perms.read, area.perms.write, area.perms.execute, true, false)
            && (!area.kind.SharedAnon? ==>
                  Some(m'.ptes[slot].frame) == offer && Resident(m', slot) == seq(PAGE_SIZE, i => 0))
            && (area.kind.SharedAnon? ==>
                  && area.kind.backed in m'.backing && m'.ptes[slot].frame == m'.backing[area.kind.backed]
                  && (if area.kind.backed in m.backing
                      then m'.backing == m.backing && Resident(m', slot) == m.frames[m.backing[area.kind.backed]].bytes
                      else Resident(m', slot) == seq(PAGE_SIZE, i => 0)))
  {
  }

  // ----- Deferred faults -----

  /** The area a deferred fault recorded is the one its slot has now, and allows the access. */
  predicate AreaStands(m: Machine, o: Owner)
    requires o.Deferred?
  {
    o.slot in m.areas && m.areas[o.slot] == o.area && AreaPermits(o.area.perms, o.access)
  }

  /**
   A resumed fault maps its page, with the bytes read and the area's permissions, if and only if the area is the very
   one it recorded, the slot has no entry and a table page can be had. No other entry changes.
   */
  lemma ResumeMapsExactlyWhen(m: Machine, h: nat, tablesOk: bool)
    requires Sound(m) && h in m.handles && m.handles[h].owner.Deferred?
    ensures var m', Handle(f, o) := FinishDeferred(m, h, tablesOk), m.handles[h];
            var perms := PtePermissions(o.area.perms.read, o.area.perms.write, o.area.perms.execute, true, false);
            && m'.handles == m.handles - {h} && m'.areas == m.areas && m'.backing == m.backing
            && (if AreaStands(m, o) && o.slot !in m.ptes && tablesOk
                then m'.ptes == m.ptes[o.slot := Pte(f, perms)] && m'.frames == m.frames
                else m'.ptes == m.ptes)
  {
  }

  /** If the area differs in anything, or the fault is too late, nobody reads anything else. */
  lemma StaleResumeUnnoticed(m: Machine, h: nat, tablesOk: bool)
    requires Inv(m) && Sound(m) && h in m.handles && m.handles[h].owner.Deferred?
    requires var o := m.handles[h].owner;
             o.slot !in m.areas || m.areas[o.slot] != o.area || o.slot in m.ptes || !tablesOk
    ensures var m' := FinishDeferred(m, h, tablesOk);
            && Inv(m') && Sound(m') && m'.ptes == m.ptes && m'.backing == m.backing
            && (forall s :: s in m.ptes ==> Resident(m', s) == Resident(m, s))
            && (forall b :: b in m.backing ==> m'.frames[m'.backing[b]].bytes == m.frames[m.backing[b]].bytes)
  {
    StepSound(m, DoFinishDeferred(h, tablesOk));
    ExclusiveHandle(m, h);
  }

  /** Every deferred fault was started by an access that its area allows. */
  ghost predicate DeferralsWanted(m: Machine) {
    forall h :: h in m.handles && m.handles[h].owner.Deferred? ==>
                  AreaPermits(m.handles[h].owner.area.perms, m.handles[h].owner.access)
  }

  lemma {:induction false} ForkKeepsHandles(m: Machine, parent: nat, child: nat, n: nat)
    ensures ForkPages(m, parent, child, n).handles == m.handles
  {
    if n > 0 {
      ForkKeepsHandles(m, parent, child, n - 1);
    }
  }

  lemma {:induction false} EveryRunDefersWanted(states: seq<Machine>, steps: seq<Step>, i: nat)
    requires IsRun(states, steps) && i < |states|
    ensures DeferralsWanted(states[i])
  {
    if i > 0 {
      EveryRunDefersWanted(states, steps, i - 1);
      StepDefersWanted(states[i - 1], steps[i - 1]);
    }
  }

  lemma StepDefersWanted(m: Machine, step: Step)
    requires DeferralsWanted(m) && Enabled(m, step)
    ensures DeferralsWanted(Apply(m, step))
  {
    var m' := Apply(m, step);
    forall g | g in m'.handles && m'.handles[g].owner.Deferred?
      ensures AreaPermits(m'.handles[g].owner.area.perms, m'.handles[g].owner.access)
    {
      if g in m.handles && !Concerns(step, g) {
        OthersKeepHandle(m, step, g);
      } else if step.DoFork? {
        ForkKeepsHandles(ForkAreas(m, step.parent, step.child), step.parent, step.child, step.top);
      }
    }
  }

  /** Hence, in every run, an unchanged area, an absent entry and a table page are enough for the page to be mapped. */
  lemma UnchangedAreaGetsPage(states: seq<Machine>, steps: seq<Step>, i: nat, h: nat)
    requires IsRun(states, steps) && i < |states| && h in states[i].handles && states[i].handles[h].owner.Deferred?
    requires var o := states[i].handles[h].owner;
             o.slot in states[i].areas && states[i].areas[o.slot] == o.area && o.slot !in states[i].ptes
    ensures states[i].handles[h].frame in states[i].frames
    ensures var m, m' := states[i], FinishDeferred(states[i], h, true);
            var slot := m.handles[h].owner.slot;
            && slot in m'.ptes && m'.ptes[slot].frame == m.handles[h].frame
            && m'.frames[m'.ptes[slot].frame].bytes == m.frames[m.handles[h].frame].bytes
  {
    EveryRunConserves(states, steps, i);
    OwnedIsAllocated(states[i]);
    EveryRunDefersWanted(states, steps, i);
  }

  /** No owner but handle `h` has frame `f`. */
  ghost predicate OnlyHandle(m: Machine, f: Frame, h: nat) {
    && (forall s :: s in m.ptes ==> m.ptes[s].frame != f)
    && (forall b :: b in m.backing ==> m.backing[b] != f)
    && (forall g :: g in m.handles && g != h ==> m.handles[g].frame != f)
  }

  predicate Concerns(step: Step, h: nat) {
    (step.DoFillDeferred? || step.DoFinishDeferred? || step.DoDropHandle?) && step.h == h
  }

  lemma OthersKeepFrame(m: Machine, step: Step, f: Frame, h: nat)
    requires Enabled(m, step) && OnlyHandle(m, f, h) && f in m.frames && !Concerns(step, h)
    ensures f in Apply(m, step).frames && Apply(m, step).frames[f] == m.frames[f]
  {
    match step
    case DoFork(parent, child, top) => ForkKeepsFrame(ForkAreas(m, parent, child), parent, child, top, f);
    case DoDemandFault(slot, access, offer, tablesOk, g) => DemandKeepsFrame(m, slot, access, offer, tablesOk, g, f);
    case DoProtectionFault(slot, access, offer) => ProtectionKeepsFrame(m, slot, access, offer, f);
    case _ =>
  }

  lemma DemandKeepsFrame(m: Machine, slot: Slot, access: AccessKind, offer: Option<Frame>, tablesOk: bool, g: nat,
                         f: Frame)
    requires Sound(m) && FreeOffer(m, offer) && f in m.frames && forall b :: b in m.backing ==> m.backing[b] != f
    ensures var frames := DemandFault(m, slot, access, offer, tablesOk, g).0.frames;
            f in frames && frames[f] == m.frames[f]
  {
  }

  lemma ProtectionKeepsFrame(m: Machine, slot: Slot, access: AccessKind, offer: Option<Frame>, f: Frame)
    requires Sound(m) && slot in m.ptes && FreeOffer(m, offer) && f in m.frames && m.ptes[slot].frame != f
    ensures var frames := ProtectionFault(m, slot, access, offer).0.frames;
            f in frames && frames[f] == m.frames[f]
  {
  }

  lemma {:induction false} ForkKeepsFrame(m: Machine, parent: nat, child: nat, n: nat, f: Frame)
    requires f in m.frames && forall s :: s in m.ptes ==> m.ptes[s].frame != f
    ensures f in ForkPages(m, parent, child, n).frames && ForkPages(m, parent, child, n).frames[f] == m.frames[f]
    ensures forall s :: s in ForkPages(m, parent, child, n).ptes ==> ForkPages(m, parent, child, n).ptes[s].frame != f
  {
    if n > 0 {
      ForkKeepsFrame(m, parent, child, n - 1, f);
    }
  }

  lemma OthersKeepHandle(m: Machine, step: Step, h: nat)
    requires Enabled(m, step) && h in m.handles && !Concerns(step, h)
    ensures h in Apply(m, step).handles && Apply(m, step).handles[h] == m.handles[h]
  {
    match step
    case DoFork(parent, child, top) => ForkKeepsHandles(ForkAreas(m, parent, child), parent, child, top);
    case DoProtectionFault(slot, access, offer) => assert Apply(m, step).handles == m.handles;
    case _ =>
  }

  /** In every run the page of a deferred fault stays as it is through every step that does not concern the fault. */
  lemma DeferredPageKept(states: seq<Machine>, steps: seq<Step>, i: nat, h: nat)
    requires IsRun(states, steps) && i < |steps| && h in states[i].handles && states[i].handles[h].owner.Deferred?
    requires !Concerns(steps[i], h)
    ensures h in states[i + 1].handles && states[i + 1].handles[h] == states[i].handles[h]
    ensures var f := states[i].handles[h].frame;
            f in states[i].frames && f in states[i + 1].frames && states[i + 1].frames[f] == states[i].frames[f]
  {
    EveryRunConserves(states, steps, i);
    ExclusiveHandle(states[i], h);
    OthersKeepHandle(states[i], steps[i], h);
    OthersKeepFrame(states[i], steps[i], states[i].handles[h].frame, h);
  }

  lemma {:induction false} FilledPageKept(states: seq<Machine>, steps: seq<Step>, i: nat, j: nat, h: nat)
    requires IsRun(states, steps) && i < j < |states| && steps[i].DoFillDeferred? && steps[i].h == h
    requires forall k :: i < k < j ==> !Concerns(steps[k], h)
    ensures h in states[i].handles && h in states[j].handles && states[j].handles[h] == states[i].handles[h]
    ensures var f := states[i].handles[h].frame;
            f in states[j].frames && states[j].frames[f].bytes == steps[i].bytes
    decreases j
  {
    assert Enabled(states[i], steps[i]);
    if i + 1 < j {
      FilledPageKept(states, steps, i, j - 1, h);
      DeferredPageKept(states, steps, j - 1, h);
    }
  }

  /**
   In every run, whatever happens meanwhile, a page filled from its file and resumed with the area unchanged, the entry
   absent and a table page to be had is mapped and reads what the file gave.
   */
  lemma FileDataArrives(states: seq<Machine>, steps: seq<Step>, i: nat, j: nat, h: nat)
    requires IsRun(states, steps) && i < j < |states| && steps[i].DoFillDeferred? && steps[i].h == h
    requires forall k :: i < k < j ==> !Concerns(steps[k], h)
    requires h in states[i].handles && states[i].handles[h].owner.Deferred?
    requires var o := states[i].handles[h].owner;
             o.slot in states[j].areas && states[j].areas[o.slot] == o.area && o.slot !in states[j].ptes
    ensures h in states[j].handles && states[j].handles[h].owner.Deferred?
    ensures states[j].handles[h].frame in states[j].frames
    ensures var slot, m' := states[i].handles[h].owner.slot, FinishDeferred(states[j], h, true);
            slot in m'.ptes && m'.ptes[slot].frame in m'.frames && Resident(m', slot) == steps[i].bytes
  {
    FilledPageKept(states, steps, i, j, h);
    UnchangedAreaGetsPage(states, steps, j, h);
  }

  // ----- Entries, pins, stores -----

  /** What every entry in every state of every run allows, by its area. */
  lemma EntryPermissions(m: Machine, s: Slot)
    requires Inv(m) && s in m.ptes
    ensures s in m.areas
    ensures var pte, area := m.ptes[s].perms, m.areas[s];
            && pte.user && pte.read == area.perms.read && pte.execute == area.perms.execute
            && (if pte.cow then !pte.write && area.perms.write && !area.kind.SharedAnon?
                else pte.write == area.perms.write)
  {
    assert EntryMatchesArea(m, s);
  }

  /** A pin is a handle on the slot's frame, with one more reference. */
  lemma PinHolds(m: Machine, slot: Slot, h: nat)
    requires Sound(m) && slot in m.ptes && h !in m.handles
    ensures var m', f := Pin(m, slot, h), m.ptes[slot].frame;
            && m'.handles == m.handles[h := Handle(f, Pinned)]
            && f in m'.frames && m'.frames[f] == FrameInfo(m.frames[f].count + 1, m.frames[f].bytes)
            && (forall g :: g != f ==> (g in m'.frames <==> g in m.frames))
            && (forall g :: g != f && g in m.frames ==> m'.frames[g] == m.frames[g])
            && m'.ptes == m.ptes && m'.areas == m.areas && m'.backing == m.backing
  {
  }

  /** A pinned frame stays allocated while the pin lasts, whatever is unmapped meanwhile. */
  lemma PinnedStays(states: seq<Machine>, steps: seq<Step>, i: nat, h: nat)
    requires IsRun(states, steps) && i < |states| && h in states[i].handles
    ensures states[i].handles[h].frame in states[i].frames
  {
    EveryRunConserves(states, steps, i);
    OwnedIsAllocated(states[i]);
  }

  /** A store is read back at its slot; its other bytes stay. */
  lemma StoreIsRead(m: Machine, slot: Slot, at: nat, value: Byte)
    requires Enabled(m, DoStore(slot, at, value))
    ensures var m' := Store(m, slot, at, value);
            && m'.ptes == m.ptes && m'.ptes[slot].frame in m'.frames
            && |Resident(m', slot)| == |Resident(m, slot)| && Resident(m', slot)[at] == value
            && (forall i :: 0 <= i < |Resident(m, slot)| && i != at ==> Resident(m', slot)[i] == Resident(m, slot)[i])
  {
  }

  // ----- Fork -----

  /** What both sides of a fork are given for a resident page. */
  function SharedPermissions(area: Area): PtePermissions {
    var cow := !area.kind.SharedAnon? && area.perms.write;
    PtePermissions(area.perms.read, area.perms.write && !cow, area.perms.execute, true, cow)
  }

  lemma {:induction false} ForkEntriesAt(m: Machine, parent: nat, child: nat, n: nat, s: Slot)
    requires Sound(m) && parent != child && forall t :: t in m.ptes ==> t.space != child
    ensures var w, from := ForkPages(m, parent, child, n), Origin(s, parent, child, n);
            from in m.ptes && s in w.ptes ==>
              w.ptes[s].perms ==
              if from.space == parent && from.page < n then SharedPermissions(m.areas[from]) else m.ptes[from].perms
  {
    if n > 0 {
      ForkPagesAt(m, parent, child, n - 1, Slot(parent, n - 1));
      if s == Slot(parent, n - 1) || s == Slot(child, n - 1) {
        assert Origin(s, parent, child, n) == Slot(parent, n - 1);
        assert forall area :: ForkPermissions(area) == SharedPermissions(area);
      } else {
        ForkPagesAt(m, parent, child, n - 1, s);
        ForkEntriesAt(m, parent, child, n - 1, s);
        assert Origin(s, parent, child, n) == Origin(s, parent, child, n - 1);
      }
    }
  }

  /** A fork touches no space but the two. */
  lemma ForkLeavesOthers(m: Machine, parent: nat, child: nat, top: nat, s: Slot)
    requires Inv(m) && Sound(m) && ForkEnabled(m, parent, child, top) && s.space != parent && s.space != child
    ensures var m' := Fork(m, parent, child, top);
            && (s in m'.areas <==> s in m.areas) && (s in m.areas ==> m'.areas[s] == m.areas[s])
            && (s in m'.ptes <==> s in m.ptes) && (s in m.ptes ==> m'.ptes[s] == m.ptes[s])
  {
    var forked := ForkAreas(m, parent, child);
    ForkPagesAt(forked, parent, child, top, s);
    ForkEntriesAt(forked, parent, child, top, s);
  }

  /**
   After a fork the child has the parent's areas and resident frames; both map a private writable page copy-on-write
   and a shared one as before.
   */
  lemma ForkOutcome(m: Machine, parent: nat, child: nat, top: nat, page: nat)
    requires Inv(m) && Sound(m) && ForkEnabled(m, parent, child, top)
    ensures var m', from, to := Fork(m, parent, child, top), Slot(parent, page), Slot(child, page);
            && (to in m'.areas <==> from in m.areas) && (from in m'.areas <==> from in m.areas)
            && (from in m.areas ==> m'.areas[to] == m.areas[from] == m'.areas[from])
            && (to in m'.ptes <==> from in m.ptes) && (from in m'.ptes <==> from in m.ptes)
            && (from in m.ptes ==>
                  && m'.ptes[to] == m'.ptes[from] && m'.ptes[from].frame == m.ptes[from].frame
                  && var area := m.areas[from];
                     var cow := !area.kind.SharedAnon? && area.perms.write;
                     m'.ptes[from].perms.cow == cow && m'.ptes[from].perms.write == (area.perms.write && !cow))
  {
    var forked := ForkAreas(m, parent, child);
    assert Sound(forked);
    forall s ensures s == Slot(parent, page) || s == Slot(child, page) ==>
        (s in Fork(m, parent, child, top).ptes <==> Slot(parent, page) in m.ptes)
    {
      ForkPagesAt(forked, parent, child, top, s);
    }
    ForkPagesAt(forked, parent, child, top, Slot(parent, page));
    ForkPagesAt(forked, parent, child, top, Slot(child, page));
    ForkEntriesAt(forked, parent, child, top, Slot(parent, page));
    ForkEntriesAt(forked, parent, child, top, Slot(child, page));
  }
}
