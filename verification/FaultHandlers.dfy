/**
 The fault handlers as they are written: pages are claimed, mapped, leaked and dropped step by
 step on the kernel's tables. Each handler is proved against the machine's transition.
 */
module FaultHandlers {
  import opened PageFrames
  import opened Paging
  import opened PagingInvariant

  datatype MapResult = Mapped | AlreadyMapped | NoTable

  /** The pages of `[lo, hi)` unmapped one after the other; page `p` moves to handle `next + p`. */
  function UnmapPages(m: Machine, space: nat, lo: nat, hi: nat, next: nat): Machine
    requires lo <= hi
    decreases hi
  {
    if lo == hi then m else UnmapPage(UnmapPages(m, space, lo, hi - 1, next), Slot(space, hi - 1), next + hi - 1)
  }

  lemma {:induction false} UnmapPagesAt(m: Machine, space: nat, lo: nat, hi: nat, next: nat, s: Slot)
    requires lo <= hi
    ensures var m' := UnmapPages(m, space, lo, hi, next);
            var gone := s.space == space && lo <= s.page < hi;
            && (s in m'.ptes <==> s in m.ptes && !gone) && (s in m'.ptes ==> m'.ptes[s] == m.ptes[s])
            && (s in m'.areas <==> s in m.areas && !gone) && (s in m'.areas ==> m'.areas[s] == m.areas[s])
            && m'.frames == m.frames && m'.backing == m.backing
    decreases hi
  {
    if lo < hi { UnmapPagesAt(m, space, lo, hi - 1, next, s); }
  }

  lemma {:induction false} UnmapPagesHandles(m: Machine, space: nat, lo: nat, hi: nat, next: nat)
    requires lo <= hi && forall h :: h in m.handles ==> h < next
    ensures forall h :: h in UnmapPages(m, space, lo, hi, next).handles ==> h < next + hi
    decreases hi
  {
    if lo < hi { UnmapPagesHandles(m, space, lo, hi - 1, next); }
  }

  lemma SameInv(a: Machine, b: Machine)
    requires Inv(a) && a == b
    ensures Inv(b)
  {
  }

  /** An unmapped range keeps the invariant, its references owned by handles until they are freed. */
  lemma {:induction false} UnmapPagesKeeps(m: Machine, space: nat, lo: nat, hi: nat, next: nat)
    requires lo <= hi && Inv(m) && forall h :: h in m.handles ==> h < next
    ensures Inv(UnmapPages(m, space, lo, hi, next))
    decreases hi
  {
    if lo < hi {
      UnmapPagesKeeps(m, space, lo, hi - 1, next);
      UnmapPagesHandles(m, space, lo, hi - 1, next);
      var before, slot, h := UnmapPages(m, space, lo, hi - 1, next), Slot(space, hi - 1), next + hi - 1;
      UnmapKeeps(before, slot, h);
      SameInv(UnmapPage(before, slot, h), UnmapPages(m, space, lo, hi, next));
    }
  }

  lemma ProtectionFaultSound(m: Machine, slot: Slot, access: AccessKind, offer: Option<Frame>)
    requires Inv(m) && Sound(m) && slot in m.ptes && FreeOffer(m, offer)
    ensures Inv(ProtectionFault(m, slot, access, offer).0) && Sound(ProtectionFault(m, slot, access, offer).0)
  {
    StepKeeps(m, DoProtectionFault(slot, access, offer));
    OwnedIsAllocated(ProtectionFault(m, slot, access, offer).0);
  }

  lemma DemandFaultSound(m: Machine, slot: Slot, access: AccessKind, offer: Option<Frame>, ok: bool, h: nat)
    requires Inv(m) && Sound(m) && FreeOffer(m, offer) && h !in m.handles
    ensures Inv(DemandFault(m, slot, access, offer, ok, h).0) && Sound(DemandFault(m, slot, access, offer, ok, h).0)
  {
    StepKeeps(m, DoDemandFault(slot, access, offer, ok, h));
    OwnedIsAllocated(DemandFault(m, slot, access, offer, ok, h).0);
  }

  lemma ForkSound(m: Machine, parent: nat, child: nat, top: nat)
    requires Inv(m) && Sound(m) && ForkEnabled(m, parent, child, top)
    ensures Inv(Fork(m, parent, child, top)) && Sound(Fork(m, parent, child, top))
  {
    StepKeeps(m, DoFork(parent, child, top));
    OwnedIsAllocated(Fork(m, parent, child, top));
  }

  class Kernel {
    var frames: Frames
    var ptes: map<Slot, Pte>
    var areas: map<Slot, Area>
    var backing: map<BackingSlot, Frame>
    var handles: map<nat, Handle>

    ghost function State(): Machine
      reads this
    {
      Machine(frames, ptes, areas, backing, handles)
    }

    ghost predicate Valid()
      reads this
    {
      Inv(State()) && Sound(State())
    }

    constructor ()
      ensures State() == Booted && Valid()
    {
      frames, ptes, areas, backing, handles := map[], map[], map[], map[], map[];
      new;
      BootHolds();
    }

    // ----- Claimed pages -----

    /** Allocates a zeroed page; the caller owns its one reference. */
    method AllocZeroed(offer: Option<Frame>) returns (page: Option<Frame>)
      requires FreeOffer(State(), offer)
      modifies this`frames
      ensures page == offer
      ensures frames == if offer.Some? then AllocFrame(old(frames), offer.value, ZeroPage()) else old(frames)
    {
      if offer.Some? {
        frames := frames[offer.value := FrameInfo(1, ZeroPage())];
      }
      page := offer;
    }

    /** Drops an owned page. */
    method DropPage(f: Frame)
      requires f in frames
      modifies this`frames
      ensures frames == DropReference(old(frames), f)
    {
      if frames[f].count > 1 {
        frames := frames[f := FrameInfo(frames[f].count - 1, frames[f].bytes)];
      } else {
        frames := frames - {f};
      }
    }

    /** The canonical page of a backing slot, with one extra reference for the caller. */
    method ClaimPage(backed: BackingSlot, offer: Option<Frame>) returns (claimed: Option<Frame>)
      requires Valid() && FreeOffer(State(), offer)
      modifies this`frames, this`backing
      ensures claimed.None? <==> old(backed !in backing) && offer.None?
      ensures claimed.None? ==> State() == old(State())
      ensures claimed.Some? ==>
                var m := Materialise(old(State()), backed, if offer.Some? then offer.value else 0);
                && backed in m.backing && m.backing[backed] == claimed.value && claimed.value in m.frames
                && State() == m.(frames := AddReference(m.frames, claimed.value))
    {
      if backed !in backing {
        var page := AllocZeroed(offer);
        if page.None? {
          return None;
        }
        backing := backing[backed := page.value];
      }
      var f := backing[backed];
      frames := frames[f := FrameInfo(frames[f].count + 1, frames[f].bytes)];
      return Some(f);
    }

    method MapPage(f: Frame, slot: Slot, perms: PtePermissions, tablesOk: bool) returns (r: MapResult)
      modifies this`ptes
      ensures r == if slot in old(ptes) then AlreadyMapped else if tablesOk then Mapped else NoTable
      ensures ptes == if r.Mapped? then old(ptes)[slot := Pte(f, perms)] else old(ptes)
    {
      if slot in ptes {
        return AlreadyMapped;
      }
      if !tablesOk {
        return NoTable;
      }
      ptes := ptes[slot := Pte(f, perms)];
      return Mapped;
    }

    // ----- Faults -----

    method HandleDemandFault(slot: Slot, access: AccessKind, offer: Option<Frame>, tablesOk: bool, h: nat)
      returns (outcome: Outcome)
      requires Valid() && FreeOffer(State(), offer) && h !in handles
      modifies this
      ensures (State(), outcome) == DemandFault(old(State()), slot, access, offer, tablesOk, h)
      ensures Valid()
    {
      outcome := ResolveDemandFault(slot, access, offer, tablesOk, h);
      DemandFaultSound(old(State()), slot, access, offer, tablesOk, h);
    }

    /** The shared, the deferred and the anonymous path. */
    method ResolveDemandFault(slot: Slot, access: AccessKind, offer: Option<Frame>, tablesOk: bool, h: nat)
      returns (outcome: Outcome)
      requires Valid() && FreeOffer(State(), offer) && h !in handles
      modifies this
      ensures (State(), outcome) == DemandFault(old(State()), slot, access, offer, tablesOk, h)
    {
      if slot !in areas || !AreaPermits(areas[slot].perms, access) {
        return Denied;
      }
      var area := areas[slot];
      if area.kind.SharedAnon? {
        var claimed := ClaimPage(area.kind.backed, offer);
        if claimed.None? {
          return Failed;
        }
        ghost var m := Materialise(old(State()), area.kind.backed, if offer.Some? then offer.value else 0);
        MaterialiseKeeps(old(State()), area.kind.backed, if offer.Some? then offer.value else 0);
        DropUndoesClaim(m.frames, claimed.value, []);
        outcome := Install(claimed.value, slot, FromArea(area.perms), tablesOk);
      } else if NeedsFile(area.kind) {
        var page := AllocZeroed(offer);
        if page.None? {
          return Failed;
        }
        handles := handles[h := Handle(page.value, Deferred(slot, access, area))];
        return DeferredFault;
      } else {
        var page := AllocZeroed(offer);
        if page.None? {
          return Failed;
        }
        DropUndoesClaim(old(frames), page.value, ZeroPage());
        outcome := Install(page.value, slot, FromArea(area.perms), tablesOk);
      }
    }

    /** Maps an owned page, leaking it to the table, or drops it when it was not mapped. */
    method Install(f: Frame, slot: Slot, perms: PtePermissions, tablesOk: bool) returns (outcome: Outcome)
      requires f in frames
      modifies this`frames, this`ptes
      ensures slot in old(ptes) ==>
                outcome == Resolved && frames == DropReference(old(frames), f) && ptes == old(ptes)
      ensures slot !in old(ptes) && !tablesOk ==>
                outcome == Failed && frames == DropReference(old(frames), f) && ptes == old(ptes)
      ensures slot !in old(ptes) && tablesOk ==>
                outcome == Resolved && frames == old(frames) && ptes == old(ptes)[slot := Pte(f, perms)]
    {
      var r := MapPage(f, slot, perms, tablesOk);
      match r
      case Mapped => outcome := Resolved;
      case AlreadyMapped => DropPage(f); outcome := Resolved;
      case NoTable => DropPage(f); outcome := Failed;
    }

    /** A deferred fault whose read failed gives its page back. */
    method AbandonDeferredFault(h: nat)
      requires Valid() && h in handles && handles[h].owner.Deferred?
      modifies this`frames, this`handles
      ensures State() == DropHandle(old(State()), h)
      ensures Valid()
    {
      DropTaken(h);
    }

    /** The rest of a deferred fault, after its read: the area is looked up again under the lock. */
    method ResumeDeferredFault(h: nat, tablesOk: bool) returns (ok: bool)
      requires Valid() && h in handles && handles[h].owner.Deferred?
      modifies this`frames, this`ptes, this`handles
      ensures State() == FinishDeferred(old(State()), h, tablesOk)
      ensures var o := old(handles)[h].owner;
              !ok <==> AreaAllows(State(), o.slot, o.access) && areas[o.slot] == o.area && o.slot !in ptes
      ensures Valid()
    {
      FinishDeferredKeeps(State(), h, tablesOk);
      OwnedIsAllocated(FinishDeferred(State(), h, tablesOk));
      var Handle(page, o) := handles[h];
      handles := handles - {h};
      if o.slot !in areas || !AreaPermits(areas[o.slot].perms, o.access) || areas[o.slot] != o.area {
        DropPage(page);
        return true;
      }
      var r := MapPage(page, o.slot, FromArea(o.area.perms), tablesOk);
      if !r.Mapped? {
        DropPage(page);
      }
      return !r.NoTable?;
    }

    method HandleProtectionFault(slot: Slot, access: AccessKind, offer: Option<Frame>) returns (outcome: Outcome)
      requires Valid() && slot in ptes && FreeOffer(State(), offer)
      modifies this
      ensures (State(), outcome) == ProtectionFault(old(State()), slot, access, offer)
      ensures Valid()
    {
      ProtectionFaultSound(State(), slot, access, offer);
      var info := ptes[slot];
      if access != Write || !info.perms.cow {
        return Denied;
      }
      var perms := FromCow(info.perms);
      if frames[info.frame].count == 1 {
        ptes := ptes[slot := Pte(info.frame, perms)];
        return Resolved;
      }
      outcome := CopyForWrite(slot, offer);
    }

    /** A shared page is copied to a new one, which takes its place; the old one loses a reference. */
    method CopyForWrite(slot: Slot, offer: Option<Frame>) returns (outcome: Outcome)
      requires slot in ptes && ptes[slot].frame in frames && FreeOffer(State(), offer)
      modifies this
      ensures outcome == if offer.None? then Failed else Resolved
      ensures State() == if offer.None? then old(State()) else CopyOnWrite(old(State()), slot, offer.value)
    {
      var page := AllocZeroed(offer);
      if page.None? {
        return Failed;
      }
      var info := ptes[slot];
      var source := info.frame;
      frames := frames[page.value := FrameInfo(frames[page.value].count, frames[source].bytes)];
      ptes := ptes[slot := Pte(page.value, FromCow(info.perms))];
      DropPage(source);
      assert frames == DropReference(AllocFrame(old(frames), page.value, old(frames)[source].bytes), source);
      return Resolved;
    }

    // ----- Fork -----

    /** One present entry: the reference is counted, the child's entry made, the parent's protected. */
    method ProtectAndClone(parent: nat, child: nat, page: nat)
      requires Slot(parent, page) in ptes && Slot(parent, page) in areas && ptes[Slot(parent, page)].frame in frames
      requires parent != child
      modifies this`frames, this`ptes
      ensures State() == ClonePage(old(State()), parent, child, page)
    {
      var from := Slot(parent, page);
      var entry := Pte(ptes[from].frame, ForkPermissions(areas[from]));
      frames := frames[entry.frame := FrameInfo(frames[entry.frame].count + 1, frames[entry.frame].bytes)];
      ptes := ptes[Slot(child, page) := entry];
      ptes := ptes[from := entry];
    }

    /** Walks the parent's pages below `top`, which bounds its mapped region. */
    method CloneAsCow(parent: nat, child: nat, top: nat)
      requires Valid() && ForkEnabled(State(), parent, child, top)
      modifies this`frames, this`ptes, this`areas
      ensures State() == Fork(old(State()), parent, child, top) && Valid()
    {
      ForkSound(State(), parent, child, top);
      WalkPages(parent, child, top);
    }

    method WalkPages(parent: nat, child: nat, top: nat)
      requires Sound(State()) && ForkEnabled(State(), parent, child, top)
      modifies this`frames, this`ptes, this`areas
      ensures State() == Fork(old(State()), parent, child, top)
    {
      areas := Inherit(areas, parent, child);
      ghost var start := State();
      for page := 0 to top
        invariant State() == ForkPages(start, parent, child, page)
      {
        var from := Slot(parent, page);
        if from in ptes && from in areas && ptes[from].frame in frames {
          ProtectAndClone(parent, child, page);
        }
      }
    }

    // ----- Unmapping -----

    /** Takes the pages of `[lo, hi)` out of the table and returns the handles that now own them. */
    method UnmapRange(space: nat, lo: nat, hi: nat, next: nat) returns (taken: seq<nat>)
      requires lo <= hi
      modifies this`ptes, this`areas, this`handles
      ensures State() == UnmapPages(old(State()), space, lo, hi, next)
      ensures forall h :: h in taken <==> lo <= h - next < hi && Slot(space, h - next) in old(ptes)
    {
      taken := [];
      for page := lo to hi
        invariant State() == UnmapPages(old(State()), space, lo, page, next)
        invariant forall h :: h in taken <==> lo <= h - next < page && Slot(space, h - next) in old(ptes)
      {
        UnmapPagesAt(old(State()), space, lo, page, next, Slot(space, page));
        var slot := Slot(space, page);
        areas := areas - {slot};
        if slot in ptes {
          handles := handles[next + page := Handle(ptes[slot].frame, Unmapped)];
          ptes := ptes - {slot};
          taken := taken + [next + page];
        }
      }
    }

    /** A handle goes, and its reference with it. */
    method DropTaken(h: nat)
      requires Valid() && h in handles && handles[h].frame in frames
      modifies this`frames, this`handles
      ensures Valid() && State() == DropHandle(old(State()), h)
    {
      DropHandleKeeps(State(), h);
      OwnedIsAllocated(DropHandle(State(), h));
      DropPage(handles[h].frame);
      handles := handles - {h};
    }

    /** Each unmapped frame owns one reference, given up here. */
    method FreeUnmappedPages(taken: seq<nat>)
      requires Valid() && (forall h :: h in taken ==> h in handles)
      requires forall i, j :: 0 <= i < j < |taken| ==> taken[i] != taken[j]
      modifies this`frames, this`handles
      ensures Valid()
      ensures handles == old(handles) - (set h | h in taken)
      ensures forall f :: f in frames ==> f in old(frames) && frames[f].bytes == old(frames)[f].bytes
    {
      for i := 0 to |taken|
        invariant Valid()
        invariant handles == old(handles) - (set h | h in taken[..i])
        invariant forall f :: f in frames ==> f in old(frames) && frames[f].bytes == old(frames)[f].bytes
        invariant ptes == old(ptes) && areas == old(areas) && backing == old(backing)
      {
        var h := taken[i];
        assert h !in taken[..i];
        DropTaken(h);
        assert taken[..i + 1] == taken[..i] + [h];
      }
      assert taken[..|taken|] == taken;
    }
  }

  // ----- What a handled fault achieves -----

  /** A demand fault that is resolved leaves an entry, and a new entry allows the access. */
  lemma ResolvedDemandFaultMaps(m: Machine, slot: Slot, access: AccessKind, offer: Option<Frame>, ok: bool, h: nat)
    requires Inv(m) && Sound(m) && FreeOffer(m, offer) && h !in m.handles
    requires DemandFault(m, slot, access, offer, ok, h).1 == Resolved
    ensures var m' := DemandFault(m, slot, access, offer, ok, h).0;
            slot in m'.ptes && (slot !in m.ptes ==> PtePermits(m'.ptes[slot].perms, access))
  {
  }

  /**
   The handler denies exactly what the area refuses, as its second assertion says, if and only if the entry it finds
   under the lock still refuses the access; what it resolves it resolves as its first assertion says.
   */
  lemma ProtectionFaultAgreesWithArea(m: Machine, slot: Slot, access: AccessKind, offer: Option<Frame>)
    requires Inv(m) && Sound(m) && slot in m.ptes && FreeOffer(m, offer)
    ensures var (m', outcome) := ProtectionFault(m, slot, access, offer);
            && ((outcome == Denied <==> !AreaAllows(m, slot, access)) <==> !PtePermits(m.ptes[slot].perms, access))
            && (outcome == Resolved ==>
                  m'.ptes[slot].perms == FromArea(m.areas[slot].perms) && PtePermits(m'.ptes[slot].perms, access))
  {
    assert EntryMatchesArea(m, slot);
  }

  /**
   Two threads write the same copy-on-write page and both fault. Whoever takes the lock second finds the entry writable
   by then, and is denied a write that its area allows.
   */
  lemma SecondWriterDenied(m: Machine, slot: Slot, first: Option<Frame>, second: Option<Frame>)
    requires Inv(m) && Sound(m) && CowWrite(m, slot, Write) && FreeOffer(m, first)
    requires ProtectionFault(m, slot, Write, first).1 == Resolved
    requires FreeOffer(ProtectionFault(m, slot, Write, first).0, second)
    ensures var m' := ProtectionFault(m, slot, Write, first).0;
            && Enabled(m', DoProtectionFault(slot, Write, second)) && AreaAllows(m', slot, Write)
            && ProtectionFault(m', slot, Write, second) == (m', Denied)
  {
    ProtectionFaultSound(m, slot, Write, first);
    ProtectionFaultAgreesWithArea(m, slot, Write, first);
    assert EntryMatchesArea(m, slot);
  }

  // ----- Pinning a page -----

  datatype Turn = GotPage | Fault | Error | Again

  /**
   One turn of the loop of `get_page`: pin if the entry allows the access, else run the demand handler, and wait for
   the file if it defers. The allocator offers `f`, page-table pages can be had, and the file holds `bytes`.
   */
  ghost function GetPageTurn(m: Machine, slot: Slot, access: AccessKind, f: Frame, bytes: seq<Byte>, h: nat)
    : (Machine, Turn)
    requires Sound(m)
  {
    if slot in m.ptes && PtePermits(m.ptes[slot].perms, access) then (Pin(m, slot, h), GotPage)
    else
      var (m', outcome) := DemandFault(m, slot, access, Some(f), true, h);
      match outcome
      case Resolved => (m', Again)
      case Denied => (m', Fault)
      case DeferredFault => (FinishDeferred(FillDeferred(m', h, bytes), h, true), Again)
      case Failed => (m', Error)
  }

  /** An allocator that has memory to spare. */
  ghost predicate Spares(alloc: Machine -> Frame) {
    forall m: Machine :: alloc(m) !in m.frames
  }

  /** The loop for `n` turns, or until it ends. */
  ghost function GetPage(
    m: Machine, slot: Slot, access: AccessKind, alloc: Machine -> Frame, bytes: seq<Byte>, h: nat, n: nat)
    : (Machine, Turn)
    decreases n
  {
    if n == 0 || !Sound(m) then (m, Again)
    else
      var (m', turn) := GetPageTurn(m, slot, access, alloc(m), bytes, h);
      if turn == Again then GetPage(m', slot, access, alloc, bytes, h, n - 1) else (m', turn)
  }

  /** The entry that the loop gets nowhere with: the demand handler finds it mapped and leaves it as it is. */
  predicate CowWrite(m: Machine, slot: Slot, access: AccessKind) {
    slot in m.ptes && access == Write && m.ptes[slot].perms.cow
  }

  /** A turn on such an entry changes nothing, whether the page comes from a file or not. */
  lemma CowTurnStalls(m: Machine, slot: Slot, access: AccessKind, f: Frame, bytes: seq<Byte>, h: nat)
    requires Inv(m) && Sound(m) && f !in m.frames && h !in m.handles && CowWrite(m, slot, access)
    ensures GetPageTurn(m, slot, access, f, bytes, h) == (m, Again)
  {
    assert EntryMatchesArea(m, slot);
    var (m', outcome) := DemandFault(m, slot, access, Some(f), true, h);
    if outcome == DeferredFault {
      var filled := FillDeferred(m', h, bytes);
      assert DropHandle(filled, h).frames == m.frames && DropHandle(filled, h).handles == m.handles;
    }
  }

  lemma ReadKeeps(m: Machine, h: nat, bytes: seq<Byte>)
    requires Inv(m) && Sound(m) && h in m.handles && m.handles[h].owner.Deferred? && |bytes| == PAGE_SIZE
    ensures Sound(FillDeferred(m, h, bytes))
    ensures var m' := FinishDeferred(FillDeferred(m, h, bytes), h, true); Inv(m') && Sound(m')
  {
    FillDeferredKeeps(m, h, bytes);
    FinishDeferredKeeps(FillDeferred(m, h, bytes), h, true);
    OwnedIsAllocated(FinishDeferred(FillDeferred(m, h, bytes), h, true));
  }

  /** A turn on an absent page that the area allows maps it, from its file if need be. */
  lemma AbsentTurnMaps(m: Machine, slot: Slot, access: AccessKind, f: Frame, bytes: seq<Byte>, h: nat)
    requires Sound(m) && f !in m.frames && h !in m.handles && slot !in m.ptes && AreaAllows(m, slot, access)
    ensures var (m', turn) := GetPageTurn(m, slot, access, f, bytes, h);
            turn == Again && slot in m'.ptes && PtePermits(m'.ptes[slot].perms, access)
  {
    var area := m.areas[slot];
    if area.kind.SharedAnon? {
      assert DemandFault(m, slot, access, Some(f), true, h).1 == Resolved;
    } else if NeedsFile(area.kind) {
      var m1 := DemandFault(m, slot, access, Some(f), true, h).0;
      assert m1.handles[h] == Handle(f, Deferred(slot, access, area));
      assert DeferredWins(FillDeferred(m1, h, bytes), h, true);
    } else {
      assert DemandFault(m, slot, access, Some(f), true, h) == (MapFresh(m, slot, f), Resolved);
    }
  }

  lemma AbsentTurnKeeps(m: Machine, slot: Slot, access: AccessKind, f: Frame, bytes: seq<Byte>, h: nat)
    requires Inv(m) && Sound(m) && f !in m.frames && h !in m.handles && |bytes| == PAGE_SIZE
    requires slot !in m.ptes && AreaAllows(m, slot, access)
    ensures Sound(GetPageTurn(m, slot, access, f, bytes, h).0)
  {
    DemandFaultSound(m, slot, access, Some(f), true, h);
    if NeedsFile(m.areas[slot].kind) {
      ReadKeeps(DemandFault(m, slot, access, Some(f), true, h).0, h, bytes);
    }
  }

  /** A present entry allows what its area allows, but for a write to a copy-on-write page. */
  lemma PresentEntryPermits(m: Machine, slot: Slot, access: AccessKind)
    requires Inv(m) && Sound(m) && slot in m.ptes
    ensures PtePermits(m.ptes[slot].perms, access) <==> AreaAllows(m, slot, access) && !CowWrite(m, slot, access)
  {
    assert EntryMatchesArea(m, slot);
  }

  /**
   With memory to spare and no other thread at work, the loop pins the page within two turns if and only if the area
   allows the access and it is not a write to a copy-on-write page; on such a page it goes on for ever, and where the
   area refuses it ends with a fault at once.
   */
  lemma {:induction false} GetPageOutcome(
    m: Machine, slot: Slot, access: AccessKind, alloc: Machine -> Frame, bytes: seq<Byte>, h: nat, n: nat)
    requires Inv(m) && Sound(m) && Spares(alloc) && h !in m.handles && |bytes| == PAGE_SIZE
    ensures CowWrite(m, slot, access) ==> GetPage(m, slot, access, alloc, bytes, h, n) == (m, Again)
    ensures n >= 2 ==> (GetPage(m, slot, access, alloc, bytes, h, n).1 == GotPage
                        <==> AreaAllows(m, slot, access) && !CowWrite(m, slot, access))
    ensures n >= 1 && !AreaAllows(m, slot, access) ==> GetPage(m, slot, access, alloc, bytes, h, n) == (m, Fault)
  {
    if slot in m.ptes {
      PresentEntryPermits(m, slot, access);
    }
    if n > 0 {
      if CowWrite(m, slot, access) {
        CowTurnStalls(m, slot, access, alloc(m), bytes, h);
        GetPageOutcome(m, slot, access, alloc, bytes, h, n - 1);
      } else if slot !in m.ptes && AreaAllows(m, slot, access) {
        AbsentTurnMaps(m, slot, access, alloc(m), bytes, h);
        AbsentTurnKeeps(m, slot, access, alloc(m), bytes, h);
      }
    }
  }
}
